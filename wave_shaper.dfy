/**
 * Wave-shaper lookup tables: a transfer function sampled on an evenly spaced
 * grid over [-1, 1], the input domain of a WaveShaperNode curve (section
 * 1.31 of the W3C Web Audio API), and the in-place normalisation of
 * docs/helpers/web-audio-extensions.ts with the nodes built on it.
 *
 * A transfer function receives the grid value and the index, as in the
 * source.  The table is an `array<real>`; the source's copy into a
 * Float32Array is the identity here, since numbers are reals.
 */
module WaveShaperCurves {
  import opened Numerics
  import opened MathKernel

  /** The i-th of n evenly spaced points from -1 to 1: (i / (n - 1)) * 2 - 1. */
  function GridPoint(i: int, n: int): real
    requires n >= 2
  {
    (i as real / (n - 1) as real) * 2.0 - 1.0
  }

  /** The table a sampling loop of length n fills in: entry i is f(GridPoint(i, n), i). */
  function Sampled(f: (real, int) -> real, n: nat): (s: seq<real>)
    requires n != 1
    ensures |s| == n
  {
    seq(n, i requires 0 <= i < n => f(GridPoint(i, n), i))
  }

  /** The grid starts at -1 and ends at 1. */
  lemma GridEndpoints(n: int)
    requires n >= 2
    ensures GridPoint(0, n) == -1.0 && GridPoint(n - 1, n) == 1.0
  {
    DivSelf((n - 1) as real);
  }

  /** The grid is strictly increasing and stays within [-1, 1]. */
  lemma GridStrictlyIncreasing(i: int, j: int, n: int)
    requires n >= 2 && 0 <= i < j < n
    ensures -1.0 <= GridPoint(i, n) < GridPoint(j, n) <= 1.0
  {
    var d := (n - 1) as real;
    GridEndpoints(n);
    DivStrictlyIncreasing(i as real, j as real, d);
    DivMonotone(0.0, i as real, d);
    DivMonotone(j as real, d, d);
    DivSelf(d);
  }

  /**
   * The sampling loop shared by pkg ScalerNode.getWaveShaperCurve and the
   * first loop of the docs getWaveShaperCurve.  A length of 1 divides 0 by 0
   * in the source, so it is excluded.
   */
  method SampleCurve(f: (real, int) -> real, length: nat) returns (curve: array<real>)
    requires length != 1
    ensures fresh(curve)
    ensures curve[..] == Sampled(f, length)
  {
    curve := new real[length];
    var i := 0;
    while i < length
      invariant 0 <= i <= length
      invariant curve[..i] == Sampled(f, length)[..i]
    {
      curve[i] := f(GridPoint(i, length), i);
      i := i + 1;
    }
  }

  // ---------------------------------------------------------------------
  // Normalisation of a table back to [-1, 1]
  // ---------------------------------------------------------------------

  function Last(s: seq<real>): real
    requires |s| > 0
  {
    s[|s| - 1]
  }

  /**
   * The in-place loop divides by last - first at its first step and, once
   * entry 0 has become -1, by last - (-1) at every later one; both must be
   * non-zero.
   */
  predicate NormalizeDefined(o: seq<real>) {
    |o| != 1 && (|o| >= 2 ==> o[0] != Last(o) && Last(o) != -1.0)
  }

  /**
   * What the in-place loop leaves: entry 0 becomes -1, and every later entry
   * is rescaled from [-1, last] (entry 0 as already overwritten), not from
   * [first, last].
   */
  function NormalizedAsWritten(o: seq<real>): (r: seq<real>)
    requires NormalizeDefined(o)
    ensures |r| == |o|
  {
    seq(|o|, i requires 0 <= i < |o| => if i == 0 then -1.0 else ScaleValue(o[i], -1.0, Last(o), -1.0, 1.0))
  }

  /** The normalisation evidently intended: every entry rescaled from [first, last] onto [-1, 1]. */
  function NormalizedCorrected(o: seq<real>): (r: seq<real>)
    requires |o| >= 2 && o[0] != Last(o)
    ensures |r| == |o|
  {
    seq(|o|, i requires 0 <= i < |o| => ScaleValue(o[i], o[0], Last(o), -1.0, 1.0))
  }

  /** getWaveShaperCurve of docs/helpers/web-audio-extensions.ts, normalising in place as written. */
  method GetWaveShaperCurve(transferFn: (real, int) -> real, length: nat, normalize: bool)
    returns (curve: array<real>)
    requires length != 1
    requires normalize ==> NormalizeDefined(Sampled(transferFn, length))
    ensures fresh(curve)
    ensures !normalize ==> curve[..] == Sampled(transferFn, length)
    ensures normalize ==> curve[..] == NormalizedAsWritten(Sampled(transferFn, length))
  {
    curve := SampleCurve(transferFn, length);
    if normalize {
      NormalizeInPlace(curve);
    }
  }

  /**
   * The normalising loop of getWaveShaperCurve: each step reads entry 0 and
   * the last entry of the array it is overwriting.
   */
  method NormalizeInPlace(curve: array<real>)
    requires NormalizeDefined(curve[..])
    modifies curve
    ensures curve[..] == NormalizedAsWritten(old(curve[..]))
  {
    ghost var original := curve[..];
    ghost var target := NormalizedAsWritten(original);
    var n := curve.Length;
    var i := 0;
    while i < n
      invariant 0 <= i <= n
      invariant forall k :: i <= k < n ==> curve[k] == original[k]
      invariant forall k :: 0 <= k < i ==> curve[k] == target[k]
    {
      curve[i] := ScaleValue(curve[i], curve[0], curve[n - 1], -1.0, 1.0);
      i := i + 1;
    }
    assert curve[..] == target;
  }

  /** The corrected getWaveShaperCurve: the reference values are read before the loop overwrites them. */
  method GetWaveShaperCurveCorrected(transferFn: (real, int) -> real, length: nat, normalize: bool)
    returns (curve: array<real>)
    requires length != 1
    requires normalize && length >= 2 ==> Sampled(transferFn, length)[0] != Last(Sampled(transferFn, length))
    ensures fresh(curve)
    ensures !normalize || length == 0 ==> curve[..] == Sampled(transferFn, length)
    ensures normalize && length >= 2 ==> curve[..] == NormalizedCorrected(Sampled(transferFn, length))
  {
    curve := SampleCurve(transferFn, length);
    if normalize && length >= 2 {
      NormalizeInPlaceCorrected(curve);
    }
  }

  /** The corrected normalising loop: first and last are read once, before anything is overwritten. */
  method NormalizeInPlaceCorrected(curve: array<real>)
    requires curve.Length >= 2 && curve[0] != curve[curve.Length - 1]
    modifies curve
    ensures curve[..] == NormalizedCorrected(old(curve[..]))
  {
    ghost var original := curve[..];
    ghost var target := NormalizedCorrected(original);
    var n := curve.Length;
    var first, last := curve[0], curve[n - 1];
    var i := 0;
    while i < n
      invariant 0 <= i <= n
      invariant forall k :: i <= k < n ==> curve[k] == original[k]
      invariant forall k :: 0 <= k < i ==> curve[k] == target[k]
    {
      curve[i] := ScaleValue(curve[i], first, last, -1.0, 1.0);
      i := i + 1;
    }
    assert curve[..] == target;
  }

  /** As written, the first entry becomes -1 and the last becomes 1. */
  lemma NormalizedAsWrittenEnds(o: seq<real>)
    requires NormalizeDefined(o) && |o| >= 2
    ensures NormalizedAsWritten(o)[0] == -1.0
    ensures Last(NormalizedAsWritten(o)) == 1.0
  {
  }

  /** The corrected normalisation sends the first entry to -1, the last to 1, and can be undone entry by entry. */
  lemma NormalizedCorrectedProperties(o: seq<real>, i: int)
    requires |o| >= 2 && o[0] != Last(o) && 0 <= i < |o|
    ensures NormalizedCorrected(o)[0] == -1.0
    ensures Last(NormalizedCorrected(o)) == 1.0
    ensures ScaleValue(NormalizedCorrected(o)[i], -1.0, 1.0, o[0], Last(o)) == o[i]
  {
    ScaleValueRoundTrip(o[i], o[0], Last(o), -1.0, 1.0);
  }

  /** When the first entry is already -1 the aliasing is harmless: both normalisations agree. */
  lemma NormalizationsAgreeFromMinusOne(o: seq<real>)
    requires |o| >= 2 && o[0] == -1.0 && Last(o) != -1.0
    ensures NormalizeDefined(o)
    ensures NormalizedAsWritten(o) == NormalizedCorrected(o)
  {
  }

  /** On the table [0, 1, 2] the middle entry becomes 1/3 as written, where the intended result is 0. */
  lemma NormalizeAliasingExample()
    ensures NormalizeDefined([0.0, 1.0, 2.0])
    ensures NormalizedAsWritten([0.0, 1.0, 2.0]) == [-1.0, 1.0 / 3.0, 1.0]
    ensures NormalizedCorrected([0.0, 1.0, 2.0]) == [-1.0, 0.0, 1.0]
  {
    var o := [0.0, 1.0, 2.0];
    assert NormalizedAsWritten(o)[1] == ScaleValue(1.0, -1.0, 2.0, -1.0, 1.0);
    assert NormalizedCorrected(o)[1] == ScaleValue(1.0, 0.0, 2.0, -1.0, 1.0);
  }

  // ---------------------------------------------------------------------
  // The nodes of docs/helpers/web-audio-extensions.ts
  // ---------------------------------------------------------------------

  /** A WaveShaperNode, reduced to the curve it was created with. */
  class WaveShaperNode {
    var curve: seq<real>

    constructor(curve: seq<real>)
      ensures this.curve == curve
    {
      this.curve := curve;
    }
  }

  /**
   * new ScalerNode(context, transferFn, normalize): a wave shaper whose curve
   * has sampleRate entries, normalised in place as getWaveShaperCurve does.
   */
  method NewScalerNode(sampleRate: nat, transferFn: (real, int) -> real, normalize: bool)
    returns (node: WaveShaperNode)
    requires sampleRate != 1
    requires normalize ==> NormalizeDefined(Sampled(transferFn, sampleRate))
    ensures fresh(node)
    ensures !normalize ==> node.curve == Sampled(transferFn, sampleRate)
    ensures normalize ==> node.curve == NormalizedAsWritten(Sampled(transferFn, sampleRate))
  {
    var curve := GetWaveShaperCurve(transferFn, sampleRate, normalize);
    node := new WaveShaperNode(curve[..]);
  }

  function AdditionFn(amount: real): (real, int) -> real {
    (value: real, index: int) => value + amount
  }

  function SubtractionFn(amount: real): (real, int) -> real {
    (value: real, index: int) => value - amount
  }

  function MultiplicationFn(amount: real): (real, int) -> real {
    (value: real, index: int) => value * amount
  }

  /** new AdditionNode(context, amount): the table of x + amount on the grid. */
  method NewAdditionNode(sampleRate: nat, amount: real) returns (node: WaveShaperNode)
    requires sampleRate != 1
    ensures fresh(node) && |node.curve| == sampleRate
    ensures forall i :: 0 <= i < sampleRate ==> node.curve[i] == GridPoint(i, sampleRate) + amount
  {
    node := NewScalerNode(sampleRate, AdditionFn(amount), false);
  }

  /** new SubtractionNode(context, amount): the table of x - amount on the grid. */
  method NewSubtractionNode(sampleRate: nat, amount: real) returns (node: WaveShaperNode)
    requires sampleRate != 1
    ensures fresh(node) && |node.curve| == sampleRate
    ensures forall i :: 0 <= i < sampleRate ==> node.curve[i] == GridPoint(i, sampleRate) - amount
  {
    node := NewScalerNode(sampleRate, SubtractionFn(amount), false);
  }

  /** new MultiplicationNode(context, amount): the table of x * amount on the grid. */
  method NewMultiplicationNode(sampleRate: nat, amount: real) returns (node: WaveShaperNode)
    requires sampleRate != 1
    ensures fresh(node) && |node.curve| == sampleRate
    ensures forall i :: 0 <= i < sampleRate ==> node.curve[i] == GridPoint(i, sampleRate) * amount
  {
    node := NewScalerNode(sampleRate, MultiplicationFn(amount), false);
  }

  /** Subtracting an amount is adding its negation, and the two tables coincide. */
  lemma SubtractionIsAdditionOfNegation(n: nat, amount: real)
    requires n != 1
    ensures Sampled(SubtractionFn(amount), n) == Sampled(AdditionFn(-amount), n)
  {
  }

  /** The multiplication table by 1 is the grid itself, from -1 to 1. */
  lemma MultiplicationByOneIsGrid(n: nat)
    requires n >= 2
    ensures Sampled(MultiplicationFn(1.0), n)[0] == -1.0
    ensures Last(Sampled(MultiplicationFn(1.0), n)) == 1.0
    ensures forall i :: 0 <= i < n ==> Sampled(MultiplicationFn(1.0), n)[i] == GridPoint(i, n)
  {
    GridEndpoints(n);
  }
}
