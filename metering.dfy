/**
 * Level metering over an AnalyserNode: the peak and RMS of a sample buffer,
 * in linear units (src/composables/metering.ts) and in decibels
 * (src/composables/useMetering.ts, pkg/src/composables/useMetering.ts), and
 * the analyser state the composables keep.
 *
 * What the analyser writes into a buffer comes from the engine and is a
 * parameter here: the latest time-domain samples, or the latest spectrum.
 * Following section 1.8 of the W3C Web Audio API, an analyser has
 * fftSize / 2 frequency bins, and copying into a buffer writes as many
 * entries as both sides have.
 */
module Metering {
  import opened Numerics
  import opened MathKernel
  import opened AudioGraphs

  function Abs(x: real): real {
    if x < 0.0 then -x else x
  }

  // ---------------------------------------------------------------------
  // Peak and RMS
  // ---------------------------------------------------------------------

  /** The running maximum after one more sample: replaced when |x| exceeds it. */
  function PeakStep(peak: real, x: real): real {
    if Abs(x) > peak then Abs(x) else peak
  }

  /**
   * The peak of s: the largest |s[i]|, or 0 when s is empty or all zero.
   * Written as the loop computes it, sample after sample.
   */
  function Peak(s: seq<real>): (p: real)
    ensures p >= 0.0
    ensures forall i :: 0 <= i < |s| ==> Abs(s[i]) <= p
  {
    if s == [] then 0.0
    else
      var p := Peak(s[..|s| - 1]);
      assert forall i :: 0 <= i < |s| - 1 ==> s[..|s| - 1][i] == s[i];
      PeakStep(p, s[|s| - 1])
  }

  /** A non-zero peak is the absolute value of one of the samples. */
  lemma {:induction false} PeakAttained(s: seq<real>)
    ensures Peak(s) == 0.0 || exists i :: 0 <= i < |s| && Peak(s) == Abs(s[i])
  {
    if s != [] {
      var init := s[..|s| - 1];
      PeakAttained(init);
      if Peak(s) != Abs(s[|s| - 1]) && Peak(s) != 0.0 {
        var i :| 0 <= i < |init| && Peak(init) == Abs(init[i]);
        assert Peak(s) == Abs(s[i]);
      }
    }
  }

  /** The peak is 0 exactly when every sample is 0. */
  lemma PeakZeroIff(s: seq<real>)
    ensures Peak(s) == 0.0 <==> forall i :: 0 <= i < |s| ==> s[i] == 0.0
  {
    PeakAttained(s);
    if forall i :: 0 <= i < |s| ==> s[i] == 0.0 {
      assert forall i :: 0 <= i < |s| ==> Abs(s[i]) == 0.0;
    }
  }

  /** The sum of the squared absolute values of the samples. */
  function SquareSum(s: seq<real>): (r: real)
    ensures r >= 0.0
  {
    if s == [] then 0.0
    else SquareSum(s[..|s| - 1]) + Abs(s[|s| - 1]) * Abs(s[|s| - 1])
  }

  /** The root mean square of a non-empty buffer. */
  function Rms(m: Transcendentals, s: seq<real>): (r: real)
    requires Laws(m) && |s| > 0
    ensures r >= 0.0
  {
    m.sqrt(SquareSum(s) / |s| as real)
  }

  /** getPeak: the loop keeps the maximum of 0 and the absolute values seen so far. */
  method GetPeak(buffer: array<real>) returns (peak: real)
    ensures peak == Peak(buffer[..])
  {
    peak := 0.0;
    var i := 0;
    while i < buffer.Length
      invariant 0 <= i <= buffer.Length
      invariant peak == Peak(buffer[..i])
    {
      assert buffer[..i + 1][..i] == buffer[..i];
      var value := Abs(buffer[i]);
      if value > peak {
        peak := value;
      }
      i := i + 1;
    }
    assert buffer[..] == buffer[..buffer.Length];
  }

  /** The square sum of the loop, kept as the sum over the samples seen so far. */
  method SumOfSquares(buffer: array<real>) returns (squareSum: real)
    ensures squareSum == SquareSum(buffer[..])
  {
    squareSum := 0.0;
    var i := 0;
    while i < buffer.Length
      invariant 0 <= i <= buffer.Length
      invariant squareSum == SquareSum(buffer[..i])
    {
      assert buffer[..i + 1][..i] == buffer[..i];
      var value := Abs(buffer[i]);
      squareSum := squareSum + value * value;
      i := i + 1;
    }
    assert buffer[..] == buffer[..buffer.Length];
  }

  /** getRms: the square root of the mean of the squared samples. */
  method GetRms(m: Transcendentals, buffer: array<real>) returns (rms: real)
    requires Laws(m) && buffer.Length > 0
    ensures rms == Rms(m, buffer[..])
  {
    var squareSum := SumOfSquares(buffer);
    rms := m.sqrt(squareSum / buffer.Length as real);
  }

  /** 20 * log10(level): a linear level in decibels. */
  function Decibels(m: Transcendentals, level: real): real {
    20.0 * m.log10(level)
  }

  /** For a positive level, Math.log10 and the docs helpers' gainToDb give the same decibels. */
  lemma DecibelsIsGainToDb(m: Transcendentals, level: real)
    requires Laws(m) && level > 0.0
    ensures Decibels(m, level) == GainToDb(m, level)
  {
    LnSign(m, 10.0);
    DivOfProduct(m.ln(level), m.ln(10.0), m.log10(level));
  }

  /** getPeakDb: the peak in decibels. */
  method GetPeakDb(m: Transcendentals, buffer: array<real>) returns (db: real)
    ensures db == Decibels(m, Peak(buffer[..]))
  {
    var peak := GetPeak(buffer);
    db := 20.0 * m.log10(peak);
  }

  /** getRmsDb: the RMS in decibels. */
  method GetRmsDb(m: Transcendentals, buffer: array<real>) returns (db: real)
    requires Laws(m) && buffer.Length > 0
    ensures db == Decibels(m, Rms(m, buffer[..]))
  {
    var rms := GetRms(m, buffer);
    db := 20.0 * m.log10(rms);
  }

  /** A buffer holding a single 1.0 among zeros has peak 1, that is 0 dB. */
  lemma UnitImpulsePeak(m: Transcendentals, s: seq<real>, k: int)
    requires Laws(m) && 0 <= k < |s| && s[k] == 1.0
    requires forall i :: 0 <= i < |s| && i != k ==> s[i] == 0.0
    ensures Peak(s) == 1.0
    ensures Decibels(m, Peak(s)) == 0.0
  {
    assert Abs(s[k]) == 1.0;
    assert forall i :: 0 <= i < |s| ==> Abs(s[i]) == 0.0 || Abs(s[i]) == 1.0;
    PeakAttained(s);
    LnOne(m);
    LnSign(m, 10.0);
    assert m.log10(1.0) * m.ln(10.0) == 0.0;
  }

  /** Squares of non-negative numbers keep their order. */
  lemma SquareMonotone(a: real, b: real)
    requires 0.0 <= a <= b
    ensures a * a <= b * b
  {
    if a < b { SquareStrictlyIncreasing(a, b); }
  }

  /** When every sample is at most b in absolute value, the square sum is at most |s| * b^2. */
  lemma {:induction false} SquareSumBound(s: seq<real>, b: real)
    requires b >= 0.0 && forall i :: 0 <= i < |s| ==> Abs(s[i]) <= b
    ensures SquareSum(s) <= |s| as real * (b * b)
  {
    if s != [] {
      var init := s[..|s| - 1];
      assert forall i :: 0 <= i < |init| ==> init[i] == s[i];
      SquareSumBound(init, b);
      SquareMonotone(Abs(s[|s| - 1]), b);
      assert |s| as real * (b * b) == |init| as real * (b * b) + b * b;
    }
  }

  /** For a non-empty buffer the RMS never exceeds the peak. */
  lemma RmsAtMostPeak(m: Transcendentals, s: seq<real>)
    requires Laws(m) && |s| > 0
    ensures Rms(m, s) <= Peak(s)
  {
    SquareSumAtMostPeak(s);
    RootMeanBelow(m, SquareSum(s), |s| as real, Peak(s));
  }

  /** The square sum is at most |s| times the square of the peak. */
  lemma SquareSumAtMostPeak(s: seq<real>)
    ensures SquareSum(s) <= |s| as real * (Peak(s) * Peak(s))
  {
    SquareSumBound(s, Peak(s));
  }

  /** A sum of at most n * p^2 over n samples has a root mean square of at most p. */
  lemma RootMeanBelow(m: Transcendentals, sum: real, n: real, p: real)
    requires Laws(m) && n > 0.0 && p >= 0.0 && 0.0 <= sum <= n * (p * p)
    ensures m.sqrt(sum / n) <= p
  {
    MeanBelowSquare(sum, n, p);
    SqrtBelow(m, sum / n, p);
  }

  /** A number between 0 and p^2 has a square root of at most p. */
  lemma SqrtBelow(m: Transcendentals, x: real, p: real)
    requires Laws(m) && p >= 0.0 && 0.0 <= x <= p * p
    ensures m.sqrt(x) <= p
  {
    SqrtMonotone(m, x, p * p);
    SqrtOfSquare(m, p);
  }

  /** A sum of at most n * p^2 over n samples has a mean of at most p^2. */
  lemma MeanBelowSquare(sum: real, n: real, p: real)
    requires n > 0.0 && 0.0 <= sum <= n * (p * p)
    ensures 0.0 <= sum / n <= p * p
  {
    DivOfProduct(n * (p * p), n, p * p);
    DivMonotone(sum, n * (p * p), n);
  }

  // ---------------------------------------------------------------------
  // Analyser state
  // ---------------------------------------------------------------------

  /** The FFT sizes an AnalyserNode accepts: powers of two from 32 to 32768. */
  predicate ValidFftSize(n: nat) {
    n in {32, 64, 128, 256, 512, 1024, 2048, 4096, 8192, 16384, 32768}
  }

  /** frequencyBinCount: half the FFT size. */
  function FrequencyBinCount(fftSize: nat): nat {
    fftSize / 2
  }

  /** Copying what the analyser provides into a buffer. */
  function Identity(x: real): real {
    x
  }

  /** analyser.getFloat*Data(buffer): buffer takes the provided values where both have an entry. */
  method CopyFromAnalyser(buffer: array<real>, provided: seq<real>)
    modifies buffer
    ensures buffer[..] == MapInto(Identity, provided, old(buffer[..]))
  {
    ghost var original := buffer[..];
    var i := 0;
    while i < buffer.Length && i < |provided|
      invariant 0 <= i <= buffer.Length && i <= |provided|
      invariant forall j :: 0 <= j < buffer.Length ==> buffer[j] == if j < i then provided[j] else original[j]
    {
      buffer[i] := provided[i];
      i := i + 1;
    }
    assert buffer[..] == MapInto(Identity, provided, original);
  }

  /**
   * The deferred metering of pkg/src/composables/useMetering.ts: the
   * analyser and its buffer stay undefined until an input is given.
   */
  class DeferredMetering {
    const ctx: AudioGraph
    const fftSize: nat
    var analyser: AudioNode?
    var dataArray: array?<real>

    /** The analyser and its buffer are set together, the buffer one entry per frequency bin. */
    ghost predicate Valid()
      reads this
    {
      && (analyser == null <==> dataArray == null)
      && (analyser != null ==> analyser.kind == Analyser(fftSize))
      && (dataArray != null ==> dataArray.Length == FrequencyBinCount(fftSize))
    }

    /** useMetering(fftSize, input): sets the analyser up right away when an input is given. */
    constructor(ctx: AudioGraph, fftSize: nat, input: AudioNode?)
      requires input != null ==> ValidFftSize(fftSize)
      modifies ctx
      ensures this.ctx == ctx && this.fftSize == fftSize && Valid()
      ensures input == null ==> analyser == null && ctx.edges == old(ctx.edges)
      ensures input != null ==> analyser != null && fresh(analyser) && fresh(dataArray)
      ensures input != null ==> dataArray != null && forall i :: 0 <= i < dataArray.Length ==> dataArray[i] == 0.0
      ensures input != null ==> ctx.edges == old(ctx.edges) + {(input, analyser)}
      ensures ctx.started == old(ctx.started)
    {
      this.ctx := ctx;
      this.fftSize := fftSize;
      analyser := null;
      dataArray := null;
      new;
      if input != null {
        SetupAnalyzer(input);
      }
    }

    /** setupAnalyzer(node): a fresh analyser and a zeroed buffer, and the connection node -> analyser. */
    method SetupAnalyzer(node: AudioNode)
      requires ValidFftSize(fftSize)
      modifies this, ctx
      ensures Valid()
      ensures analyser != null && fresh(analyser) && fresh(dataArray)
      ensures forall i :: 0 <= i < dataArray.Length ==> dataArray[i] == 0.0
      ensures ctx.edges == old(ctx.edges) + {(node, analyser)}
      ensures ctx.started == old(ctx.started)
    {
      var a := new AudioNode(Analyser(fftSize));
      analyser := a;
      dataArray := new real[FrequencyBinCount(fftSize)](_ => 0.0);
      ctx.Connect(node, a);
    }

    /**
     * disposeMetering(input): removes input -> analyser when both are
     * defined, and leaves the analyser set; ok is false where the engine
     * throws because the two are not connected.
     */
    method DisposeMetering(input: AudioNode?) returns (ok: bool)
      modifies ctx
      ensures analyser != null && input != null ==>
        (ok <==> (input, analyser) in old(ctx.edges)) && ctx.edges == old(ctx.edges) - {(input, analyser)}
      ensures analyser == null || input == null ==> ok && ctx.edges == old(ctx.edges)
      ensures ctx.started == old(ctx.started)
    {
      ok := true;
      if analyser != null && input != null {
        ok := ctx.DisconnectFrom(input, analyser);
      }
    }

    /**
     * onInputChanged(newInput, oldInput): a defined new input gets a new
     * analyser; the old analyser and its connection stay as they were.
     */
    method OnInputChanged(newInput: AudioNode?, oldInput: AudioNode?)
      requires newInput != null ==> ValidFftSize(fftSize)
      modifies this, ctx
      ensures Valid() == old(Valid()) || newInput != null
      ensures newInput == null ==> analyser == old(analyser) && dataArray == old(dataArray)
      ensures newInput == null ==> ctx.edges == old(ctx.edges)
      ensures newInput != null ==> Valid() && analyser != null && fresh(analyser) && fresh(dataArray)
      ensures newInput != null ==> dataArray != null && forall i :: 0 <= i < dataArray.Length ==> dataArray[i] == 0.0
      ensures newInput != null ==> ctx.edges == old(ctx.edges) + {(newInput, analyser)}
      ensures ctx.started == old(ctx.started)
    {
      if newInput != null {
        SetupAnalyzer(newInput);
      }
    }

    /** getFloatTimeDomainData(): fills the buffer when there is an analyser, and returns the buffer itself. */
    method GetFloatTimeDomainData(samples: seq<real>) returns (data: array?<real>)
      requires Valid()
      modifies if dataArray != null then {dataArray} else {}
      ensures data == dataArray
      ensures analyser != null ==> dataArray[..] == MapInto(Identity, samples, old(dataArray[..]))
    {
      if analyser != null {
        CopyFromAnalyser(dataArray, samples);
      }
      data := dataArray;
    }

    /** getFloatFrequencyData(): as above, with the spectrum in decibels. */
    method GetFloatFrequencyData(spectrum: seq<real>) returns (data: array?<real>)
      requires Valid()
      modifies if dataArray != null then {dataArray} else {}
      ensures data == dataArray
      ensures analyser != null ==> dataArray[..] == MapInto(Identity, spectrum, old(dataArray[..]))
    {
      if analyser != null {
        CopyFromAnalyser(dataArray, spectrum);
      }
      data := dataArray;
    }
  }

  /**
   * The metering of src/composables: one analyser, created at once with the
   * FFT size, and one buffer with an entry per frequency bin.
   */
  class AnalyserMetering {
    const analyser: AudioNode
    const dataArray: array<real>

    constructor(fftSize: nat)
      requires ValidFftSize(fftSize)
      ensures analyser.kind == Analyser(fftSize) && fresh(analyser)
      ensures fresh(dataArray) && dataArray.Length == FrequencyBinCount(fftSize)
      ensures forall i :: 0 <= i < dataArray.Length ==> dataArray[i] == 0.0
    {
      analyser := new AudioNode(Analyser(fftSize));
      dataArray := new real[FrequencyBinCount(fftSize)](_ => 0.0);
    }

    /** getFloatTimeDomainData(): fills the buffer and returns the buffer itself. */
    method GetFloatTimeDomainData(samples: seq<real>) returns (data: array<real>)
      modifies dataArray
      ensures data == dataArray
      ensures dataArray[..] == MapInto(Identity, samples, old(dataArray[..]))
    {
      CopyFromAnalyser(dataArray, samples);
      data := dataArray;
    }

    /** getFloatFrequencyData(): fills the buffer with the spectrum and returns the buffer itself. */
    method GetFloatFrequencyData(spectrum: seq<real>) returns (data: array<real>)
      modifies dataArray
      ensures data == dataArray
      ensures dataArray[..] == MapInto(Identity, spectrum, old(dataArray[..]))
    {
      CopyFromAnalyser(dataArray, spectrum);
      data := dataArray;
    }
  }

  /**
   * Two reads in a row hand back the same buffer object, so the second read
   * overwrites what the first returned: once the second samples cover the
   * buffer, both results hold the second samples only.
   */
  method ReadTwice(meter: AnalyserMetering, first: seq<real>, second: seq<real>)
    returns (a: array<real>, b: array<real>)
    modifies meter.dataArray
    ensures a == b && a == meter.dataArray
    ensures a[..] == MapInto(Identity, second, MapInto(Identity, first, old(meter.dataArray[..])))
    ensures |second| >= a.Length ==> a[..] == second[..a.Length]
  {
    a := meter.GetFloatTimeDomainData(first);
    b := meter.GetFloatTimeDomainData(second);
    if |second| >= a.Length {
      forall i | 0 <= i < a.Length
        ensures a[..][i] == second[i]
      {
        assert a[..][i] == MapInto(Identity, second, MapInto(Identity, first, old(meter.dataArray[..])))[i];
      }
    }
  }
}
