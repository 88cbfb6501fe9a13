/**
 * pkg/src/util/web-audio-extensions.ts: a ScalerNode wraps one wave shaper
 * whose curve samples a scaling function on the grid over [-1, 1], and is
 * both the input and the output of the segment; an ExpScalerNode samples a
 * power law that `expFunc` extends to negative inputs.
 */
module ScalerNodes {
  import opened Numerics
  import opened WaveShaperCurves

  /** expFunc(exponent)(val) as written: pow(val, e) at and above 0, -pow(val, e) below. */
  function ExpFunc(m: Transcendentals, exponent: real, val: real): real {
    if val >= 0.0 then m.pow(val, exponent) else -m.pow(val, exponent)
  }

  /**
   * The sign-preserving extension the negative branch evidently intends:
   * -pow(-val, e), the mirror image of the positive half.
   */
  function ExpFuncCorrected(m: Transcendentals, exponent: real, val: real): real {
    if val >= 0.0 then m.pow(val, exponent) else -m.pow(-val, exponent)
  }

  /** Both versions send 0 to 0 for a positive exponent and 1 to 1. */
  lemma ExpFuncFixesZeroAndOne(m: Transcendentals, exponent: real)
    requires Laws(m) && SignedPowers(m) && exponent > 0.0
    ensures ExpFunc(m, exponent, 0.0) == 0.0 && ExpFunc(m, exponent, 1.0) == 1.0
    ensures ExpFuncCorrected(m, exponent, 0.0) == 0.0 && ExpFuncCorrected(m, exponent, 1.0) == 1.0
  {
    LnOne(m);
    assert m.ln(m.pow(1.0, exponent)) == 0.0;
    assert m.exp(m.ln(m.pow(1.0, exponent))) == m.pow(1.0, exponent);
  }

  /** As written, an even natural exponent gives an odd-symmetric curve. */
  lemma ExpFuncEvenIsOdd(m: Transcendentals, n: nat, v: real)
    requires SignedPowers(m) && n % 2 == 0 && n > 0
    ensures ExpFunc(m, n as real, -v) == -ExpFunc(m, n as real, v)
  {
    PowOfNat(m, v, n);
    PowOfNat(m, -v, n);
    PowOfNat(m, 0.0, n);
    IntPowOfNegated(v, n);
    assert n as real > 0.0;
  }

  /** As written, an odd natural exponent gives a curve that is never negative. */
  lemma ExpFuncOddIsNonNegative(m: Transcendentals, n: nat, v: real)
    requires SignedPowers(m) && n % 2 == 1
    ensures ExpFunc(m, n as real, v) >= 0.0
  {
    PowOfNat(m, v, n);
    if v >= 0.0 {
      IntPowSign(v, n);
    } else {
      IntPowOfNegated(-v, n);
      IntPowSign(-v, n);
    }
  }

  /** The corrected version is odd-symmetric for every positive exponent. */
  lemma ExpFuncCorrectedIsOdd(m: Transcendentals, exponent: real, v: real)
    requires SignedPowers(m) && exponent > 0.0
    ensures ExpFuncCorrected(m, exponent, -v) == -ExpFuncCorrected(m, exponent, v)
  {
  }

  /** The corrected version keeps the sign of its input. */
  lemma ExpFuncCorrectedKeepsSign(m: Transcendentals, exponent: real, v: real)
    requires Laws(m)
    ensures v > 0.0 ==> ExpFuncCorrected(m, exponent, v) > 0.0
    ensures v < 0.0 ==> ExpFuncCorrected(m, exponent, v) < 0.0
  {
  }

  /** The two versions agree exactly for even natural exponents. */
  lemma ExpFuncAgreesForEven(m: Transcendentals, n: nat, v: real)
    requires SignedPowers(m) && n % 2 == 0
    ensures ExpFunc(m, n as real, v) == ExpFuncCorrected(m, n as real, v)
  {
    PowOfNat(m, v, n);
    PowOfNat(m, -v, n);
    IntPowOfNegated(v, n);
  }

  /** With exponent 3, -1 is sent to 1 as written, where the sign-preserving value is -1. */
  lemma ExpFuncOddExample(m: Transcendentals)
    requires SignedPowers(m)
    ensures ExpFunc(m, 3.0, -1.0) == 1.0
    ensures ExpFuncCorrected(m, 3.0, -1.0) == -1.0
  {
    PowOfNat(m, -1.0, 3);
    PowOfNat(m, 1.0, 3);
  }

  /** expFunc(exponent) as the scaling function a ScalerNode samples. */
  function ExpScaling(m: Transcendentals, exponent: real): (real, int) -> real {
    (value: real, index: int) => ExpFunc(m, exponent, value)
  }

  /** The corrected expFunc(exponent) as a scaling function. */
  function ExpScalingCorrected(m: Transcendentals, exponent: real): (real, int) -> real {
    (value: real, index: int) => ExpFuncCorrected(m, exponent, value)
  }

  /** The table length ScalerNode's constructor asks getWaveShaperCurve for. */
  const CurveLength: nat := 1024

  /** ScalerNode: one wave shaper that is the segment's input and output. */
  class ScalerNode {
    var input: WaveShaperNode
    var output: WaveShaperNode
    var waveShaper: WaveShaperNode

    constructor(scaleFn: (real, int) -> real)
      ensures fresh(waveShaper)
      ensures input == waveShaper && output == waveShaper
      ensures waveShaper.curve == Sampled(scaleFn, CurveLength)
    {
      var curve := SampleCurve(scaleFn, CurveLength);
      var shaper := new WaveShaperNode(curve[..]);
      waveShaper := shaper;
      input := shaper;
      output := shaper;
    }
  }

  /** new ExpScalerNode(context, exponent): a ScalerNode over expFunc(exponent). */
  method NewExpScalerNode(m: Transcendentals, exponent: real) returns (node: ScalerNode)
    ensures fresh(node) && fresh(node.waveShaper)
    ensures node.input == node.waveShaper && node.output == node.waveShaper
    ensures node.waveShaper.curve == Sampled(ExpScaling(m, exponent), CurveLength)
  {
    node := new ScalerNode(ExpScaling(m, exponent));
  }

  /**
   * As written, the exponential table ends at 1 for a positive exponent. With
   * a natural exponent it starts at -1 when the exponent is even and at 1
   * when it is odd.
   */
  lemma ExpTableEnds(m: Transcendentals, exponent: real)
    requires Laws(m) && SignedPowers(m) && exponent > 0.0
    ensures Sampled(ExpScaling(m, exponent), CurveLength)[CurveLength - 1] == 1.0
    ensures Sampled(ExpScaling(m, exponent), CurveLength)[0] == -m.pow(-1.0, exponent)
  {
    GridEndpoints(CurveLength);
    ExpFuncFixesZeroAndOne(m, exponent);
  }

  /** As written, entry 0 of the exponential table: -1 for an even natural exponent, 1 for an odd one. */
  lemma {:induction false} ExpTableFirstEntry(m: Transcendentals, n: nat)
    requires Laws(m) && SignedPowers(m) && n > 0
    ensures Sampled(ExpScaling(m, n as real), CurveLength)[0] == if n % 2 == 0 then -1.0 else 1.0
  {
    GridEndpoints(CurveLength);
    PowOfNat(m, -1.0, n);
    IntPowOfNegated(1.0, n);
    IntPowOfOne(n);
  }

  /** The corrected exponential table runs from -1 at entry 0 to 1 at its last entry, for every positive exponent. */
  lemma ExpTableCorrectedEnds(m: Transcendentals, exponent: real)
    requires Laws(m) && SignedPowers(m) && exponent > 0.0
    ensures Sampled(ExpScalingCorrected(m, exponent), CurveLength)[0] == -1.0
    ensures Sampled(ExpScalingCorrected(m, exponent), CurveLength)[CurveLength - 1] == 1.0
  {
    GridEndpoints(CurveLength);
    ExpFuncFixesZeroAndOne(m, exponent);
  }
}
