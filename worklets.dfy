/**
 * The audio-worklet processors of docs/helpers: each `process` call reads
 * one render quantum from its first input and writes its first output.
 * An input or output is a sequence of channels, each an `array<real>`; the
 * engine hands over distinct buffers, so output channels are distinct from
 * each other and from the input channels.  A parameter is a sequence of
 * values, of which a k-rate parameter only uses the first (section 1.32 of
 * the W3C Web Audio API, AudioWorkletProcessor.process).
 */
module Worklets {
  import opened Numerics
  import opened MathKernel
  import opened AudioGraphs

  datatype AutomationRate = ARate | KRate

  /** An AudioParamDescriptor: a parameter name, its default and its automation rate. */
  datatype ParamDescriptor = ParamDescriptor(name: string, defaultValue: real, automationRate: AutomationRate)

  // ---------------------------------------------------------------------
  // PowCurveWorkletProcessor
  // ---------------------------------------------------------------------

  const PowCurveParameters: seq<ParamDescriptor> := [
    ParamDescriptor("min", 1.0, KRate),
    ParamDescriptor("max", 100.0, KRate),
    ParamDescriptor("base", 2.0, KRate)
  ]

  /** Where x lies between min and max, as a fraction: (x - min) / (max - min). */
  function CurvePosition(x: real, min: real, max: real): real
    requires max != min
  {
    (x - min) / (max - min)
  }

  /** The exponent the fraction t selects between logMin and logMax: t * (logMax - logMin) + logMin. */
  function CurveExponent(t: real, logMin: real, logMax: real): real {
    t * (logMax - logMin) + logMin
  }

  /** The base must give a finite, non-zero logarithm and the range must not be empty. */
  predicate PowCurveDefined(n: real, min: real, max: real) {
    n > 0.0 && n != 1.0 && max != min
  }

  /** One output sample: n raised to the exponent at x's position between log_n(min) and log_n(max). */
  function PowCurveSample(m: Transcendentals, n: real, min: real, max: real, x: real): real
    requires Laws(m) && PowCurveDefined(n, min, max)
  {
    PowBaseN(m, n, CurveExponent(CurvePosition(x, min, max), LogBaseN(m, n, min), LogBaseN(m, n, max)))
  }

  lemma CurvePositionAtBounds(min: real, max: real)
    requires max != min
    ensures CurvePosition(min, min, max) == 0.0 && CurvePosition(max, min, max) == 1.0
  {
    DivSelf(max - min);
  }

  /** For positive bounds, the curve sends min to min and max to max. */
  lemma PowCurveEndpoints(m: Transcendentals, n: real, min: real, max: real)
    requires Laws(m) && PowCurveDefined(n, min, max) && min > 0.0 && max > 0.0
    ensures PowCurveSample(m, n, min, max, min) == min
    ensures PowCurveSample(m, n, min, max, max) == max
  {
    CurvePositionAtBounds(min, max);
    assert CurveExponent(0.0, LogBaseN(m, n, min), LogBaseN(m, n, max)) == LogBaseN(m, n, min);
    assert CurveExponent(1.0, LogBaseN(m, n, min), LogBaseN(m, n, max)) == LogBaseN(m, n, max);
    PowBaseNOfLogBaseN(m, n, min);
    PowBaseNOfLogBaseN(m, n, max);
  }

  /** For a base above 1, log_n is strictly increasing on the positive reals. */
  lemma LogBaseNStrictlyIncreasing(m: Transcendentals, n: real, x: real, y: real)
    requires Laws(m) && n > 1.0 && 0.0 < x < y
    ensures LogBaseN(m, n, x) < LogBaseN(m, n, y)
  {
    LnSign(m, n);
    LnStrictlyIncreasing(m, x, y);
    DivStrictlyIncreasing(m.ln(x), m.ln(y), m.ln(n));
  }

  /** The exponent grows with the fraction when logMin < logMax. */
  lemma CurveExponentStrictlyIncreasing(s: real, t: real, logMin: real, logMax: real)
    requires s < t && logMin < logMax
    ensures CurveExponent(s, logMin, logMax) < CurveExponent(t, logMin, logMax)
  {
    MulStrictlyIncreasing(s, t, logMax - logMin);
  }

  /** For a base above 1 and 0 < min < max, the curve is strictly increasing in the input sample. */
  lemma PowCurveStrictlyIncreasing(m: Transcendentals, n: real, min: real, max: real, x: real, y: real)
    requires Laws(m) && n > 1.0 && 0.0 < min < max && x < y
    ensures PowCurveSample(m, n, min, max, x) < PowCurveSample(m, n, min, max, y)
  {
    DivStrictlyIncreasing(x - min, y - min, max - min);
    LogBaseNStrictlyIncreasing(m, n, min, max);
    var a, b := LogBaseN(m, n, min), LogBaseN(m, n, max);
    CurveExponentStrictlyIncreasing(CurvePosition(x, min, max), CurvePosition(y, min, max), a, b);
    PowStrictlyIncreasing(m, n, CurveExponent(CurvePosition(x, min, max), a, b),
                          CurveExponent(CurvePosition(y, min, max), a, b));
  }

  /**
   * The processor does not clamp: for a base above 1 and 0 < min < max, an
   * input above max yields more than max, and an input below min less than min.
   */
  lemma PowCurveDoesNotClamp(m: Transcendentals, n: real, min: real, max: real, x: real)
    requires Laws(m) && n > 1.0 && 0.0 < min < max
    ensures x > max ==> PowCurveSample(m, n, min, max, x) > max
    ensures x < min ==> PowCurveSample(m, n, min, max, x) < min
  {
    PowCurveEndpoints(m, n, min, max);
    if x > max { PowCurveStrictlyIncreasing(m, n, min, max, max, x); }
    if x < min { PowCurveStrictlyIncreasing(m, n, min, max, x, min); }
  }

  /** With the default parameters (min 1, max 100, base 2) an input of 1 gives 1 and an input of 100 gives 100. */
  lemma PowCurveDefaults(m: Transcendentals)
    requires Laws(m)
    ensures PowCurveDefined(PowCurveParameters[2].defaultValue, PowCurveParameters[0].defaultValue,
                            PowCurveParameters[1].defaultValue)
    ensures PowCurveSample(m, 2.0, 1.0, 100.0, 1.0) == 1.0
    ensures PowCurveSample(m, 2.0, 1.0, 100.0, 100.0) == 100.0
  {
    PowCurveEndpoints(m, 2.0, 1.0, 100.0);
  }

  /** The parameter record holds values under name; a k-rate parameter uses the first. */
  predicate HasParameter(parameters: map<string, seq<real>>, name: string) {
    name in parameters && |parameters[name]| > 0
  }

  /** parameters[name][0]. */
  function Param(parameters: map<string, seq<real>>, name: string): real
    requires HasParameter(parameters, name)
  {
    parameters[name][0]
  }

  /** Output channels are distinct from each other and from every input channel. */
  predicate SeparateBuffers(input: seq<array<real>>, output: seq<array<real>>) {
    && (forall c, d :: 0 <= c < d < |output| ==> output[c] != output[d])
    && (forall c, d :: 0 <= c < |output| && 0 <= d < |input| ==> output[c] != input[d])
  }

  /**
   * PowCurveWorkletProcessor.process: every sample of every output channel is
   * the curve applied to the input sample at the same place.  The input must
   * have a channel, at least as long, for every output channel.
   */
  method PowCurveProcess(m: Transcendentals, input: seq<array<real>>, output: seq<array<real>>,
                         parameters: map<string, seq<real>>)
    returns (keepAlive: bool)
    requires Laws(m)
    requires HasParameter(parameters, "min") && HasParameter(parameters, "max") && HasParameter(parameters, "base")
    requires PowCurveDefined(Param(parameters, "base"), Param(parameters, "min"), Param(parameters, "max"))
    requires |output| <= |input| && forall c :: 0 <= c < |output| ==> output[c].Length <= input[c].Length
    requires SeparateBuffers(input, output)
    modifies set c | 0 <= c < |output| :: output[c]
    ensures keepAlive
    ensures forall c, i :: 0 <= c < |output| && 0 <= i < output[c].Length ==>
      output[c][i] == PowCurveSample(m, Param(parameters, "base"), Param(parameters, "min"), Param(parameters, "max"),
                                     input[c][i])
  {
    var min := parameters["min"][0];
    var max := parameters["max"][0];
    var n := parameters["base"][0];
    var range := max - min;
    var logMin := LogBaseN(m, n, min);
    var logMax := LogBaseN(m, n, max);
    var logRange := logMax - logMin;
    var channel := 0;
    while channel < |output|
      invariant 0 <= channel <= |output|
      invariant forall c, i :: 0 <= c < channel && 0 <= i < output[c].Length ==>
        output[c][i] == PowCurveSample(m, n, min, max, input[c][i])
    {
      var i := 0;
      while i < output[channel].Length
        invariant 0 <= i <= output[channel].Length
        invariant forall j :: 0 <= j < i ==> output[channel][j] == PowCurveSample(m, n, min, max, input[channel][j])
        invariant forall c, j :: 0 <= c < channel && 0 <= j < output[c].Length ==>
          output[c][j] == PowCurveSample(m, n, min, max, input[c][j])
      {
        var t := (input[channel][i] - min) / range;
        assert t * logRange + logMin == CurveExponent(CurvePosition(input[channel][i], min, max), logMin, logMax);
        output[channel][i] := PowBaseN(m, n, t * logRange + logMin);
        i := i + 1;
      }
      channel := channel + 1;
    }
    keepAlive := true;
  }

  // ---------------------------------------------------------------------
  // DbToGainWorkletProcessor
  // ---------------------------------------------------------------------

  const DbToGainParameters: seq<ParamDescriptor> := [ParamDescriptor("minThreshold", -80.0, KRate)]

  /** One output sample: silence below the threshold, the converted gain at and above it. */
  function ThresholdGain(dbToGain: real -> real, minThreshold: real, x: real): real {
    if x < minThreshold then 0.0 else dbToGain(x)
  }

  function ThresholdCurve(dbToGain: real -> real, minThreshold: real): real -> real {
    x => ThresholdGain(dbToGain, minThreshold, x)
  }

  /** The first channel of an input or output, when it has one. */
  predicate HasFirstChannel(channels: seq<array<real>>) {
    |channels| > 0
  }

  /**
   * DbToGainWorkletProcessor.process: with channel 0 present on both sides,
   * each input sample below minThreshold becomes 0 and every other one is
   * converted by dbToGain; no other channel is written.  dbToGain is not
   * defined in the worklet's own scope, so it is a parameter here.
   */
  method DbToGainProcess(dbToGain: real -> real, input: seq<array<real>>, output: seq<array<real>>,
                         parameters: map<string, seq<real>>)
    returns (keepAlive: bool)
    requires HasParameter(parameters, "minThreshold")
    requires HasFirstChannel(input) && HasFirstChannel(output) ==> output[0] != input[0]
    modifies if HasFirstChannel(output) then {output[0]} else {}
    ensures keepAlive
    ensures HasFirstChannel(input) && HasFirstChannel(output) ==>
      output[0][..] == MapInto(ThresholdCurve(dbToGain, Param(parameters, "minThreshold")), input[0][..],
                               old(output[0][..]))
    ensures !HasFirstChannel(input) && HasFirstChannel(output) ==> output[0][..] == old(output[0][..])
  {
    var minThreshold := parameters["minThreshold"][0];
    if !HasFirstChannel(input) || !HasFirstChannel(output) {
      return true;
    }
    var inputChannel, outputChannel := input[0], output[0];
    ghost var f := ThresholdCurve(dbToGain, minThreshold);
    ghost var original := outputChannel[..];
    var i := 0;
    while i < inputChannel.Length
      invariant 0 <= i <= inputChannel.Length
      invariant forall j :: 0 <= j < outputChannel.Length ==>
        outputChannel[j] == if j < i then f(inputChannel[j]) else original[j]
    {
      if i < outputChannel.Length {
        outputChannel[i] := if inputChannel[i] < minThreshold then 0.0 else dbToGain(inputChannel[i]);
      }
      i := i + 1;
    }
    assert outputChannel[..] == MapInto(f, inputChannel[..], original);
    keepAlive := true;
  }

  /**
   * With the conversion 10^(db/20) of the docs helpers, every sample in
   * [minThreshold, 0] becomes a gain in (0, 1] and every sample below the
   * threshold becomes 0.
   */
  lemma ThresholdGainRange(m: Transcendentals, dbToGain: real -> real, minThreshold: real, x: real)
    requires Laws(m) && forall d :: dbToGain(d) == DbToGain(m, d)
    ensures x < minThreshold ==> ThresholdGain(dbToGain, minThreshold, x) == 0.0
    ensures minThreshold <= x <= 0.0 ==> 0.0 < ThresholdGain(dbToGain, minThreshold, x) <= 1.0
  {
    if minThreshold <= x <= 0.0 {
      DivMonotone(x, 0.0, 20.0);
      PowMonotone(m, 10.0, x / 20.0, 0.0);
      DbToGainOfZero(m);
    }
  }

  // ---------------------------------------------------------------------
  // LoggerWorkletProcessor
  // ---------------------------------------------------------------------

  /**
   * LoggerWorkletProcessor.process: with channel 0 present on both sides,
   * input channel 0 is copied into output channel 0 and nothing else is
   * written.  The console output is not modelled.
   */
  method LoggerProcess(input: seq<array<real>>, output: seq<array<real>>) returns (keepAlive: bool)
    requires HasFirstChannel(input) && HasFirstChannel(output) ==> output[0] != input[0]
    modifies if HasFirstChannel(output) then {output[0]} else {}
    ensures keepAlive
    ensures HasFirstChannel(input) && HasFirstChannel(output) ==>
      output[0][..] == MapInto(x => x, input[0][..], old(output[0][..]))
    ensures !HasFirstChannel(input) && HasFirstChannel(output) ==> output[0][..] == old(output[0][..])
  {
    if !HasFirstChannel(input) || !HasFirstChannel(output) {
      return true;
    }
    var inputChannel, outputChannel := input[0], output[0];
    ghost var original := outputChannel[..];
    var i := 0;
    while i < inputChannel.Length
      invariant 0 <= i <= inputChannel.Length
      invariant forall j :: 0 <= j < outputChannel.Length ==>
        outputChannel[j] == if j < i then inputChannel[j] else original[j]
    {
      if i < outputChannel.Length {
        outputChannel[i] := inputChannel[i];
      }
      i := i + 1;
    }
    assert outputChannel[..] == MapInto(x => x, inputChannel[..], original);
    keepAlive := true;
  }

  /** Copying a channel into one of the same length reproduces it; into a longer one, keeps the tail. */
  lemma CopyIntoIsIdentity(src: seq<real>, dst: seq<real>)
    ensures |src| == |dst| ==> MapInto(x => x, src, dst) == src
    ensures |src| < |dst| ==> MapInto(x => x, src, dst) == src + dst[|src|..]
  {
  }
}
