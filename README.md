# vue-audio-ui signal engine in Dafny

A model of the numeric and signal engine behind the vue-audio-ui knob, slider
and meter components, with proofs about it. Numbers are Dafny `real`s. The
JavaScript `Math` functions (exp, ln, log10, sqrt, pow) and `Number.MIN_VALUE`
are fields of `Numerics.Transcendentals`. The ghost predicate `Numerics.Laws`
collects the facts the proofs use, and every member that needs one of those
facts requires `Laws(m)`. A thrown string becomes an `Err` value.

Modules:

- `Numerics`: the transcendental functions, their laws, and arithmetic lemmas.
- `MathKernel`: clamping, the quadratic solver, the 32-bit power-of-two test, the affine rescale, decibel conversion, and `logBaseN`/`powBaseN`.
- `CurvedRanges`: the current curve engine, with one datatype case per range class:
  - Linear, Log, InverseLog, QuadBezier and Pow2;
  - the range check, and both accessors of every variant;
  - endpoint, range, monotonicity and round-trip laws.
- `LegacyCurvedRanges`: the older engine. It has the throwing base class and the linear range.
- `WaveShaperCurves`: wave-shaper tables sampled on the grid over [-1, 1]. Also:
  - the in-place normalisation, both as written and corrected;
  - the ScalerNode, AdditionNode, SubtractionNode and MultiplicationNode tables.
- `ScalerNodes`: `expFunc`, the ScalerNode of the package (one wave shaper as input and output), and ExpScalerNode.
- `AudioGraphs`: the audio context as a class. It has:
  - a set of connections and a set of started sources;
  - node kinds (constant source, gain, analyser, external);
  - a signal semantics in which a node input sums its connections.
- `SignalSegments`: the SignalScaler and SignalToRatio classes. Each builds, wires, starts and disposes its nodes in a context. Lemmas evaluate the signal the wiring computes.
- `Worklets`: the `process` methods of the PowCurve, DbToGain and Logger audio-worklet processors, as loops over channel arrays.
- `Metering`: peak and RMS loops in linear units and in decibels. Also two analyser states:
  - the deferred one of the package composable;
  - the fixed-at-construction one of the older composables.

Copies modelled once:

- The scaleValue of docs/helpers/web-audio-extensions.ts:4-13 is the same expression as `MathKernel.ScaleValue`.
- The logBaseN/powBaseN of the PowCurve worklet (lines 1-7) are the same expressions as `MathKernel.LogBaseN` and `MathKernel.PowBaseN`.
- getPeakDb/getRmsDb of src/composables/useMetering.ts:23-47 are the same loops as in pkg/src/composables/useMetering.ts:48-72, so `Metering.GetPeakDb` and `Metering.GetRmsDb` model both.
- The sampling loop of pkg/src/util/web-audio-extensions.ts:25-32 is the same as the first loop of docs/helpers/web-audio-extensions.ts:19-24, so `WaveShaperCurves.SampleCurve` models both.

The code and its comments disagree in one place:

- The doc comment of the PowCurve worklet (docs/helpers/AudioWorklets/PowCurveWorkletProcessor.js:13) says it clamps values outside [min, max].
- The loop does not clamp. The model follows the loop, and `Worklets.PowCurveDoesNotClamp` proves that it does not clamp.

## Model

| member | source | states |
|---|---|---|
| CurvedRanges.ValidateInput | pkg/src/util/curved-range.ts:26-32 | the check passes exactly on [min, max]; below min it fails with the less-than-min error, above max with the greater-than-max error |
| CurvedRanges.Exp | pkg/src/util/curved-range.ts:57-59 | Math.pow(Math.E, x) is the exponential and is positive |
| CurvedRanges.LogCurveScale | pkg/src/util/curved-range.ts:71 | the denominator exp(-curveAmt) - 1 lies in (-1, 0) for a positive curve amount and above 0 for a negative one |
| CurvedRanges.LogCurveEndpoints | pkg/src/util/curved-range.ts:61-75 | with a non-zero curve amount getLogCurve takes minInput to minOutput and maxInput to maxOutput |
| CurvedRanges.LogCurveInRange | pkg/src/util/curved-range.ts:61-75 | getLogCurve maps [minInput, maxInput] into [minOutput, maxOutput] |
| CurvedRanges.InverseArgumentBetween | pkg/src/util/curved-range.ts:86-87 | on the output range the argument of Math.log lies between 1 and exp(-curveAmt), so it is positive |
| CurvedRanges.InverseLogCurveEndpoints | pkg/src/util/curved-range.ts:77-94 | getInverseLogCurve takes maxOutput to maxInput and minOutput to minInput |
| CurvedRanges.InverseLogCurveInRange | pkg/src/util/curved-range.ts:77-94 | getInverseLogCurve maps [minOutput, maxOutput] into [minInput, maxInput] |
| CurvedRanges.LogCurveThenInverse | pkg/src/util/curved-range.ts:61-94 | getInverseLogCurve undoes getLogCurve for every input |
| CurvedRanges.InverseThenLogCurve | pkg/src/util/curved-range.ts:61-94 | getLogCurve undoes getInverseLogCurve on the output range |
| CurvedRanges.BezierPoints | pkg/src/util/curved-range.ts:209-216 | the constructor sets three control points |
| CurvedRanges.BezierCoefficients | pkg/src/util/curved-range.ts:223-241 | with those points the t^2 coefficient is the range, the t coefficient is 0, and the constant term of y(t) - yt is -yt |
| CurvedRanges.QuadBezierCurvedIsSquare | pkg/src/util/curved-range.ts:218-230 | getCurvedValue is min + range * t^2 for t the position of the value in [min, max] |
| CurvedRanges.QuadBezierCurvedEndpoints | pkg/src/util/curved-range.ts:218-230 | the Bezier curve fixes min and max |
| CurvedRanges.QuadBezierCurvedInRange | pkg/src/util/curved-range.ts:218-230 | the Bezier curve maps [min, max] into itself |
| CurvedRanges.QuadBezierCurvedStrictlyIncreasing | pkg/src/util/curved-range.ts:218-230 | the Bezier curve is strictly increasing on [min, max] |
| CurvedRanges.BezierSolutionReal | pkg/src/util/curved-range.ts:238-253 | for a value at or above min both solutions are real, so the not-real throw is never reached, and the kept root t is non-negative with range * t^2 = value - min |
| CurvedRanges.QuadBezierLinearRoot | pkg/src/util/curved-range.ts:232-257 | getLinearValue succeeds with min + t * range, t the non-negative root |
| CurvedRanges.QuadBezierLinearInRange | pkg/src/util/curved-range.ts:232-257 | the Bezier inverse maps [min, max] into itself |
| CurvedRanges.QuadBezierCurvedThenLinear | pkg/src/util/curved-range.ts:218-257 | getLinearValue undoes getCurvedValue on [min, max] |
| CurvedRanges.QuadBezierLinearThenCurved | pkg/src/util/curved-range.ts:218-257 | getCurvedValue undoes getLinearValue at and above min |
| CurvedRanges.Log2OfExp2 | pkg/src/util/curved-range.ts:274-280 | log2 undoes exp2 |
| CurvedRanges.Exp2OfLog2 | pkg/src/util/curved-range.ts:274-280 | exp2 undoes log2 on positive numbers |
| CurvedRanges.Pow2Floor | pkg/src/util/curved-range.ts:269 | Math.max(min, Number.MIN_VALUE) is positive, is min from Number.MIN_VALUE up, and is Number.MIN_VALUE below it |
| CurvedRanges.Pow2PositionOfExponent | pkg/src/util/curved-range.ts:284-291 | the position getLinearValue computes undoes the exponent getCurvedValue computes |
| CurvedRanges.Pow2ExponentOfPosition | pkg/src/util/curved-range.ts:284-291 | the exponent getCurvedValue computes undoes the position getLinearValue computes |
| CurvedRanges.Pow2CurvedEndpoints | pkg/src/util/curved-range.ts:282-287 | at min the curve gives the floored min; at max it gives exp2(logMax) |
| CurvedRanges.Pow2CurvedAsWrittenAtMax | pkg/src/util/curved-range.ts:266-287 | with logMax = log2(max - min) as written, min goes to the floored min and max goes to max - min |
| CurvedRanges.Pow2CurvedAsWrittenExample | pkg/src/util/curved-range.ts:270 | as written, on [1, 100] the value 100 is sent to 99 |
| CurvedRanges.Pow2CurvedCorrectedEndpoints | pkg/src/util/curved-range.ts:282-287 | with logMax = log2(max) the curve sends min to Math.max(min, Number.MIN_VALUE), which is min from Number.MIN_VALUE up, and max to max |
| CurvedRanges.Pow2CorrectedLogsOrdered | pkg/src/util/curved-range.ts:269-271 | when max lies above Number.MIN_VALUE, logMin lies below log2(max), so the corrected logRange is not zero; logMin is log2(min) from Number.MIN_VALUE up |
| CurvedRanges.Pow2CurvedCorrectedStrictlyIncreasing | pkg/src/util/curved-range.ts:282-287 | with logMax = log2(max) and max above Number.MIN_VALUE, the curve is strictly increasing on [min, max] |
| CurvedRanges.Pow2CurvedCorrectedInRange | pkg/src/util/curved-range.ts:282-287 | with logMax = log2(max) and max above Number.MIN_VALUE, the curve maps [min, max] into [Math.max(min, Number.MIN_VALUE), max] |
| CurvedRanges.Pow2LinearCorrectedInRange | pkg/src/util/curved-range.ts:289-294 | with logMax = log2(max), getLinearValue maps [Math.max(min, Number.MIN_VALUE), max] into [min, max] |
| CurvedRanges.Pow2CurvedThenLinear | pkg/src/util/curved-range.ts:282-294 | getLinearValue undoes getCurvedValue for any logMax other than logMin |
| CurvedRanges.Pow2LinearThenCurved | pkg/src/util/curved-range.ts:282-294 | getCurvedValue undoes getLinearValue on positive values |
| CurvedRanges.GetCurvedValue | pkg/src/util/curved-range.ts:96-287 | every variant, Pow2 with logMax = log2(max - min) as at line 270, succeeds exactly on [min, max] and otherwise fails with the error of validateInput |
| CurvedRanges.GetLinearValue | pkg/src/util/curved-range.ts:96-294 | every variant, Pow2 with logMax = log2(max - min) as at line 270, succeeds exactly on [min, max] and otherwise fails with the error of validateInput |
| CurvedRanges.Pow2AccessorEndpoints | pkg/src/util/curved-range.ts:266-287 | as written, Pow2CurvedRange.getCurvedValue sends min to Math.max(min, Number.MIN_VALUE) and max to max - min |
| CurvedRanges.Pow2RoundTripAsWrittenFails | pkg/src/util/curved-range.ts:266-294 | as written, Pow2CurvedRange(60, 100) sends 100 to 40, and getLinearValue(40) then fails with the less-than-min error |
| CurvedRanges.Pow2LinearAsWrittenExample | pkg/src/util/curved-range.ts:266-294 | as written, Pow2CurvedRange(1, 100).getLinearValue(100) lies above 100, so getCurvedValue of it fails |
| CurvedRanges.GetCurvedValueCorrected | pkg/src/util/curved-range.ts:96-287 | the accessor with Pow2 at logMax = log2(max) succeeds exactly on [min, max], fails with the error of validateInput, and agrees with getCurvedValue on every other variant |
| CurvedRanges.GetLinearValueCorrected | pkg/src/util/curved-range.ts:96-294 | the accessor with Pow2 at logMax = log2(max) succeeds exactly on [min, max], fails with the error of validateInput, and agrees with getLinearValue on every other variant |
| CurvedRanges.LinearIsIdentity | pkg/src/util/curved-range.ts:171-179 | both linear accessors return the value itself on [min, max] and fail outside it |
| CurvedRanges.CurvedThenLinear | pkg/src/util/curved-range.ts:96-294 | as written, getCurvedValue succeeds on [min, max] and maps it into itself for every variant except Pow2; getLinearValue takes back every curved value that lies in [min, max], Pow2 included |
| CurvedRanges.LinearThenCurved | pkg/src/util/curved-range.ts:96-294 | as written, getLinearValue succeeds on [min, max] and maps it into itself for every variant except Pow2; getCurvedValue takes back every linear value that lies in [min, max], for Pow2 when the input is positive |
| CurvedRanges.CurvedThenLinearCorrected | pkg/src/util/curved-range.ts:96-294 | with the corrected Pow2, for every variant with increasing bounds (Pow2: max above Number.MIN_VALUE), getCurvedValue maps [min, max] into itself and getLinearValue takes the result back |
| CurvedRanges.LinearThenCurvedCorrected | pkg/src/util/curved-range.ts:96-294 | with the corrected Pow2, getLinearValue maps [min, max] (Pow2: from Math.max(min, Number.MIN_VALUE) up) into itself and getCurvedValue takes the result back |
| CurvedRanges.Pow2AccessorAsWritten | pkg/src/util/curved-range.ts:266-287 | Pow2CurvedRange(1, 100).getCurvedValue(100) is 99 as written and 100 with the corrected logMax |
| LegacyCurvedRanges.GetCurvedValue | src/util/curved-range.ts:10-36 | the base class always throws its getCurvedValue error; the linear range returns the value on [min, max] and fails with the range error outside it |
| LegacyCurvedRanges.GetLinearValue | src/util/curved-range.ts:14-41 | the base class always throws its getLinearValue error, a different one; the linear range returns the value on [min, max] and fails with the range error outside it |
| LegacyCurvedRanges.LegacyLinearAgreesWithCurrent | src/util/curved-range.ts:27-41 | the older linear range gives the same results as the current one, in both directions |
| LegacyCurvedRanges.LegacyLinearRoundTrip | src/util/curved-range.ts:33-41 | the two older linear accessors are inverse to each other on [min, max] |
| MathKernel.FitToBounds | pkg/src/util/math-helpers.ts:6-14 | below min the result is min, at or above min and above max it is max, inside it is the value, and for min <= max the result lies in [min, max] |
| MathKernel.FitToBoundsIdempotent | pkg/src/util/math-helpers.ts:6-14 | clamping twice is clamping once |
| MathKernel.SolveQuadratic | pkg/src/util/math-helpers.ts:26-49 | the second imaginary part is the negation of the first, and it is zero for a non-negative discriminant |
| MathKernel.SolveQuadraticDistinctRoots | pkg/src/util/math-helpers.ts:29-34 | a positive discriminant gives two different real roots of the polynomial |
| MathKernel.SolveQuadraticOrder | pkg/src/util/math-helpers.ts:31-33 | with a > 0 and a positive discriminant the first root is the larger |
| MathKernel.SolveQuadraticRepeatedRoot | pkg/src/util/math-helpers.ts:36-38 | a zero discriminant gives the real root -b/(2a) twice |
| MathKernel.SolveQuadraticComplexRoots | pkg/src/util/math-helpers.ts:40-47 | a negative discriminant gives the real part -b/(2a) twice and non-zero opposite imaginary parts |
| MathKernel.SolveQuadraticExampleReal | pkg/src/util/math-helpers.ts:26-49 | t^2 - 4 has the roots 2 and -2 |
| MathKernel.SolveQuadraticExampleComplex | pkg/src/util/math-helpers.ts:26-49 | t^2 + 2t + 5 has the roots -1 + 2i and -1 - 2i |
| MathKernel.IsPowerOfTwo | pkg/src/util/math-helpers.ts:51-53 | the test holds of 0 |
| MathKernel.IsPowerOfTwoIff | pkg/src/util/math-helpers.ts:51-53 | on every non-zero 32-bit word the test holds exactly of the powers of two 2^0 .. 2^31, the last being 0x80000000, the 32-bit image of both 2^31 and -2^31 |
| MathKernel.DbToGain | docs/helpers/math-helpers.ts:1-3 | the gain is positive |
| MathKernel.GainToDb | docs/helpers/math-helpers.ts:5-7 | gains above 1 are positive decibels, 1 is 0 dB, and gains in (0, 1) are negative decibels |
| MathKernel.DbToGainOfZero | docs/helpers/math-helpers.ts:1-3 | 0 dB is the gain 1 |
| MathKernel.GainDbRoundTrip | docs/helpers/math-helpers.ts:1-7 | dbToGain(gainToDb(g)) = g for g > 0 |
| MathKernel.DbGainRoundTrip | docs/helpers/math-helpers.ts:1-7 | gainToDb(dbToGain(d)) = d |
| MathKernel.LogBaseNOfPowBaseN | docs/helpers/math-helpers.ts:9-15 | logBaseN(n, powBaseN(n, x)) = x for n > 0, n != 1 |
| MathKernel.PowBaseNOfLogBaseN | docs/helpers/math-helpers.ts:9-15 | powBaseN(n, logBaseN(n, x)) = x for x > 0 |
| MathKernel.ScaleValue | docs/helpers/math-helpers.ts:18-27 | inputMin goes to outputMin, inputMax goes to outputMax, and equal ranges give the identity |
| MathKernel.ScaleValueRoundTrip | docs/helpers/math-helpers.ts:18-27 | scaling from A to B and back from B to A returns the input |
| MathKernel.ScaleValueStrictlyIncreasing | docs/helpers/math-helpers.ts:18-27 | between two increasing ranges the rescale is strictly increasing |
| WaveShaperCurves.Sampled | docs/helpers/web-audio-extensions.ts:19-24 | the sampled table has length entries |
| WaveShaperCurves.GridEndpoints | docs/helpers/web-audio-extensions.ts:21 | the grid starts at -1 and ends at 1 |
| WaveShaperCurves.GridStrictlyIncreasing | docs/helpers/web-audio-extensions.ts:21 | the grid is strictly increasing within [-1, 1] |
| WaveShaperCurves.SampleCurve | docs/helpers/web-audio-extensions.ts:17-24 | the loop fills a fresh array whose entry i is transferFn(i/(length-1)*2-1, i) |
| WaveShaperCurves.NormalizedAsWritten | docs/helpers/web-audio-extensions.ts:28-36 | the in-place normalisation keeps the length |
| WaveShaperCurves.NormalizedCorrected | docs/helpers/web-audio-extensions.ts:28-36 | the intended normalisation keeps the length |
| WaveShaperCurves.GetWaveShaperCurve | docs/helpers/web-audio-extensions.ts:16-40 | without normalisation the table is the sampled one; with it, the table is the in-place result in which entry 0 is already -1 when later entries are rescaled |
| WaveShaperCurves.GetWaveShaperCurveCorrected | docs/helpers/web-audio-extensions.ts:16-40 | the normalised table rescales every entry from [first, last] onto [-1, 1] |
| WaveShaperCurves.NormalizeInPlace | docs/helpers/web-audio-extensions.ts:28-36 | the loop leaves the array holding the as-written normalisation of its old contents, reading entry 0 after step 0 has set it to -1, and the original last entry |
| WaveShaperCurves.NormalizeInPlaceCorrected | docs/helpers/web-audio-extensions.ts:28-36 | with first and last read once beforehand, the loop leaves the array holding the intended normalisation of its old contents |
| WaveShaperCurves.NormalizedAsWrittenEnds | docs/helpers/web-audio-extensions.ts:28-36 | as written, the first entry becomes -1 and the last becomes 1 |
| WaveShaperCurves.NormalizedCorrectedProperties | docs/helpers/web-audio-extensions.ts:28-36 | the intended normalisation sends first to -1 and last to 1, and each entry can be scaled back to the original |
| WaveShaperCurves.NormalizationsAgreeFromMinusOne | docs/helpers/web-audio-extensions.ts:28-36 | when the first entry already is -1 both normalisations agree |
| WaveShaperCurves.NormalizeAliasingExample | docs/helpers/web-audio-extensions.ts:28-36 | on [0, 1, 2] the middle entry becomes 1/3 as written and 0 as intended |
| WaveShaperCurves.NewScalerNode | docs/helpers/web-audio-extensions.ts:44-51 | the node's curve has sampleRate entries: the sampled table, or when asked the table normalised in place as written |
| WaveShaperCurves.NewAdditionNode | docs/helpers/web-audio-extensions.ts:54-58 | the table holds x + amount at every grid point, unnormalised |
| WaveShaperCurves.NewSubtractionNode | docs/helpers/web-audio-extensions.ts:61-65 | the table holds x - amount at every grid point, unnormalised |
| WaveShaperCurves.NewMultiplicationNode | docs/helpers/web-audio-extensions.ts:68-72 | the table holds x * amount at every grid point, unnormalised |
| WaveShaperCurves.SubtractionIsAdditionOfNegation | docs/helpers/web-audio-extensions.ts:54-65 | the subtraction table equals the addition table of the negated amount |
| WaveShaperCurves.MultiplicationByOneIsGrid | docs/helpers/web-audio-extensions.ts:68-72 | the multiplication table by 1 is the grid itself |
| ScalerNodes.ExpFuncFixesZeroAndOne | pkg/src/util/web-audio-extensions.ts:3-9 | expFunc(e) sends 0 to 0 for e > 0 and 1 to 1, as does the corrected version |
| ScalerNodes.ExpFuncEvenIsOdd | pkg/src/util/web-audio-extensions.ts:5-7 | as written, an even natural exponent gives an odd-symmetric curve |
| ScalerNodes.ExpFuncOddIsNonNegative | pkg/src/util/web-audio-extensions.ts:5-7 | as written, an odd natural exponent gives a curve that is never negative |
| ScalerNodes.ExpFuncAgreesForEven | pkg/src/util/web-audio-extensions.ts:5-7 | for even natural exponents the written and the corrected curve are equal |
| ScalerNodes.ExpFuncOddExample | pkg/src/util/web-audio-extensions.ts:5-7 | with exponent 3, -1 goes to 1 as written and to -1 as corrected |
| ScalerNodes.ExpFuncCorrectedIsOdd | pkg/src/util/web-audio-extensions.ts:3-9 | the corrected curve is odd-symmetric for every positive exponent |
| ScalerNodes.ExpFuncCorrectedKeepsSign | pkg/src/util/web-audio-extensions.ts:3-9 | the corrected curve keeps the sign of its input |
| ScalerNodes.ScalerNode.constructor | pkg/src/util/web-audio-extensions.ts:16-32 | input and output are the one fresh wave shaper, whose curve is the 1024-entry sampled table of the scaling function |
| ScalerNodes.NewExpScalerNode | pkg/src/util/web-audio-extensions.ts:35-39 | the wave shaper's curve is expFunc(exponent) sampled on the grid |
| ScalerNodes.ExpTableEnds | pkg/src/util/web-audio-extensions.ts:25-39 | as written, the exponential table ends at 1 and starts at -pow(-1, exponent) |
| ScalerNodes.ExpTableFirstEntry | pkg/src/util/web-audio-extensions.ts:5-7 | as written, entry 0 of the table is -1 for an even natural exponent and 1 for an odd one |
| ScalerNodes.ExpTableCorrectedEnds | pkg/src/util/web-audio-extensions.ts:3-9 | the table of the corrected expFunc runs from -1 at entry 0 to 1 at its last entry, for every positive exponent |
| AudioGraphs.AudioGraph.CreateNode | pkg/src/util/SignalScaler.ts:27-36 | a new node is fresh, has the requested parameters and no connection yet |
| AudioGraphs.AudioGraph.Connect | pkg/src/util/SignalScaler.ts:38-42 | connect adds exactly the one connection |
| AudioGraphs.AudioGraph.Disconnect | pkg/src/util/SignalScaler.ts:52-58 | disconnect() removes every outgoing connection of the node and nothing else |
| AudioGraphs.AudioGraph.DisconnectFrom | pkg/src/composables/useMetering.ts:22 | disconnect(to) removes exactly that connection and reports whether it existed |
| AudioGraphs.AudioGraph.Start | pkg/src/util/SignalScaler.ts:32-33 | start adds the source to the started set |
| AudioGraphs.AudioGraph.Stop | pkg/src/util/SignalScaler.ts:50-51 | stop removes the source from the started set |
| SignalSegments.SignalScaler.constructor | pkg/src/util/SignalScaler.ts:16-47 | creates six distinct fresh nodes with the offsets -inputMin and outputMin and the gains 1/(inputMax - inputMin), outputMax - outputMin, 1 and 1; adds exactly the five chain connections, plus output -> logger exactly when a logger is given; starts both sources |
| SignalSegments.SignalScaler.Wire | pkg/src/util/SignalScaler.ts:38-46 | the connect calls add the chain and, when there is a logger, output -> logger |
| SignalSegments.SignalScaler.Dispose | pkg/src/util/SignalScaler.ts:49-59 | stops both sources and removes every connection leaving one of the six nodes, output -> logger included; all other connections stay |
| SignalSegments.ScalerRemapsSignal | pkg/src/util/SignalScaler.ts:24-42 | with an outside node feeding input, the signal at output is scaleValue(x, inputMin, inputMax, outputMin, outputMax) |
| SignalSegments.ScalerBounds | pkg/src/util/SignalScaler.ts:24-25 | the remap sends inputMin to outputMin and inputMax to outputMax, and (0, 10, -1, 1) sends 5 to 0 |
| SignalSegments.ScalerDisposeRestores | pkg/src/util/SignalScaler.ts:49-58 | disposing a freshly built segment leaves exactly the connections that were there before it, including the ones into input from outside |
| SignalSegments.SignalToRatio.constructor | pkg/src/util/SignalToRatio.ts:17-42 | output becomes the ratio gain node; only source -> input and input -> ratio are connected, so neither the created output gain nor the logger is; the source is started |
| SignalSegments.SignalToRatio.Dispose | pkg/src/util/SignalToRatio.ts:44-51 | stops the source and removes every connection leaving its nodes; disconnecting output a second time changes nothing |
| SignalSegments.Ratio | pkg/src/util/SignalToRatio.ts:23 | the ratio is the rescale onto [0, 1]: inputMin gives 0, inputMax gives 1, and inputs in range land in [0, 1] |
| SignalSegments.RatioOfSignal | pkg/src/util/SignalToRatio.ts:23-37 | with an outside node feeding input, the signal at output is (x - inputMin)/(inputMax - inputMin) |
| SignalSegments.RatioDisposeRestores | pkg/src/util/SignalToRatio.ts:44-50 | disposing a freshly built ratio segment leaves exactly the connections that were there before it |
| Worklets.CurvePositionAtBounds | docs/helpers/AudioWorklets/PowCurveWorkletProcessor.js:53 | t is 0 at min and 1 at max |
| Worklets.PowCurveEndpoints | docs/helpers/AudioWorklets/PowCurveWorkletProcessor.js:45-54 | for n > 0, n != 1 and positive bounds, min goes to min and max to max |
| Worklets.LogBaseNStrictlyIncreasing | docs/helpers/AudioWorklets/PowCurveWorkletProcessor.js:1-3 | for a base above 1, logBaseN is strictly increasing on the positive reals |
| Worklets.CurveExponentStrictlyIncreasing | docs/helpers/AudioWorklets/PowCurveWorkletProcessor.js:54 | the exponent t * logRange + logMin grows with t when logMin < logMax |
| Worklets.PowCurveStrictlyIncreasing | docs/helpers/AudioWorklets/PowCurveWorkletProcessor.js:45-54 | for n > 1 and 0 < min < max the output strictly increases with the input sample |
| Worklets.PowCurveDoesNotClamp | docs/helpers/AudioWorklets/PowCurveWorkletProcessor.js:51-56 | inputs above max give more than max and inputs below min give less than min |
| Worklets.PowCurveDefaults | docs/helpers/AudioWorklets/PowCurveWorkletProcessor.js:17-31 | the defaults (min 1, max 100, base 2) are a defined curve that sends 1 to 1 and 100 to 100 |
| Worklets.PowCurveProcess | docs/helpers/AudioWorklets/PowCurveWorkletProcessor.js:34-59 | with min, max and base read once, every output sample of every channel is the curve of the input sample at the same place; returns true |
| Worklets.DbToGainProcess | docs/helpers/audio-worklets/DbToGainWorkletProcessor.js:21-43 | without channel 0 nothing is written; otherwise output channel 0 gets 0 for samples below minThreshold and dbToGain elsewhere, over the input's length, and nothing else changes; returns true |
| Worklets.ThresholdGainRange | docs/helpers/audio-worklets/DbToGainWorkletProcessor.js:37-39 | with dbToGain = 10^(db/20), samples below the threshold give 0 and samples in [minThreshold, 0] give a gain in (0, 1] |
| Worklets.LoggerProcess | docs/helpers/audio-worklets/LoggerWorkletProcessor.js:4-22 | without channel 0 nothing is written; otherwise input channel 0 is copied into output channel 0 and nothing else changes; returns true |
| Worklets.CopyIntoIsIdentity | docs/helpers/audio-worklets/LoggerWorkletProcessor.js:15-17 | copying into a channel of equal length reproduces the input |
| Metering.Peak | src/composables/metering.ts:22-34 | the peak is at least 0 and at least every absolute sample |
| Metering.PeakAttained | src/composables/metering.ts:22-34 | a non-zero peak is the absolute value of some sample |
| Metering.PeakZeroIff | src/composables/metering.ts:22-34 | the peak is 0 exactly when every sample is 0 |
| Metering.SquareSum | src/composables/metering.ts:40-43 | the square sum is never negative |
| Metering.Rms | src/composables/metering.ts:36-46 | the RMS of a non-empty buffer is never negative |
| Metering.GetPeak | src/composables/metering.ts:22-34 | the loop returns the peak of the buffer |
| Metering.SumOfSquares | src/composables/metering.ts:40-43 | the loop returns the sum of the squared absolute samples |
| Metering.GetRms | src/composables/metering.ts:36-46 | returns the RMS of the buffer |
| Metering.RmsAtMostPeak | src/composables/metering.ts:22-46 | for a non-empty buffer the RMS never exceeds the peak |
| Metering.SquareSumAtMostPeak | src/composables/metering.ts:22-46 | the square sum is at most the length times the peak squared |
| Metering.DecibelsIsGainToDb | pkg/src/composables/useMetering.ts:59 | for a positive level 20 * log10 equals the docs helpers' gainToDb |
| Metering.GetPeakDb | pkg/src/composables/useMetering.ts:48-60 | returns 20 * log10 of the peak |
| Metering.GetRmsDb | pkg/src/composables/useMetering.ts:62-72 | returns 20 * log10 of the RMS |
| Metering.UnitImpulsePeak | pkg/src/composables/useMetering.ts:48-60 | a single 1.0 among zeros has peak 1, that is 0 dB |
| Metering.CopyFromAnalyser | pkg/src/composables/useMetering.ts:37 | the buffer takes the analyser's values where both have an entry and keeps the rest |
| Metering.DeferredMetering.constructor | pkg/src/composables/useMetering.ts:3-10 | without an input the analyser stays unset and nothing is connected; with one, the analyser is set up at once, with a fresh zero-filled buffer |
| Metering.DeferredMetering.SetupAnalyzer | pkg/src/composables/useMetering.ts:12-18 | a fresh analyser with the FFT size, a fresh zeroed buffer of fftSize/2 entries, and exactly the new connection node -> analyser |
| Metering.DeferredMetering.DisposeMetering | pkg/src/composables/useMetering.ts:20-24 | with both an analyser and an input, removes exactly input -> analyser; otherwise changes nothing; the analyser stays set |
| Metering.DeferredMetering.OnInputChanged | pkg/src/composables/useMetering.ts:29-34 | an undefined new input changes nothing; a defined one gets a new analyser and a fresh zero-filled buffer, and the old connection stays |
| Metering.DeferredMetering.GetFloatTimeDomainData | pkg/src/composables/useMetering.ts:36-40 | returns the buffer object itself, filled with the samples when there is an analyser |
| Metering.DeferredMetering.GetFloatFrequencyData | pkg/src/composables/useMetering.ts:42-46 | returns the buffer object itself, filled with the spectrum when there is an analyser |
| Metering.AnalyserMetering.constructor | src/composables/useMetering.ts:5-9 | a fresh analyser with the FFT size and a fresh zero-filled buffer of frequencyBinCount entries |
| Metering.AnalyserMetering.GetFloatTimeDomainData | src/composables/useMetering.ts:11-15 | fills the buffer with the samples and returns the buffer object itself |
| Metering.AnalyserMetering.GetFloatFrequencyData | src/composables/useMetering.ts:17-21 | fills the buffer with the spectrum and returns the buffer object itself |
| Metering.ReadTwice | src/composables/metering.ts:10-20 | two reads in a row hand back the same buffer object, so the first result is overwritten: it holds the second samples once they cover the buffer |

## Left out

- IEEE-754 arithmetic is not modelled. Numbers are reals. There is no rounding, NaN or Infinity, and no Float32Array narrowing of wave-shaper tables.
- Division by zero is excluded by preconditions, because in the source it yields NaN or an infinity. This covers:
  - equal range bounds in the curve engine, scaleValue, the segments and the PowCurve worklet;
  - a zero curve amount;
  - a zero leading coefficient in solveQuadratic;
  - a table length of 1.
- MathKernel.SolveQuadratic: requires a != 0, since the source divides by 2a.
- SignalSegments.SignalScaler.constructor: requires inputMax != inputMin. Otherwise the gain 1/0 is not finite and the GainNode constructor throws; that throw is not modelled.
- SignalSegments.SignalToRatio.constructor: requires inputMax != inputMin, for the same reason.
- Metering.GetRms: requires a non-empty buffer. An empty one gives NaN in the source.
- Metering.GetRmsDb: requires a non-empty buffer, for the same reason.
- Metering.GetPeakDb: log10 of 0 is -Infinity in the source. Here log10 is uninterpreted at 0, so the dB value of a silent buffer is an unconstrained real.
- Worklets.PowCurveProcess: requires an input channel, at least as long, for each output channel. Where the input has fewer channels than the output, including an unconnected input with none, the source indexes an undefined channel and throws a TypeError. Where an input channel is shorter, the missing sample reads as undefined and gives NaN.
- CurvedRanges.LinearThenCurved: for Pow2 the round trip is stated for positive inputs only. Math.log2 of 0 or of a negative number is -Infinity or NaN, which reals do not represent.
- CurvedRanges.LinearValueDefined: requires a non-zero Pow2 logRange, log2(max - min) != logMin, since the source divides by it.
- Metering.DeferredMetering.SetupAnalyzer: requires an FFT size the engine accepts. The engine throws for other sizes, and that throw is not modelled.
- Metering.AnalyserMetering.constructor: requires an FFT size the engine accepts, for the same reason.
- The transcendental functions are uninterpreted. Only the laws in `Numerics.Laws` and `Numerics.SignedPowers` are assumed of them.
- getBaseLog (pkg/src/util/math-helpers.ts:2-4) is a bare wrapper over Math.log and is not modelled.
- round (pkg/src/util/math-helpers.ts:56-61) works through string formatting and is not modelled.
- What an analyser writes into a buffer is a parameter, because FFT contents come from the engine. So are the render thread and processor registration.
- The Logger worklet's console.log is output only and is not modelled.
- dbToGain is not defined inside the DbToGain worklet's own file, so it is a parameter of `Worklets.DbToGainProcess`. The ReferenceError the worklet would raise is not modelled.
- Starting a ConstantSourceNode twice throws in the engine. The segments never do so, and the model does not track it.
- `AudioGraphs.Signal` evaluates a node to a bounded depth (`fuel`). The segment lemmas require enough depth for their chains. Cyclic graphs are not given a meaning.
- The Vue ref around the analyser in src/composables/metering.ts is a constant here, since the code never reassigns it.
- The Vue components, DOM gesture handling, animation-frame loops, debouncing, audio-context bootstrap, build scripts and static theme data are not part of this model.

## Findings

| source | as written | input that shows it | evidently intended | confidence | as-written member | corrected member |
|---|---|---|---|---|---|---|
| pkg/src/util/web-audio-extensions.ts:5-7 | for val < 0 expFunc returns -Math.pow(val, exponent) | exponent 3, val -1: the result is 1 | -Math.pow(-val, exponent), the sign-preserving mirror of the positive half | medium, not executed | ScalerNodes.ExpFuncOddExample | ScalerNodes.ExpFuncCorrectedIsOdd |
| pkg/src/util/curved-range.ts:270 | logMax = log2(max - min), with the comment "todo: fix this" at line 285 | Pow2CurvedRange(1, 100).getCurvedValue(100) is 99; Pow2CurvedRange(60, 100).getCurvedValue(100) is 40, which its getLinearValue rejects | logMax = log2(max), so that max is sent to max and the accessors invert each other | high, not executed | CurvedRanges.Pow2RoundTripAsWrittenFails | CurvedRanges.CurvedThenLinearCorrected |
| docs/helpers/web-audio-extensions.ts:28-35 | the normalising loop reads curveMapping[0] in every step, after step 0 has overwritten it with -1 | the table [0, 1, 2] normalises to [-1, 1/3, 1] | every entry rescaled from the original [first, last], giving [-1, 0, 1] | high, not executed | WaveShaperCurves.NormalizeAliasingExample | WaveShaperCurves.GetWaveShaperCurveCorrected |

The accessors and nodes follow the source as written. The corrected definitions stand beside them:

- `ScalerNodes.ExpScalingCorrected` samples `ExpFuncCorrected`.
- `CurvedRanges.GetCurvedValueCorrected` and `CurvedRanges.GetLinearValueCorrected` use `Pow2LogMaxCorrected` for the Pow2 variant.
- `WaveShaperCurves.GetWaveShaperCurveCorrected` normalises from the original first and last entries.
