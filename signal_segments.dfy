/**
 * The two signal-transform segments of pkg/src/util: SignalScaler remaps a
 * signal from [inputMin, inputMax] onto [outputMin, outputMax], and
 * SignalToRatio maps it onto a ratio in [0, 1].  Each builds its nodes in an
 * audio context, wires them, starts its constant sources, and `dispose`
 * stops the sources and disconnects every node it owns.
 *
 * The range bounds are not stored by the source; here they are ghost
 * constants, so that contracts can speak of them.
 */
module SignalSegments {
  import opened AudioGraphs
  import opened Numerics
  import opened MathKernel

  class SignalScaler {
    const ctx: AudioGraph
    ghost const inputMin: real
    ghost const inputMax: real
    ghost const outputMin: real
    ghost const outputMax: real
    ghost const logger: AudioNode?

    const minusInputMin: AudioNode
    const plusOutputMin: AudioNode
    const dividedByInputRange: AudioNode
    const multipliedByOutputRange: AudioNode
    var input: AudioNode
    var output: AudioNode

    /** The nodes the segment creates, with the parameters it gives them, all distinct. */
    ghost predicate Valid()
      reads this
    {
      && inputMax != inputMin
      && minusInputMin.kind == ConstantSource(-inputMin)
      && dividedByInputRange.kind == Gain(1.0 / (inputMax - inputMin))
      && multipliedByOutputRange.kind == Gain(outputMax - outputMin)
      && plusOutputMin.kind == ConstantSource(outputMin)
      && input.kind == Gain(1.0)
      && output.kind == Gain(1.0)
      && minusInputMin != plusOutputMin
      && input != dividedByInputRange && input != multipliedByOutputRange && input != output
      && dividedByInputRange != multipliedByOutputRange && dividedByInputRange != output
      && multipliedByOutputRange != output
    }

    ghost function Owned(): set<AudioNode>
      reads this
    {
      {minusInputMin, plusOutputMin, dividedByInputRange, multipliedByOutputRange, input, output}
    }

    /** No connection of E starts or ends at one of the segment's nodes. */
    ghost predicate Detached(E: set<Edge>)
      reads this
    {
      && Isolated(E, minusInputMin) && Isolated(E, plusOutputMin) && Isolated(E, dividedByInputRange)
      && Isolated(E, multipliedByOutputRange) && Isolated(E, input) && Isolated(E, output)
    }

    /** The five connections of the chain. */
    ghost function ChainEdges(): set<Edge>
      reads this
    {
      {(minusInputMin, input), (input, dividedByInputRange), (dividedByInputRange, multipliedByOutputRange),
       (multipliedByOutputRange, output), (plusOutputMin, output)}
    }

    /** The chain, and output -> logger if and only if a logger was given. */
    ghost function OwnedEdges(): set<Edge>
      reads this
    {
      ChainEdges() + (if logger != null then {(output, logger)} else {})
    }

    constructor(ctx: AudioGraph, inputMin: real, inputMax: real, outputMin: real, outputMax: real,
                loggerNode: AudioNode?)
      requires inputMax != inputMin
      modifies ctx
      ensures this.ctx == ctx && logger == loggerNode
      ensures this.inputMin == inputMin && this.inputMax == inputMax
      ensures this.outputMin == outputMin && this.outputMax == outputMax
      ensures Valid()
      ensures fresh(minusInputMin) && fresh(plusOutputMin) && fresh(dividedByInputRange)
      ensures fresh(multipliedByOutputRange) && fresh(input) && fresh(output)
      ensures loggerNode !in Owned()
      ensures Detached(old(ctx.edges))
      ensures ctx.edges == old(ctx.edges) + OwnedEdges()
      ensures ctx.started == old(ctx.started) + {minusInputMin, plusOutputMin}
    {
      this.ctx := ctx;
      this.inputMin, this.inputMax := inputMin, inputMax;
      this.outputMin, this.outputMax := outputMin, outputMax;
      logger := loggerNode;
      var minus := ctx.CreateNode(ConstantSource(-inputMin));
      var divided := ctx.CreateNode(Gain(1.0 / (inputMax - inputMin)));
      var multiplied := ctx.CreateNode(Gain(outputMax - outputMin));
      var plus := ctx.CreateNode(ConstantSource(outputMin));
      ctx.Start(minus);
      ctx.Start(plus);
      minusInputMin, dividedByInputRange := minus, divided;
      multipliedByOutputRange, plusOutputMin := multiplied, plus;
      var inputGain := ctx.CreateNode(Gain(1.0));
      var outputGain := ctx.CreateNode(Gain(1.0));
      input, output := inputGain, outputGain;
      assert loggerNode !in {minus, plus, divided, multiplied, inputGain, outputGain};
      assert minus != plus && inputGain != outputGain;
      assert inputGain != divided && inputGain != multiplied && outputGain != divided && outputGain != multiplied;
      assert divided != multiplied;
      new;
      assert Valid() && loggerNode !in Owned();
      Wire(loggerNode);
    }

    /** The connect calls of the constructor: the chain, then output -> loggerNode when there is one. */
    method Wire(loggerNode: AudioNode?)
      requires logger == loggerNode
      modifies ctx
      ensures ctx.edges == old(ctx.edges) + OwnedEdges()
      ensures ctx.started == old(ctx.started)
    {
      ctx.Connect(minusInputMin, input);
      ctx.Connect(input, dividedByInputRange);
      ctx.Connect(dividedByInputRange, multipliedByOutputRange);
      ctx.Connect(multipliedByOutputRange, output);
      ctx.Connect(plusOutputMin, output);
      if loggerNode != null {
        ctx.Connect(output, loggerNode);
      }
    }

    /** dispose(): stops both sources and removes every outgoing connection of the six nodes. */
    method Dispose()
      modifies ctx
      ensures ctx.edges == set e | e in old(ctx.edges) && e.0 !in Owned()
      ensures ctx.started == old(ctx.started) - {minusInputMin, plusOutputMin}
    {
      ctx.Stop(minusInputMin);
      ctx.Stop(plusOutputMin);
      ctx.Disconnect(minusInputMin);
      ctx.Disconnect(plusOutputMin);
      ctx.Disconnect(dividedByInputRange);
      ctx.Disconnect(multipliedByOutputRange);
      ctx.Disconnect(input);
      ctx.Disconnect(output);
    }
  }

  /**
   * With the segment wired into a graph that did not touch its nodes, one
   * outside node feeding `input` and both sources running, the signal at
   * `output` is the input signal remapped from the input range onto the
   * output range.
   */
  lemma ScalerRemapsSignal(s: SignalScaler, E0: set<Edge>, started: set<AudioNode>, ext: AudioNode -> real,
                           src: AudioNode, fuel: nat)
    requires s.Valid() && s.Detached(E0)
    requires s.logger !in s.Owned() && src !in s.Owned() && src.kind.External?
    requires s.minusInputMin in started && s.plusOutputMin in started
    requires fuel >= 4
    ensures Signal(E0 + s.OwnedEdges() + {(src, s.input)}, started, ext, s.output, fuel)
         == ScaleValue(ext(src), s.inputMin, s.inputMax, s.outputMin, s.outputMax)
  {
    var E := E0 + s.OwnedEdges() + {(src, s.input)};
    assert Sources(E, s.output) == {s.multipliedByOutputRange, s.plusOutputMin};
    assert Sources(E, s.multipliedByOutputRange) == {s.dividedByInputRange};
    assert Sources(E, s.dividedByInputRange) == {s.input};
    assert Sources(E, s.input) == {s.minusInputMin, src};
    var x := ext(src);
    GainOfTwo(E, started, ext, s.input, s.minusInputMin, src, fuel - 3);
    assert Signal(E, started, ext, s.input, fuel - 3) == x - s.inputMin;
    GainOfOne(E, started, ext, s.dividedByInputRange, s.input, fuel - 2);
    GainOfOne(E, started, ext, s.multipliedByOutputRange, s.dividedByInputRange, fuel - 1);
    GainOfTwo(E, started, ext, s.output, s.multipliedByOutputRange, s.plusOutputMin, fuel);
    ReciprocalGain(x - s.inputMin, s.inputMax - s.inputMin);
  }

  /** Multiplying by the gain 1/d is dividing by d. */
  lemma ReciprocalGain(v: real, d: real)
    requires d != 0.0
    ensures (1.0 / d) * v == v / d
  {
  }

  /** The remap sends the two input bounds to the two output bounds; (0, 10, -1, 1) sends 5 to 0. */
  lemma ScalerBounds(inputMin: real, inputMax: real, outputMin: real, outputMax: real)
    requires inputMax != inputMin
    ensures ScaleValue(inputMin, inputMin, inputMax, outputMin, outputMax) == outputMin
    ensures ScaleValue(inputMax, inputMin, inputMax, outputMin, outputMax) == outputMax
    ensures ScaleValue(5.0, 0.0, 10.0, -1.0, 1.0) == 0.0
  {
  }

  /** Disposing a freshly built segment gives back the connections it found. */
  lemma ScalerDisposeRestores(s: SignalScaler, E0: set<Edge>)
    requires s.Detached(E0)
    ensures (set e | e in E0 + s.OwnedEdges() && e.0 !in s.Owned()) == E0
  {
  }

  class SignalToRatio {
    const ctx: AudioGraph
    ghost const inputMin: real
    ghost const inputMax: real

    const minusInputMin: AudioNode
    const dividedByInputRange: AudioNode
    var input: AudioNode
    var output: AudioNode

    ghost predicate Valid()
      reads this
    {
      && inputMax != inputMin
      && minusInputMin.kind == ConstantSource(-inputMin)
      && dividedByInputRange.kind == Gain(1.0 / (inputMax - inputMin))
      && input.kind == Gain(1.0)
      && input != dividedByInputRange
    }

    ghost function Owned(): set<AudioNode>
      reads this
    {
      {minusInputMin, dividedByInputRange, input, output}
    }

    ghost predicate Detached(E: set<Edge>)
      reads this
    {
      Isolated(E, minusInputMin) && Isolated(E, dividedByInputRange) && Isolated(E, input) && Isolated(E, output)
    }

    ghost function OwnedEdges(): set<Edge>
      reads this
    {
      {(minusInputMin, input), (input, dividedByInputRange)}
    }

    /**
     * The created output gain is replaced by the ratio gain before anything
     * is connected to it, and the logger is never connected.
     */
    constructor(ctx: AudioGraph, inputMin: real, inputMax: real, loggerNode: AudioNode?)
      requires inputMax != inputMin
      modifies ctx
      ensures this.ctx == ctx && this.inputMin == inputMin && this.inputMax == inputMax
      ensures Valid()
      ensures output == dividedByInputRange
      ensures fresh(minusInputMin) && fresh(dividedByInputRange) && fresh(input)
      ensures Detached(old(ctx.edges))
      ensures ctx.edges == old(ctx.edges) + OwnedEdges()
      ensures ctx.started == old(ctx.started) + {minusInputMin}
    {
      this.ctx := ctx;
      this.inputMin, this.inputMax := inputMin, inputMax;
      var minus := ctx.CreateNode(ConstantSource(-inputMin));
      var divided := ctx.CreateNode(Gain(1.0 / (inputMax - inputMin)));
      ctx.Start(minus);
      minusInputMin, dividedByInputRange := minus, divided;
      var inputGain := ctx.CreateNode(Gain(1.0));
      var outputGain := ctx.CreateNode(Gain(1.0));
      input, output := inputGain, outputGain;
      new;
      ctx.Connect(minusInputMin, input);
      ctx.Connect(input, dividedByInputRange);
      output := dividedByInputRange;
    }

    /** dispose(): stops the source and disconnects its nodes; output is the ratio gain, disconnected twice. */
    method Dispose()
      modifies ctx
      ensures ctx.edges == set e | e in old(ctx.edges) && e.0 !in Owned()
      ensures ctx.started == old(ctx.started) - {minusInputMin}
    {
      ctx.Stop(minusInputMin);
      ctx.Disconnect(minusInputMin);
      ctx.Disconnect(dividedByInputRange);
      ctx.Disconnect(input);
      ctx.Disconnect(output);
    }
  }

  /** The ratio the segment computes: (x - inputMin) / (inputMax - inputMin). */
  function Ratio(x: real, inputMin: real, inputMax: real): (r: real)
    requires inputMax != inputMin
    ensures r == ScaleValue(x, inputMin, inputMax, 0.0, 1.0)
    ensures x == inputMin ==> r == 0.0
    ensures x == inputMax ==> r == 1.0
    ensures inputMin < inputMax && inputMin <= x <= inputMax ==> 0.0 <= r <= 1.0
  {
    if inputMin < inputMax && inputMin <= x <= inputMax then
      DivMonotone(0.0, x - inputMin, inputMax - inputMin);
      DivMonotone(x - inputMin, inputMax - inputMin, inputMax - inputMin);
      DivSelf(inputMax - inputMin);
      (x - inputMin) / (inputMax - inputMin)
    else
      (x - inputMin) / (inputMax - inputMin)
  }

  /** With one outside node feeding `input` and the source running, `output` carries the ratio. */
  lemma RatioOfSignal(s: SignalToRatio, E0: set<Edge>, started: set<AudioNode>, ext: AudioNode -> real,
                      src: AudioNode, fuel: nat)
    requires s.Valid() && s.output == s.dividedByInputRange && s.Detached(E0)
    requires src !in s.Owned() && src.kind.External?
    requires s.minusInputMin in started
    requires fuel >= 2
    ensures Signal(E0 + s.OwnedEdges() + {(src, s.input)}, started, ext, s.output, fuel)
         == Ratio(ext(src), s.inputMin, s.inputMax)
  {
    var E := E0 + s.OwnedEdges() + {(src, s.input)};
    assert Sources(E, s.dividedByInputRange) == {s.input};
    assert Sources(E, s.input) == {s.minusInputMin, src};
    GainOfTwo(E, started, ext, s.input, s.minusInputMin, src, fuel - 1);
    GainOfOne(E, started, ext, s.dividedByInputRange, s.input, fuel);
    ReciprocalGain(ext(src) - s.inputMin, s.inputMax - s.inputMin);
  }

  /** Disposing a freshly built ratio segment gives back the connections it found. */
  lemma RatioDisposeRestores(s: SignalToRatio, E0: set<Edge>)
    requires s.Detached(E0)
    ensures (set e | e in E0 + s.OwnedEdges() && e.0 !in s.Owned()) == E0
  {
  }
}
