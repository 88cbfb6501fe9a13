/**
 * The part of the Web Audio API the signal segments are built from: constant
 * sources, gain nodes and nodes from outside the segment, a set of
 * connections, and the set of started sources.  A connection is a pair
 * (from, to); connecting the same pair twice leaves one connection, and a
 * node input sums everything connected to it (section 1.5 of the W3C Web
 * Audio API).  A ConstantSourceNode outputs its offset once started and
 * silence before (section 1.16); a GainNode multiplies its summed input by
 * its gain (section 1.20); an AnalyserNode passes its input through
 * (section 1.8).
 */
module AudioGraphs {

  datatype NodeKind =
    | ConstantSource(offset: real)
    | Gain(gain: real)
    | Analyser(fftSize: nat)      // passes its input through unchanged
    | External                    // a node the segment did not create

  class AudioNode {
    const kind: NodeKind

    constructor(kind: NodeKind)
      ensures this.kind == kind
    {
      this.kind := kind;
    }
  }

  type Edge = (AudioNode, AudioNode)

  /** The audio context's routing state. */
  class AudioGraph {
    var edges: set<Edge>
    var started: set<AudioNode>

    constructor()
      ensures edges == {} && started == {}
    {
      edges := {};
      started := {};
    }

    /** new XNode(context, options): a fresh node of the given kind, connected to nothing yet. */
    method CreateNode(kind: NodeKind) returns (n: AudioNode)
      ensures fresh(n) && n.kind == kind
      ensures Isolated(edges, n)
    {
      n := new AudioNode(kind);
    }

    /** from.connect(to). */
    method Connect(from: AudioNode, to: AudioNode)
      modifies this
      ensures edges == old(edges) + {(from, to)}
      ensures started == old(started)
    {
      edges := edges + {(from, to)};
    }

    /** from.disconnect(): removes every outgoing connection of from. */
    method Disconnect(from: AudioNode)
      modifies this
      ensures edges == Outgoing(old(edges), from)
      ensures started == old(started)
    {
      edges := Outgoing(edges, from);
    }

    /**
     * from.disconnect(to): removes the one connection from -> to; ok is
     * false where the engine throws because there is no such connection.
     */
    method DisconnectFrom(from: AudioNode, to: AudioNode) returns (ok: bool)
      modifies this
      ensures ok <==> (from, to) in old(edges)
      ensures edges == old(edges) - {(from, to)}
      ensures started == old(started)
    {
      ok := (from, to) in edges;
      edges := edges - {(from, to)};
    }

    /** source.start(). */
    method Start(source: AudioNode)
      modifies this
      ensures started == old(started) + {source}
      ensures edges == old(edges)
    {
      started := started + {source};
    }

    /** source.stop(). */
    method Stop(source: AudioNode)
      modifies this
      ensures started == old(started) - {source}
      ensures edges == old(edges)
    {
      started := started - {source};
    }
  }

  /**
   * A buffer dst after each entry that has a counterpart in src was
   * overwritten by f of it; a typed array ignores writes past its end.
   */
  function MapInto(f: real -> real, src: seq<real>, dst: seq<real>): (r: seq<real>)
    ensures |r| == |dst|
  {
    seq(|dst|, i requires 0 <= i < |dst| => if i < |src| then f(src[i]) else dst[i])
  }

  /** The connections of E that do not leave from. */
  function Outgoing(E: set<Edge>, from: AudioNode): (r: set<Edge>)
    ensures r <= E
    ensures forall e :: e in r ==> e.0 != from
    ensures forall e :: e in E && e.0 != from ==> e in r
  {
    set e | e in E && e.0 != from
  }

  /** The nodes connected into n. */
  function Sources(E: set<Edge>, n: AudioNode): set<AudioNode> {
    set e | e in E && e.1 == n :: e.0
  }

  /** No connection of E starts or ends at n. */
  predicate Isolated(E: set<Edge>, n: AudioNode) {
    forall e :: e in E ==> e.0 != n && e.1 != n
  }

  /**
   * The signal at the output of n, where ext gives the signal of every node
   * from outside.  `fuel` bounds the depth of the evaluation; on an acyclic
   * graph every depth at least the longest path gives the same value.
   */
  ghost function Signal(E: set<Edge>, started: set<AudioNode>, ext: AudioNode -> real,
                        n: AudioNode, fuel: nat): real
    decreases fuel, 0
  {
    match n.kind
    case External => ext(n)
    case ConstantSource(offset) => if n in started then offset else 0.0
    case Gain(g) => if fuel == 0 then 0.0 else g * SumSignals(E, started, ext, Sources(E, n), fuel - 1)
    case Analyser(_) => if fuel == 0 then 0.0 else SumSignals(E, started, ext, Sources(E, n), fuel - 1)
  }

  /** The sum of the signals of the nodes in S. */
  ghost function SumSignals(E: set<Edge>, started: set<AudioNode>, ext: AudioNode -> real,
                            S: set<AudioNode>, fuel: nat): real
    decreases fuel, 1, |S|
  {
    if S == {} then 0.0
    else
      var a :| a in S;
      Signal(E, started, ext, a, fuel) + SumSignals(E, started, ext, S - {a}, fuel)
  }

  lemma SumOfOne(E: set<Edge>, started: set<AudioNode>, ext: AudioNode -> real, a: AudioNode, fuel: nat)
    ensures SumSignals(E, started, ext, {a}, fuel) == Signal(E, started, ext, a, fuel)
  {
    assert {a} - {a} == {};
  }

  lemma SumOfTwo(E: set<Edge>, started: set<AudioNode>, ext: AudioNode -> real, a: AudioNode, b: AudioNode,
                 fuel: nat)
    requires a != b
    ensures SumSignals(E, started, ext, {a, b}, fuel)
         == Signal(E, started, ext, a, fuel) + Signal(E, started, ext, b, fuel)
  {
    var c :| c in {a, b} && SumSignals(E, started, ext, {a, b}, fuel)
      == Signal(E, started, ext, c, fuel) + SumSignals(E, started, ext, {a, b} - {c}, fuel);
    if c == a {
      assert {a, b} - {a} == {b};
      SumOfOne(E, started, ext, b, fuel);
    } else {
      assert {a, b} - {b} == {a};
      SumOfOne(E, started, ext, a, fuel);
    }
  }

  /** A gain node fed by a single node scales its signal. */
  lemma GainOfOne(E: set<Edge>, started: set<AudioNode>, ext: AudioNode -> real, n: AudioNode, a: AudioNode,
                  fuel: nat)
    requires n.kind.Gain? && Sources(E, n) == {a} && fuel > 0
    ensures Signal(E, started, ext, n, fuel) == n.kind.gain * Signal(E, started, ext, a, fuel - 1)
  {
    SumOfOne(E, started, ext, a, fuel - 1);
  }

  /** A gain node fed by two nodes scales the sum of their signals. */
  lemma GainOfTwo(E: set<Edge>, started: set<AudioNode>, ext: AudioNode -> real, n: AudioNode,
                  a: AudioNode, b: AudioNode, fuel: nat)
    requires n.kind.Gain? && a != b && Sources(E, n) == {a, b} && fuel > 0
    ensures Signal(E, started, ext, n, fuel)
         == n.kind.gain * (Signal(E, started, ext, a, fuel - 1) + Signal(E, started, ext, b, fuel - 1))
  {
    SumOfTwo(E, started, ext, a, b, fuel - 1);
  }
}
