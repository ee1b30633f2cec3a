/** `Network`: one node per supported format, with the user callbacks, the
    fan-out of start, stop, rejoin and handle_event, and the sensor lookup. */
module Aggregator {
  import opened Values
  import opened SensorRegistry
  import opened Interpreter
  import opened GroupNode

  /** The node operations the aggregator fans out. */
  datatype NodeOp = StartOp | StopOp | RejoinOp | HandleOp

  /** One node's step under `op`. */
  function Apply(op: NodeOp, s: NodeState): (r: Stepped)
    requires Valid(s.sensors)
    ensures Valid(r.next.sensors)
    ensures op == StartOp ==> r.next.running && r.next.pending == []
    ensures op == StopOp && r.outcome == Done ==> !r.next.running && r.next.pending == []
    ensures (op == StartOp || op == StopOp) ==> r.next.sensors == s.sensors && r.next.log == s.log
  {
    match op
    case StartOp => Interpreter.Start(s)
    case StopOp => Interpreter.Stop(s)
    case RejoinOp => Interpreter.Rejoin(s)
    case HandleOp => Handle(s)
  }

  ghost predicate AllValid(ss: seq<NodeState>)
  {
    forall i :: 0 <= i < |ss| ==> Valid(ss[i].sensors)
  }

  /** Each node's own step under `op`, every node taken on its own. */
  function Steps(op: NodeOp, ss: seq<NodeState>): (rs: seq<Stepped>)
    requires AllValid(ss)
    ensures |rs| == |ss|
    ensures forall i :: 0 <= i < |ss| ==> rs[i] == Apply(op, ss[i])
  {
    seq(|ss|, i requires 0 <= i < |ss| => Apply(op, ss[i]))
  }

  /** The loop `for node in nodes: node.op()` given each node's own step
      `rs[i]`: the nodes in order, the first exception ending the loop with the
      later nodes untouched. */
  function Sequenced(rs: seq<Stepped>, ss: seq<NodeState>): (r: (seq<NodeState>, Outcome))
    requires |rs| == |ss|
    ensures |r.0| == |ss|
  {
    if ss == [] then ([], Done)
    else if rs[0].outcome.Raised? then ([rs[0].next] + ss[1..], rs[0].outcome)
    else
      var rest := Sequenced(rs[1..], ss[1..]);
      ([rs[0].next] + rest.0, rest.1)
  }

  /** The aggregator's fan-out of `op`. */
  function FanOut(op: NodeOp, ss: seq<NodeState>): (r: (seq<NodeState>, Outcome))
    requires AllValid(ss)
    ensures |r.0| == |ss|
    ensures r.1 == Done <==> forall i :: 0 <= i < |ss| ==> Apply(op, ss[i]).outcome == Done
    ensures r.1 == Done ==> forall i :: 0 <= i < |ss| ==> r.0[i] == Apply(op, ss[i]).next
  {
    SequencedDone(Steps(op, ss), ss);
    Sequenced(Steps(op, ss), ss)
  }

  /** The loop completes exactly when no node raises, and then every node has
      taken its own step. */
  lemma {:induction false} SequencedDone(rs: seq<Stepped>, ss: seq<NodeState>)
    requires |rs| == |ss|
    ensures Sequenced(rs, ss).1 == Done <==> forall i :: 0 <= i < |rs| ==> rs[i].outcome == Done
    ensures Sequenced(rs, ss).1 == Done ==> forall i :: 0 <= i < |ss| ==> Sequenced(rs, ss).0[i] == rs[i].next
  {
    if ss != [] {
      SequencedDone(rs[1..], ss[1..]);
      assert forall i :: 1 <= i < |rs| ==> rs[1..][i - 1] == rs[i];
    }
  }

  /** A loop in which no node raised leaves every node with its own step. */
  lemma {:induction false} SequencedCompleted(rs: seq<Stepped>, ss: seq<NodeState>, final: seq<NodeState>)
    requires |rs| == |ss| == |final|
    requires forall j :: 0 <= j < |rs| ==> rs[j].outcome == Done && final[j] == rs[j].next
    ensures Sequenced(rs, ss) == (final, Done)
  {
    if ss != [] {
      SequencedCompleted(rs[1..], ss[1..], final[1..]);
      assert final == [rs[0].next] + final[1..];
    }
  }

  /** A loop that node `i` ended: the nodes up to it stepped, the rest untouched. */
  lemma {:induction false} SequencedEnded(rs: seq<Stepped>, ss: seq<NodeState>, final: seq<NodeState>, i: nat)
    requires |rs| == |ss| == |final| && i < |ss|
    requires forall j :: 0 <= j < i ==> rs[j].outcome == Done
    requires forall j :: 0 <= j <= i ==> final[j] == rs[j].next
    requires forall j :: i < j < |ss| ==> final[j] == ss[j]
    requires rs[i].outcome.Raised?
    ensures Sequenced(rs, ss) == (final, rs[i].outcome)
    decreases i
  {
    if i == 0 {
      assert final == [rs[0].next] + ss[1..];
    } else {
      SequencedEnded(rs[1..], ss[1..], final[1..], i - 1);
      assert final == [rs[0].next] + final[1..];
    }
  }


  class Network {
    var callbacks: seq<nat>
    const nodes: seq<NetworkNode>

    /** The nodes are distinct objects, each with a well-formed registry. */
    ghost predicate Valid()
      reads this, nodes
    {
      && (forall i, j :: 0 <= i < j < |nodes| ==> nodes[i] != nodes[j])
      && (forall i :: 0 <= i < |nodes| ==> nodes[i].Valid())
    }

    ghost function States(): (ss: seq<NodeState>)
      reads this, nodes
      ensures |ss| == |nodes|
      ensures forall i :: 0 <= i < |nodes| ==> ss[i] == nodes[i].State()
    {
      seq(|nodes|, i reads nodes requires 0 <= i < |nodes| => nodes[i].State())
    }

    /** One node per format, each built with the user callables. */
    constructor (formats: seq<DataFormat>, protocolVersion: string, user: seq<nat>)
      ensures Valid()
      ensures callbacks == user
      ensures |nodes| == |formats|
      ensures forall i :: 0 <= i < |nodes| ==> fresh(nodes[i])
      ensures forall i :: 0 <= i < |nodes| ==> nodes[i].State() == Initial(formats[i], protocolVersion, user)
    {
      var ns: seq<NetworkNode> := [];
      for i := 0 to |formats|
        invariant |ns| == i
        invariant forall j :: 0 <= j < i ==> fresh(ns[j]) && ns[j].Valid()
        invariant forall j :: 0 <= j < i ==> ns[j].State() == Initial(formats[j], protocolVersion, user)
        invariant forall j, k :: 0 <= j < k < i ==> ns[j] != ns[k]
      {
        var n := new NetworkNode(formats[i], protocolVersion, user);
        ns := ns + [n];
      }
      callbacks := user;
      nodes := ns;
    }

    /** The `callbacks` setter as written: every node's list becomes the new
        callables alone, so the node's own handler is gone. */
    method SetCallbacks(value: seq<nat>)
      requires Valid()
      modifies this, nodes
      ensures Valid()
      ensures callbacks == value
      ensures forall i :: 0 <= i < |nodes| ==> nodes[i].State() == ReplaceCallbacksAsWritten(old(nodes[i].State()), value)
      ensures forall i :: 0 <= i < |nodes| ==> OwnHandler !in nodes[i].callbacks
    {
      callbacks := value;
      for i := 0 to |nodes|
        invariant Valid() && callbacks == value
        invariant forall j :: 0 <= j < i ==> nodes[j].State() == ReplaceCallbacksAsWritten(old(nodes[j].State()), value)
        invariant forall j :: i <= j < |nodes| ==> nodes[j].State() == old(nodes[j].State())
      {
        nodes[i].callbacks := Observers(value);
      }
    }

    /** The setter as the node constructor builds a list: every node's list
        becomes its own handler followed by the new callables. */
    method SetCallbacksKeepingHandler(value: seq<nat>)
      requires Valid()
      modifies this, nodes
      ensures Valid()
      ensures callbacks == value
      ensures forall i :: 0 <= i < |nodes| ==> nodes[i].State() == ReplaceCallbacks(old(nodes[i].State()), value)
      ensures forall i :: 0 <= i < |nodes| ==> OwnHandler in nodes[i].callbacks
    {
      callbacks := value;
      for i := 0 to |nodes|
        invariant Valid() && callbacks == value
        invariant forall j :: 0 <= j < i ==> nodes[j].State() == ReplaceCallbacks(old(nodes[j].State()), value)
        invariant forall j :: i <= j < |nodes| ==> nodes[j].State() == old(nodes[j].State())
      {
        nodes[i].callbacks := [OwnHandler] + Observers(value);
      }
    }

    /** `op` on node `i` alone. */
    method Step(op: NodeOp, i: nat) returns (outcome: Outcome)
      requires Valid() && i < |nodes|
      modifies nodes[i]
      ensures Valid()
      ensures SensorRegistry.Valid(old(nodes[i].State()).sensors)
      ensures Stepped(nodes[i].State(), outcome) == Apply(op, old(nodes[i].State()))
      ensures forall j :: 0 <= j < |nodes| && j != i ==> nodes[j].State() == old(nodes[j].State())
    {
      var node := nodes[i];
      match op {
        case StartOp => outcome := node.Start();
        case StopOp => outcome := node.Stop();
        case RejoinOp => outcome := node.Rejoin();
        case HandleOp => outcome := node.HandleEvent();
      }
    }

    /** The fan-out of one node operation over the nodes in order. */
    method Fan(op: NodeOp) returns (outcome: Outcome)
      requires Valid()
      modifies nodes
      ensures Valid()
      ensures AllValid(old(States()))
      ensures (States(), outcome) == FanOut(op, old(States()))
    {
      ghost var s0 := States();
      assert AllValid(s0);
      ghost var rs := Steps(op, s0);
      for i := 0 to |nodes|
        invariant Valid()
        invariant forall j :: 0 <= j < i ==> rs[j].outcome == Done && nodes[j].State() == rs[j].next
        invariant forall j :: i <= j < |nodes| ==> nodes[j].State() == s0[j]
      {
        var o := Step(op, i);
        assert Stepped(nodes[i].State(), o) == rs[i];
        if o.Raised? {
          SequencedEnded(rs, s0, States(), i);
          return o;
        }
      }
      SequencedCompleted(rs, s0, States());
      return Done;
    }

    /** `start`, `stop`, `rejoin` and `handle_event` of the aggregator. */
    method Start() returns (outcome: Outcome)
      requires Valid()
      modifies nodes
      ensures Valid() && AllValid(old(States()))
      ensures (States(), outcome) == FanOut(StartOp, old(States()))
    {
      outcome := Fan(StartOp);
    }

    method Stop() returns (outcome: Outcome)
      requires Valid()
      modifies nodes
      ensures Valid() && AllValid(old(States()))
      ensures (States(), outcome) == FanOut(StopOp, old(States()))
    {
      outcome := Fan(StopOp);
    }

    method Rejoin() returns (outcome: Outcome)
      requires Valid()
      modifies nodes
      ensures Valid() && AllValid(old(States()))
      ensures (States(), outcome) == FanOut(RejoinOp, old(States()))
    {
      outcome := Fan(RejoinOp);
    }

    method HandleEvent() returns (outcome: Outcome)
      requires Valid()
      modifies nodes
      ensures Valid() && AllValid(old(States()))
      ensures (States(), outcome) == FanOut(HandleOp, old(States()))
    {
      outcome := Fan(HandleOp);
    }

    /** `running`: some node has a session. */
    predicate Running()
      reads this, nodes
      ensures Running() <==> exists i :: 0 <= i < |nodes| && States()[i].running
      ensures |nodes| == 0 ==> !Running()
    {
      assert forall i :: 0 <= i < |nodes| ==> States()[i].running == nodes[i].running;
      exists i :: 0 <= i < |nodes| && nodes[i].running
    }

    /** `has_events`: some node has an event waiting, which makes the
        aggregator running. */
    predicate HasEvents()
      reads this, nodes
      ensures HasEvents() <==> exists i :: 0 <= i < |nodes| && Interpreter.HasEvents(States()[i])
      ensures HasEvents() ==> Running()
    {
      assert forall i :: 0 <= i < |nodes| ==> (Interpreter.HasEvents(States()[i]) <==> nodes[i].HasEvents());
      exists i :: 0 <= i < |nodes| && nodes[i].HasEvents()
    }

    /** Node `j` is the first, in order, to have `uuid` registered. */
    ghost predicate FirstHolder(j: int, uuid: Value)
      reads this, nodes
    {
      && 0 <= j < |nodes| && uuid in nodes[j].sensors.entries
      && forall i :: 0 <= i < j ==> uuid !in nodes[i].sensors.entries
    }

    /** `sensor`: the first node, in order, that has the uuid builds it; no node
        having it is an error. */
    method Sensor(uuid: Value, supported: set<string>, user: seq<nat>) returns (r: Result<SensorHandle>)
      ensures (forall i :: 0 <= i < |nodes| ==> uuid !in nodes[i].sensors.entries) <==> r == Err(NotAvailable(uuid))
      ensures forall j :: FirstHolder(j, uuid) ==> r == nodes[j].Sensor(uuid, supported, user)
    {
      for k := 0 to |nodes|
        invariant forall i :: 0 <= i < k ==> uuid !in nodes[i].sensors.entries
      {
        if uuid in nodes[k].sensors.entries {
          r := nodes[k].Sensor(uuid, supported, user);
          assert FirstHolder(k, uuid);
          assert forall j :: FirstHolder(j, uuid) ==> j == k;
          return;
        }
      }
      return Err(NotAvailable(uuid));
    }
  }
}
