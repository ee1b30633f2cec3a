/** The behaviour of one `NetworkNode`, as functions on its state: the event
    interpreter (`handle_event`), the callback fan-out (`execute_callbacks`
    with the node's own `on_event`), `rejoin`, `start` and `stop`.
    The class in GroupNode is proved to follow these functions. */
module Interpreter {
  import opened Values
  import opened SensorRegistry
  import PyText
  import Formats

  /** Everything a node's behaviour depends on. `log` records every callback call. */
  datatype NodeState = NodeState(
    format: DataFormat,
    protocolVersion: string,
    sensors: Dict,
    callbacks: seq<Callback>,
    warnedOlder: bool,
    warnedNewer: bool,
    running: bool,
    pending: seq<RawEvent>,
    log: seq<Delivery>)

  /** The state after an operation, and whether the operation raised. */
  datatype Stepped = Stepped(next: NodeState, outcome: Outcome)

  /** A freshly constructed node: its own handler first, then the user callbacks. */
  function Initial(format: DataFormat, protocolVersion: string, user: seq<nat>): (s: NodeState)
    ensures WellFormed(s.sensors) && s.sensors.entries == map[]
    ensures |s.callbacks| == |user| + 1 && s.callbacks[0] == OwnHandler && s.callbacks[1..] == Observers(user)
    ensures !s.warnedOlder && !s.warnedNewer && !HasEvents(s) && s.log == []
    ensures !s.running && s.format == format && s.protocolVersion == protocolVersion
  {
    NodeState(format, protocolVersion, Empty, [OwnHandler] + Observers(user),
              false, false, false, [], [])
  }

  /** A record as an attach stores it: no subject, its own uuid, and the host stamp. */
  ghost predicate StoredRecord(k: Value, rec: Record)
  {
    && SUBJECT !in rec
    && SENSOR_UUID in rec && rec[SENSOR_UUID] == k
    && HOST_UUID in rec && HOST_NAME in rec
  }

  /** The registry invariant every operation keeps. */
  ghost predicate WellFormed(d: Dict)
  {
    Valid(d) && forall k | k in d.entries :: StoredRecord(k, d.entries[k])
  }

  /** An event handed to callbacks carries a subject and a sensor uuid. */
  predicate IsEvent(ev: Record)
  {
    SUBJECT in ev && SENSOR_UUID in ev
  }

  // ---------------------------------------------------------------- callbacks

  /** The registry after `on_event(ev)`: attach stores the event minus its
      subject, detach deletes the uuid (a missing uuid is ignored). */
  function Registered(d: Dict, ev: Record): (d': Dict)
    requires Valid(d) && IsEvent(ev)
    ensures Valid(d')
  {
    if ev[SUBJECT] == ATTACH then Put(d, ev[SENSOR_UUID], ev - {SUBJECT})
    else if ev[SUBJECT] == DETACH then Delete(d, ev[SENSOR_UUID])
    else d
  }

  /** One call `c(node, ev)`: recorded, and the node's own handler updates the registry. */
  function Call(s: NodeState, c: Callback, ev: Record): (r: NodeState)
    requires Valid(s.sensors) && IsEvent(ev)
    ensures Valid(r.sensors) && r.log == s.log + [Delivery(c, ev)]
    ensures c != OwnHandler ==> r.sensors == s.sensors
    ensures r.(sensors := s.sensors, log := s.log) == s
  {
    s.(sensors := if c == OwnHandler then Registered(s.sensors, ev) else s.sensors,
       log := s.log + [Delivery(c, ev)])
  }

  /** Calling `cbs` in order. */
  function Run(s: NodeState, cbs: seq<Callback>, ev: Record): (r: NodeState)
    requires Valid(s.sensors) && IsEvent(ev)
    ensures Valid(r.sensors)
    ensures r.(sensors := s.sensors, log := s.log) == s
    decreases |cbs|
  {
    if cbs == [] then s else Run(Call(s, cbs[0], ev), cbs[1..], ev)
  }

  /** `execute_callbacks(ev)`: every callback in the node's list, in order. */
  function Deliver(s: NodeState, ev: Record): (r: NodeState)
    requires Valid(s.sensors) && IsEvent(ev)
    ensures Valid(r.sensors)
    ensures r.(sensors := s.sensors, log := s.log) == s
  {
    Run(s, s.callbacks, ev)
  }

  /** The calls that delivering `ev` to `cbs` makes, in order. */
  function Deliveries(cbs: seq<Callback>, ev: Record): seq<Delivery>
  {
    if cbs == [] then [] else [Delivery(cbs[0], ev)] + Deliveries(cbs[1..], ev)
  }

  /** The calls that delivering each of `evs` in turn makes. */
  function DeliveriesOf(cbs: seq<Callback>, evs: seq<Record>): seq<Delivery>
  {
    if evs == [] then [] else Deliveries(cbs, evs[0]) + DeliveriesOf(cbs, evs[1..])
  }

  // ---------------------------------------------------------- SHOUT / WHISPER

  datatype DropReason = Malformed | DuplicateAttach | UnknownDetach | UnknownSubject

  /** What the interpreter makes of one message: an event for the callbacks,
      a silent drop, or an exception. */
  datatype Verdict = Emit(event: Record) | Drop(reason: DropReason) | Fail(error: Error)

  /** The message with the host fields overwritten from the transport's peer identity. */
  function Stamped(m: Record, p: Peer): (r: Record)
    ensures r.Keys == m.Keys + {HOST_UUID, HOST_NAME}
    ensures r[HOST_UUID] == Str(p.uuidHex) && r[HOST_NAME] == Str(p.name)
    ensures forall f :: f in m && f != HOST_UUID && f != HOST_NAME ==> r[f] == m[f]
  {
    m[HOST_UUID := Str(p.uuidHex)][HOST_NAME := Str(p.name)]
  }

  /** `self.sensors.get(k)` used as a condition: the key is present and its record is a non-empty dict. */
  predicate Truthy(d: Dict, k: Value)
    ensures Truthy(d, k) ==> k in d.entries
    ensures k in d.entries && SENSOR_UUID in d.entries[k] ==> Truthy(d, k)
  {
    k in d.entries && d.entries[k] != map[]
  }

  /** The message branch of `handle_event` after decoding: required keys, the
      host stamp, then attach de-duplication, detach enrichment from the stored
      record (stored fields win), and any other subject dropped.
      Every decoding failure is dropped. */
  function Interpret(d: Dict, p: Peer, payload: Decoded): (v: Verdict)
    ensures v.Emit? ==> IsEvent(v.event)
    ensures !v.Fail?
  {
    match payload
    case Mapping(m) =>
      if SUBJECT !in m || SENSOR_UUID !in m then Drop(Malformed)
      else
        var msg := Stamped(m, p);
        var k := msg[SENSOR_UUID];
        if msg[SUBJECT] == ATTACH then
          if Truthy(d, k) then Drop(DuplicateAttach) else Emit(msg)
        else if msg[SUBJECT] == DETACH then
          if !Truthy(d, k) then Drop(UnknownDetach) else Emit(msg + d.entries[k])
        else Drop(UnknownSubject)
    case _ => Drop(Malformed)
  }

  /** The message branch as the code is written: a frame that is not valid UTF-8
      raises UnicodeDecodeError, a ValueError, whose handler formats `msg`
      before anything was assigned to it, so UnboundLocalError escapes. */
  function InterpretAsWritten(d: Dict, p: Peer, payload: Decoded): (v: Verdict)
    ensures payload != BadEncoding ==> v == Interpret(d, p, payload)
  {
    if payload == BadEncoding then Fail(UnboundLocal("msg")) else Interpret(d, p, payload)
  }

  // ------------------------------------------------------------------- JOIN

  /** The text before the first `-v` of a group name. */
  function GroupFamily(group: string): (r: string)
    ensures r <= group
    ensures PyText.Find(group, Formats.VERSION_SEP) >= 0 ==> r == group[..PyText.Find(group, Formats.VERSION_SEP)]
    ensures !PyText.Contains(r, Formats.VERSION_SEP)
    ensures !PyText.Contains(group, Formats.VERSION_SEP) ==> r == group
  {
    PyText.SplitHead(group, Formats.VERSION_SEP);
    PyText.SplitPiecesFree(group, Formats.VERSION_SEP);
    assert PyText.Split(group, Formats.VERSION_SEP)[0] in PyText.Split(group, Formats.VERSION_SEP);
    PyText.Split(group, Formats.VERSION_SEP)[0]
  }

  /** The text between the first and the second `-v`, or "0" when there is no `-v`. */
  function GroupVersion(group: string): (r: string)
    ensures !PyText.Contains(group, Formats.VERSION_SEP) ==> r == "0"
    ensures PyText.Contains(group, Formats.VERSION_SEP) ==> !PyText.Contains(r, Formats.VERSION_SEP)
  {
    var pieces := PyText.Split(group, Formats.VERSION_SEP);
    PyText.SplitHead(group, Formats.VERSION_SEP);
    PyText.SplitPiecesFree(group, Formats.VERSION_SEP);
    if |pieces| > 1 then
      assert pieces[1] in pieces;
      pieces[1]
    else "0"
  }

  /** The version gate: warn once about an older and once about a newer peer
      in the node's own family, comparing versions as strings. */
  function Gate(s: NodeState, group: string): (r: NodeState)
    ensures r.(warnedOlder := s.warnedOlder, warnedNewer := s.warnedNewer) == s
    ensures s.warnedOlder ==> r.warnedOlder
    ensures s.warnedNewer ==> r.warnedNewer
    ensures GroupFamily(group) != Formats.FAMILY ==> r == s
    ensures !(r.warnedOlder != s.warnedOlder && r.warnedNewer != s.warnedNewer)
  {
    var version := GroupVersion(group);
    if GroupFamily(group) != Formats.FAMILY then s
    else if !s.warnedOlder && PyText.Less(version, s.protocolVersion) then s.(warnedOlder := true)
    else if !s.warnedNewer && PyText.Less(s.protocolVersion, version) then s.(warnedNewer := true)
    else s
  }

  // ------------------------------------------------------------ EXIT, rejoin

  /** The synthetic detach built from a stored record. */
  function DetachEvent(k: Value, name: Value, host: Value, hostName: Value): (ev: Record)
    ensures ev.Keys == {SUBJECT, SENSOR_UUID, SENSOR_NAME, HOST_UUID, HOST_NAME}
    ensures ev[SUBJECT] == DETACH && ev[SENSOR_UUID] == k && IsEvent(ev)
    ensures ev[SENSOR_NAME] == name && ev[HOST_UUID] == host && ev[HOST_NAME] == hostName
  {
    map[SUBJECT := DETACH, SENSOR_UUID := k, SENSOR_NAME := name, HOST_UUID := host, HOST_NAME := hostName]
  }

  /** The EXIT loop over the snapshot `ks` of the registry's keys: each record
      whose host is `gone` is read live and detached through the callbacks.
      A missing key or field raises KeyError, keeping what was done before. */
  function ExitFrom(s: NodeState, ks: seq<Value>, gone: string): (r: Stepped)
    requires Valid(s.sensors)
    ensures Valid(r.next.sensors)
    ensures r.next.(sensors := s.sensors, log := s.log) == s
    decreases |ks|
  {
    if ks == [] then Stepped(s, Done)
    else
      var k := ks[0];
      if k !in s.sensors.entries then Stepped(s, Raised(KeyError(k)))
      else
        var rec := s.sensors.entries[k];
        if HOST_UUID !in rec then Stepped(s, Raised(KeyError(Str(HOST_UUID))))
        else if rec[HOST_UUID] != Str(gone) then ExitFrom(s, ks[1..], gone)
        else if SENSOR_NAME !in rec then Stepped(s, Raised(KeyError(Str(SENSOR_NAME))))
        else if HOST_NAME !in rec then Stepped(s, Raised(KeyError(Str(HOST_NAME))))
        else
          var ev := DetachEvent(k, rec[SENSOR_NAME], rec[HOST_UUID], rec[HOST_NAME]);
          ExitFrom(Deliver(s, ev), ks[1..], gone)
  }

  /** The rejoin loop over the snapshot `items` of the registry's entries. */
  function RejoinFrom(s: NodeState, items: seq<(Value, Record)>): (r: Stepped)
    requires Valid(s.sensors)
    ensures Valid(r.next.sensors)
    ensures r.next.(sensors := s.sensors, log := s.log) == s
    decreases |items|
  {
    if items == [] then Stepped(s, Done)
    else
      var k := items[0].0;
      var rec := items[0].1;
      if SENSOR_NAME !in rec then Stepped(s, Raised(KeyError(Str(SENSOR_NAME))))
      else if HOST_UUID !in rec then Stepped(s, Raised(KeyError(Str(HOST_UUID))))
      else if HOST_NAME !in rec then Stepped(s, Raised(KeyError(Str(HOST_NAME))))
      else
        var ev := DetachEvent(k, rec[SENSOR_NAME], rec[HOST_UUID], rec[HOST_NAME]);
        RejoinFrom(Deliver(s, ev), items[1..])
  }

  /** A call `self.pyre_node.leave(self.group)` (or `join`): no transport when
      stopped, and the group name must exist. */
  function GroupCall(s: NodeState): (o: Outcome)
    ensures o == Done <==> s.running && Formats.GroupNameFromFormat(s.format).Ok?
    ensures !s.running ==> o == Raised(NoTransport)
    ensures s.running && s.format.OtherFormat? ==> o == Raised(UnsupportedFormat)
  {
    if !s.running then Raised(NoTransport)
    else if Formats.GroupNameFromFormat(s.format).Err? then Raised(UnsupportedFormat)
    else Done
  }

  /** `rejoin`: a detach per registered sensor, then leave and join the group. */
  function Rejoin(s: NodeState): (r: Stepped)
    requires Valid(s.sensors)
    ensures Valid(r.next.sensors)
  {
    var r := RejoinFrom(s, Items(s.sensors));
    if r.outcome.Raised? then r else Stepped(r.next, GroupCall(r.next))
  }

  /** `start`: a fresh transport session (so nothing pending), which joins the group. */
  function Start(s: NodeState): (r: Stepped)
    ensures r.next.running && r.next.pending == []
    ensures r.next.(running := s.running, pending := s.pending) == s
    ensures r.outcome == Done <==> Formats.GroupNameFromFormat(s.format).Ok?
    ensures r.outcome != Done ==> r.outcome == Raised(UnsupportedFormat)
  {
    Stepped(s.(running := true, pending := []),
            if Formats.GroupNameFromFormat(s.format).Err? then Raised(UnsupportedFormat) else Done)
  }

  /** `stop`: leave the group and drop the session. */
  function Stop(s: NodeState): (r: Stepped)
    ensures r.outcome == GroupCall(s)
    ensures r.outcome.Raised? ==> r.next == s
    ensures r.outcome == Done ==> !r.next.running && !HasEvents(r.next)
    ensures r.next.(running := s.running, pending := s.pending) == s
  {
    var o := GroupCall(s);
    if o.Raised? then Stepped(s, o) else Stepped(s.(running := false, pending := []), Done)
  }

  // ------------------------------------------------------- callbacks setter

  /** The aggregator's callbacks setter as written: a node's list becomes the
      user callables alone, without the node's own handler. */
  function ReplaceCallbacksAsWritten(s: NodeState, value: seq<nat>): (r: NodeState)
    ensures |r.callbacks| == |value| && OwnHandler !in r.callbacks
    ensures forall i :: 0 <= i < |value| ==> r.callbacks[i] == Observer(value[i])
    ensures r.(callbacks := s.callbacks) == s
  {
    s.(callbacks := Observers(value))
  }

  /** The setter as the node's constructor builds the list: the node's own
      handler first, then the user callables. */
  function ReplaceCallbacks(s: NodeState, value: seq<nat>): (r: NodeState)
    ensures |r.callbacks| == |value| + 1 && r.callbacks[0] == OwnHandler
    ensures forall i :: 0 <= i < |value| ==> r.callbacks[i + 1] == Observer(value[i])
    ensures r.(callbacks := s.callbacks) == s
  {
    s.(callbacks := [OwnHandler] + Observers(value))
  }

  // ------------------------------------------------------------ handle_event

  /** Interpreting one dequeued event. */
  function Process(s: NodeState, ev: RawEvent): (r: Stepped)
    requires Valid(s.sensors)
    ensures Valid(r.next.sensors)
  {
    match ev
    case Msg(p, payload) =>
      (match Interpret(s.sensors, p, payload)
       case Emit(e) => Stepped(Deliver(s, e), Done)
       case Drop(_) => Stepped(s, Done)
       case Fail(err) => Stepped(s, Raised(err)))
    case Join(_, group) => Stepped(Gate(s, group), Done)
    case Exit(p) => ExitFrom(s, s.sensors.order, p.uuidHex)
    case OtherEvent(_) => Stepped(s, Done)
  }

  /** `has_events`: running, with an event waiting. */
  predicate HasEvents(s: NodeState)
    ensures HasEvents(s) ==> s.running && |s.pending| > 0
  {
    s.running && s.pending != []
  }

  /** `handle_event`: nothing without a waiting event, otherwise take exactly one. */
  function Handle(s: NodeState): (r: Stepped)
    requires Valid(s.sensors)
    ensures Valid(r.next.sensors)
  {
    if !HasEvents(s) then Stepped(s, Done)
    else Process(s.(pending := s.pending[1..]), s.pending[0])
  }
}
