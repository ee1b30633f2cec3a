/** `NetworkNode`: one discovery node, its sensor registry and its callback
    list, as a class whose methods are proved to follow the functions of
    Interpreter. The transport session is the pair `running` (the session
    exists) and `pending` (the events it has received and not yet handed out). */
module GroupNode {
  import opened Values
  import opened SensorRegistry
  import opened Interpreter
  import Properties
  import PyText
  import Formats

  /** The arguments `sensor` hands to the sensor class for the given type. */
  datatype SensorHandle = SensorHandle(sensorType: string, format: DataFormat, settings: Record, callbacks: seq<nat>)

  /** The keyword arguments `sensor` passes itself, next to the stored record's fields. */
  const CONSTRUCTOR_ARGS: seq<string> := ["format", "context", "callbacks"]

  /** The type a stored record names, "unknown" when it names none. */
  function SensorTypeOf(rec: Record): (t: Value)
    ensures SENSOR_TYPE in rec ==> t == rec[SENSOR_TYPE]
    ensures SENSOR_TYPE !in rec ==> t == Str("unknown")
  {
    if SENSOR_TYPE in rec then rec[SENSOR_TYPE] else Str("unknown")
  }

  class NetworkNode {
    const format: DataFormat
    const protocolVersion: string
    var sensors: Dict
    var callbacks: seq<Callback>
    var warnedOlder: bool
    var warnedNewer: bool
    var running: bool
    var pending: seq<RawEvent>
    /** Every callback call made so far, in order. */
    ghost var log: seq<Delivery>

    ghost function State(): NodeState
      reads this
    {
      NodeState(format, protocolVersion, sensors, callbacks, warnedOlder, warnedNewer, running, pending, log)
    }

    ghost predicate Valid()
      reads this
    {
      WellFormed(sensors)
    }

    constructor (format: DataFormat, protocolVersion: string, user: seq<nat>)
      ensures Valid()
      ensures State() == Initial(format, protocolVersion, user)
    {
      this.format := format;
      this.protocolVersion := protocolVersion;
      sensors := Empty;
      callbacks := [OwnHandler] + Observers(user);
      warnedOlder := false;
      warnedNewer := false;
      running := false;
      pending := [];
      log := [];
    }

    /** `on_event`: the node's own handler. */
    method OnEvent(ev: Record)
      requires SensorRegistry.Valid(sensors) && IsEvent(ev)
      modifies this
      ensures State() == old(State()).(sensors := Registered(old(sensors), ev))
    {
      if ev[SUBJECT] == ATTACH {
        sensors := Put(sensors, ev[SENSOR_UUID], ev - {SUBJECT});
      } else if ev[SUBJECT] == DETACH {
        sensors := Delete(sensors, ev[SENSOR_UUID]);
      }
    }

    /** `execute_callbacks`: call every entry of the list in order. */
    method ExecuteCallbacks(ev: Record)
      requires SensorRegistry.Valid(sensors) && IsEvent(ev)
      modifies this
      ensures SensorRegistry.Valid(sensors)
      ensures State() == Deliver(old(State()), ev)
    {
      ghost var s0 := State();
      var cbs := callbacks;
      for i := 0 to |cbs|
        invariant SensorRegistry.Valid(sensors)
        invariant callbacks == cbs
        invariant Run(State(), cbs[i..], ev) == Run(s0, cbs, ev)
      {
        ghost var before := State();
        var c := cbs[i];
        if c == OwnHandler {
          OnEvent(ev);
        }
        log := log + [Delivery(c, ev)];
        assert State() == Call(before, c, ev);
        assert cbs[i..][0] == c && cbs[i..][1..] == cbs[i + 1..];
      }
      assert cbs[|cbs|..] == [];
    }

    /** `has_events`: the session exists and has an event waiting. */
    predicate HasEvents()
      reads this
      ensures HasEvents() <==> Interpreter.HasEvents(State())
      ensures HasEvents() ==> running
    {
      running && pending != []
    }

    /** The transport receiving `ev` for this node: only a live session receives. */
    method Receive(ev: RawEvent)
      modifies this
      ensures State() == old(State()).(pending := if old(running) then old(pending) + [ev] else old(pending))
    {
      if running {
        pending := pending + [ev];
      }
    }

    /** `handle_event`: take at most one waiting event and act on it. */
    method HandleEvent() returns (outcome: Outcome)
      requires Valid()
      modifies this
      ensures Valid()
      ensures Stepped(State(), outcome) == Handle(old(State()))
    {
      Properties.HandleKeepsWellFormed(State());
      if !HasEvents() {
        return Done;
      }
      var ev := pending[0];
      pending := pending[1..];
      outcome := Done;
      match ev
      case Msg(p, payload) =>
        var v := Interpret(sensors, p, payload);
        match v {
          case Emit(e) =>
            ExecuteCallbacks(e);
          case Drop(_) =>
          case Fail(err) =>
            outcome := Raised(err);
        }
      case Join(_, group) =>
        var pieces := PyText.Split(group, Formats.VERSION_SEP);
        var family := pieces[0];
        var version := if |pieces| > 1 then pieces[1] else "0";
        if family == Formats.FAMILY {
          if !warnedOlder && PyText.Less(version, protocolVersion) {
            warnedOlder := true;
          } else if !warnedNewer && PyText.Less(protocolVersion, version) {
            warnedNewer := true;
          }
        }
      case Exit(p) =>
        outcome := DetachHost(p.uuidHex);
      case OtherEvent(_) =>
    }

    /** The EXIT branch: detach, through the callbacks, every registered sensor
        whose host is `gone`, reading each record afresh. */
    method DetachHost(gone: string) returns (outcome: Outcome)
      requires SensorRegistry.Valid(sensors)
      modifies this
      ensures Stepped(State(), outcome) == ExitFrom(old(State()), old(sensors.order), gone)
    {
      ghost var s0 := State();
      var keys := sensors.order;
      for i := 0 to |keys|
        invariant SensorRegistry.Valid(sensors)
        invariant ExitFrom(State(), keys[i..], gone) == ExitFrom(s0, keys, gone)
      {
        var k := keys[i];
        assert keys[i..][0] == k && keys[i..][1..] == keys[i + 1..];
        if k !in sensors.entries {
          return Raised(KeyError(k));
        }
        var rec := sensors.entries[k];
        if HOST_UUID !in rec {
          return Raised(KeyError(Str(HOST_UUID)));
        }
        var host := rec[HOST_UUID];
        if host == Str(gone) {
          if SENSOR_NAME !in rec {
            return Raised(KeyError(Str(SENSOR_NAME)));
          }
          if HOST_NAME !in rec {
            return Raised(KeyError(Str(HOST_NAME)));
          }
          ghost var before := State();
          var ev := DetachEvent(k, rec[SENSOR_NAME], host, rec[HOST_NAME]);
          assert ExitFrom(before, keys[i..], gone) == ExitFrom(Deliver(before, ev), keys[i + 1..], gone);
          ExecuteCallbacks(ev);
        }
      }
      assert keys[|keys|..] == [];
      return Done;
    }

    /** `rejoin`: a detach for every registered sensor, then leave and join the group. */
    method Rejoin() returns (outcome: Outcome)
      requires Valid()
      modifies this
      ensures Valid()
      ensures Stepped(State(), outcome) == Interpreter.Rejoin(old(State()))
    {
      Properties.RejoinKeepsWellFormed(State());
      ghost var s0 := State();
      var items := Items(sensors);
      for i := 0 to |items|
        invariant SensorRegistry.Valid(sensors)
        invariant RejoinFrom(State(), items[i..]) == RejoinFrom(s0, items)
      {
        var (k, rec) := items[i];
        assert items[i..][0] == (k, rec) && items[i..][1..] == items[i + 1..];
        if SENSOR_NAME !in rec {
          return Raised(KeyError(Str(SENSOR_NAME)));
        }
        if HOST_UUID !in rec {
          return Raised(KeyError(Str(HOST_UUID)));
        }
        if HOST_NAME !in rec {
          return Raised(KeyError(Str(HOST_NAME)));
        }
        ghost var before := State();
        var ev := DetachEvent(k, rec[SENSOR_NAME], rec[HOST_UUID], rec[HOST_NAME]);
        assert RejoinFrom(before, items[i..]) == RejoinFrom(Deliver(before, ev), items[i + 1..]);
        ExecuteCallbacks(ev);
      }
      assert items[|items|..] == [];
      outcome := LeaveOrJoin();
    }

    /** `self.pyre_node.leave(self.group)` or `join`: needs a session and a group name. */
    method LeaveOrJoin() returns (outcome: Outcome)
      ensures outcome == GroupCall(State())
    {
      if !running {
        return Raised(NoTransport);
      }
      var group := Formats.GroupNameFromFormat(format);
      if group.Err? {
        return Raised(group.error);
      }
      return Done;
    }

    /** `start`: open a fresh session, then join the group. */
    method Start() returns (outcome: Outcome)
      modifies this
      ensures Stepped(State(), outcome) == Interpreter.Start(old(State()))
    {
      running := true;
      pending := [];
      var group := Formats.GroupNameFromFormat(format);
      if group.Err? {
        return Raised(group.error);
      }
      return Done;
    }

    /** `stop`: leave the group, then drop the session. */
    method Stop() returns (outcome: Outcome)
      modifies this
      ensures Stepped(State(), outcome) == Interpreter.Stop(old(State()))
    {
      outcome := LeaveOrJoin();
      if outcome.Raised? {
        return;
      }
      running := false;
      pending := [];
    }

    /** `sensor`: the constructor arguments for a registered sensor of a supported
        type, given the types the sensor table `supported` knows. */
    function Sensor(uuid: Value, supported: set<string>, user: seq<nat>): (r: Result<SensorHandle>)
      reads this
      ensures uuid !in sensors.entries <==> r == Err(NotAvailable(uuid))
      ensures uuid in sensors.entries ==> var rec := sensors.entries[uuid]; var t := SensorTypeOf(rec);
        && (r.Ok? <==> t.Str? && t.s in supported && forall a :: a in CONSTRUCTOR_ARGS ==> a !in rec)
        && (r.Ok? ==> r.value == SensorHandle(t.s, format, rec, user))
        && (t.Str? ==> t.s !in supported ==> r == Err(UnsupportedSensorType(t)))
        && (!t.Str? ==> r == Err(UnsupportedSensorType(t)))
        && (r.Err? && r.error.KeywordClash? ==> r.error.name in CONSTRUCTOR_ARGS && r.error.name in rec)
        && (t.Str? && t.s in supported && (exists a :: a in CONSTRUCTOR_ARGS && a in rec) ==> r.Err? && r.error.KeywordClash?)
    {
      if uuid !in sensors.entries then Err(NotAvailable(uuid))
      else
        var rec := sensors.entries[uuid];
        var t := SensorTypeOf(rec);
        if !t.Str? || t.s !in supported then Err(UnsupportedSensorType(t))
        else if "format" in rec then Err(KeywordClash("format"))
        else if "context" in rec then Err(KeywordClash("context"))
        else if "callbacks" in rec then Err(KeywordClash("callbacks"))
        else Ok(SensorHandle(t.s, format, rec, user))
    }
  }
}
