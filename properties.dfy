/** What the node's behaviour guarantees: de-duplication, idempotent removal,
    the attach/detach round trip, no orphans after EXIT, rejoin's detaches,
    the one-shot version warnings, and the registry invariant. */
module Properties {
  import opened Values
  import opened SensorRegistry
  import opened Interpreter
  import PyText
  import Formats

  // ------------------------------------------------------------- callbacks

  /** Running `on_event` twice on one event is the same as running it once. */
  lemma RegisteredIdempotent(d: Dict, ev: Record)
    requires Valid(d) && IsEvent(ev)
    ensures Registered(Registered(d, ev), ev) == Registered(d, ev)
  {
    if ev[SUBJECT] == ATTACH {
      PutIdempotent(d, ev[SENSOR_UUID], ev - {SUBJECT});
    } else if ev[SUBJECT] == DETACH {
      DeleteIdempotent(d, ev[SENSOR_UUID]);
    }
  }

  /** One call per callback, in list order, each with the event itself. */
  lemma {:induction false} DeliveriesPointwise(cbs: seq<Callback>, ev: Record)
    ensures |Deliveries(cbs, ev)| == |cbs|
    ensures forall i :: 0 <= i < |cbs| ==> Deliveries(cbs, ev)[i] == Delivery(cbs[i], ev)
  {
    if cbs != [] {
      DeliveriesPointwise(cbs[1..], ev);
    }
  }

  lemma {:induction false} RunLog(s: NodeState, cbs: seq<Callback>, ev: Record)
    requires Valid(s.sensors) && IsEvent(ev)
    ensures Run(s, cbs, ev).log == s.log + Deliveries(cbs, ev)
    decreases |cbs|
  {
    if cbs != [] {
      var s1 := Call(s, cbs[0], ev);
      RunLog(s1, cbs[1..], ev);
      assert Run(s, cbs, ev) == Run(s1, cbs[1..], ev);
      assert s1.log == s.log + [Delivery(cbs[0], ev)];
      assert Deliveries(cbs, ev) == [Delivery(cbs[0], ev)] + Deliveries(cbs[1..], ev);
    }
  }

  lemma {:induction false} RunRegistry(s: NodeState, cbs: seq<Callback>, ev: Record)
    requires Valid(s.sensors) && IsEvent(ev)
    ensures Run(s, cbs, ev).sensors == if OwnHandler in cbs then Registered(s.sensors, ev) else s.sensors
    decreases |cbs|
  {
    if cbs != [] {
      var s1 := Call(s, cbs[0], ev);
      RunRegistry(s1, cbs[1..], ev);
      assert Run(s, cbs, ev) == Run(s1, cbs[1..], ev);
      assert OwnHandler in cbs <==> cbs[0] == OwnHandler || OwnHandler in cbs[1..] by {
        assert cbs == [cbs[0]] + cbs[1..];
      }
      if cbs[0] == OwnHandler {
        assert s1.sensors == Registered(s.sensors, ev);
        RegisteredIdempotent(s.sensors, ev);
      } else {
        assert s1.sensors == s.sensors;
      }
    }
  }

  /** `execute_callbacks` calls every callback once, in list order, and the
      registry changes exactly when the node's own handler is in the list. */
  lemma DeliverEffect(s: NodeState, ev: Record)
    requires Valid(s.sensors) && IsEvent(ev)
    ensures Deliver(s, ev).log == s.log + Deliveries(s.callbacks, ev)
    ensures Deliver(s, ev).sensors
         == if OwnHandler in s.callbacks then Registered(s.sensors, ev) else s.sensors
  {
    RunLog(s, s.callbacks, ev);
    RunRegistry(s, s.callbacks, ev);
  }

  // -------------------------------------------------------- SHOUT / WHISPER

  /** Because a stored record is never empty, the truthiness test on a stored
      record is the membership test. */
  lemma TruthyIsMembership(d: Dict, k: Value)
    requires WellFormed(d)
    ensures Truthy(d, k) <==> k in d.entries
  {
    if k in d.entries {
      assert SENSOR_UUID in d.entries[k];
    }
  }

  /** An attach for a registered uuid fires nothing and changes nothing. */
  lemma DuplicateAttachIsDropped(s: NodeState, p: Peer, m: Record)
    requires WellFormed(s.sensors)
    requires SUBJECT in m && SENSOR_UUID in m && m[SUBJECT] == ATTACH
    requires m[SENSOR_UUID] in s.sensors.entries
    ensures Interpret(s.sensors, p, Mapping(m)) == Drop(DuplicateAttach)
    ensures Process(s, Msg(p, Mapping(m))) == Stepped(s, Done)
  {
    TruthyIsMembership(s.sensors, m[SENSOR_UUID]);
  }

  /** A detach for an unregistered uuid fires nothing and changes nothing. */
  lemma UnknownDetachIsDropped(s: NodeState, p: Peer, m: Record)
    requires WellFormed(s.sensors)
    requires SUBJECT in m && SENSOR_UUID in m && m[SUBJECT] == DETACH
    requires m[SENSOR_UUID] !in s.sensors.entries
    ensures Interpret(s.sensors, p, Mapping(m)) == Drop(UnknownDetach)
    ensures Process(s, Msg(p, Mapping(m))) == Stepped(s, Done)
  {
  }

  /** A payload that does not decode to a mapping, lacks `subject` or
      `sensor_uuid`, or has a subject other than attach/detach fires nothing
      and changes nothing. */
  lemma MalformedIsDropped(s: NodeState, p: Peer, payload: Decoded)
    requires Valid(s.sensors)
    requires payload.Mapping? && SUBJECT in payload.fields && SENSOR_UUID in payload.fields
             ==> payload.fields[SUBJECT] != ATTACH && payload.fields[SUBJECT] != DETACH
    ensures Interpret(s.sensors, p, payload).Drop?
    ensures Process(s, Msg(p, payload)) == Stepped(s, Done)
  {
  }

  /** An accepted attach is delivered to every callback in order, stamped with
      the sending peer, and stored minus its subject under its uuid. */
  lemma AttachDelivers(s: NodeState, p: Peer, m: Record)
    requires WellFormed(s.sensors)
    requires SUBJECT in m && SENSOR_UUID in m && m[SUBJECT] == ATTACH
    requires m[SENSOR_UUID] !in s.sensors.entries
    ensures var r := Process(s, Msg(p, Mapping(m)));
      && r.outcome == Done
      && r.next.log == s.log + Deliveries(s.callbacks, Stamped(m, p))
      && r.next.sensors == (if OwnHandler in s.callbacks
                            then Put(s.sensors, m[SENSOR_UUID], Stamped(m, p) - {SUBJECT})
                            else s.sensors)
  {
    TruthyIsMembership(s.sensors, m[SENSOR_UUID]);
    DeliverEffect(s, Stamped(m, p));
  }

  /** Attach from `p`, then detach of the same uuid from any peer `q`: the
      detach delivers the stored record's fields over the message's own, and
      the registry is as it was before the attach. */
  lemma AttachDetachRoundTrip(s: NodeState, p: Peer, q: Peer, m: Record, m2: Record)
    requires WellFormed(s.sensors) && OwnHandler in s.callbacks
    requires SUBJECT in m && SENSOR_UUID in m && m[SUBJECT] == ATTACH
    requires m[SENSOR_UUID] !in s.sensors.entries
    requires SUBJECT in m2 && SENSOR_UUID in m2 && m2[SUBJECT] == DETACH
    requires m2[SENSOR_UUID] == m[SENSOR_UUID]
    ensures var s1 := Process(s, Msg(p, Mapping(m))).next;
      var r := Process(s1, Msg(q, Mapping(m2)));
      && r.outcome == Done
      && r.next.sensors == s.sensors
      && r.next.log == s1.log + Deliveries(s.callbacks, DetachFromStored(m, p, m2, q))
  {
    var k := m[SENSOR_UUID];
    var stored := Stamped(m, p) - {SUBJECT};
    AttachDelivers(s, p, m);
    var s1 := Process(s, Msg(p, Mapping(m))).next;
    assert s1.sensors == Put(s.sensors, k, stored);
    assert s1.callbacks == s.callbacks;
    assert s1.sensors.entries[k] == stored;
    var e := DetachFromStored(m, p, m2, q);
    assert Interpret(s1.sensors, q, Mapping(m2)) == Emit(e);
    DeliverEffect(s1, e);
    assert e[SUBJECT] == DETACH && e[SENSOR_UUID] == k;
    DeleteUndoesPut(s.sensors, k, stored);
  }

  /** The event a detach from `q` delivers after an attach `m` from `p`: the
      detach message with the stored attach record laid over it. */
  function DetachFromStored(m: Record, p: Peer, m2: Record, q: Peer): Record
  {
    Stamped(m2, q) + (Stamped(m, p) - {SUBJECT})
  }

  /** That event is a detach of the attached uuid, still stamped with the
      attaching host, and every other attach field comes back unchanged. */
  lemma DetachFromStoredFields(m: Record, p: Peer, m2: Record, q: Peer)
    requires SUBJECT in m && SENSOR_UUID in m
    requires SUBJECT in m2 && m2[SUBJECT] == DETACH
    ensures var e := DetachFromStored(m, p, m2, q);
      && e[SUBJECT] == DETACH && e[SENSOR_UUID] == m[SENSOR_UUID]
      && e[HOST_UUID] == Str(p.uuidHex) && e[HOST_NAME] == Str(p.name)
      && forall f :: f in m && f != SUBJECT && f != HOST_UUID && f != HOST_NAME ==> f in e && e[f] == m[f]
  {
  }

  // ------------------------------------------------------------ EXIT, rejoin

  /** A stored record a synthetic detach can be built from. */
  predicate Detachable(rec: Record)
  {
    SENSOR_NAME in rec && HOST_UUID in rec && HOST_NAME in rec
  }

  /** The record is stored for host `gone`. */
  predicate OwnedBy(rec: Record, gone: string)
  {
    HOST_UUID in rec && rec[HOST_UUID] == Str(gone)
  }

  /** The synthetic detach for each snapshot entry, in order. */
  function DetachItems(items: seq<(Value, Record)>): (evs: seq<Record>)
    requires forall it :: it in items ==> Detachable(it.1)
    ensures |evs| == |items|
  {
    if items == [] then []
    else
      assert items[0] in items && Detachable(items[0].1);
      var rec := items[0].1;
      [DetachEvent(items[0].0, rec[SENSOR_NAME], rec[HOST_UUID], rec[HOST_NAME])] + DetachItems(items[1..])
  }

  /** The uuids of a snapshot. */
  ghost function KeysOf(items: seq<(Value, Record)>): set<Value>
  {
    set it | it in items :: it.0
  }

  lemma DeliveriesOfCons(cbs: seq<Callback>, ev: Record, evs: seq<Record>)
    ensures DeliveriesOf(cbs, [ev] + evs) == Deliveries(cbs, ev) + DeliveriesOf(cbs, evs)
  {
    assert ([ev] + evs)[1..] == evs;
  }

  /** The synthetic detaches the EXIT loop builds for the keys `ks`, read from
      the records `m`: one per key whose record is stored for host `gone`. */
  function ExitEvents(m: map<Value, Record>, ks: seq<Value>, gone: string): (evs: seq<Record>)
    requires forall k | k in ks :: k in m && (OwnedBy(m[k], gone) ==> Detachable(m[k]))
    ensures |evs| <= |ks|
  {
    if ks == [] then []
    else
      assert ks[0] in ks && (OwnedBy(m[ks[0]], gone) ==> Detachable(m[ks[0]]));
      var rec := m[ks[0]];
      (if OwnedBy(rec, gone)
       then [DetachEvent(ks[0], rec[SENSOR_NAME], rec[HOST_UUID], rec[HOST_NAME])]
       else []) + ExitEvents(m, ks[1..], gone)
  }

  lemma ExitEventsHead(m: map<Value, Record>, ks: seq<Value>, gone: string)
    requires forall k | k in ks :: k in m && (OwnedBy(m[k], gone) ==> Detachable(m[k]))
    requires ks != []
    ensures ks[0] in m
    ensures var rec := m[ks[0]];
      ExitEvents(m, ks, gone)
        == if OwnedBy(rec, gone)
           then [DetachEvent(ks[0], rec[SENSOR_NAME], rec[HOST_UUID], rec[HOST_NAME])] + ExitEvents(m, ks[1..], gone)
           else ExitEvents(m, ks[1..], gone)
  {
    assert ks[0] in ks;
  }

  /** The keys among `ks` whose record in `m` is stored for host `gone`. */
  ghost function OwnedKeys(m: map<Value, Record>, ks: seq<Value>, gone: string): set<Value>
  {
    if ks == [] then {}
    else (if ks[0] in m && OwnedBy(m[ks[0]], gone) then {ks[0]} else {}) + OwnedKeys(m, ks[1..], gone)
  }

  lemma {:induction false} OwnedKeysMembership(m: map<Value, Record>, ks: seq<Value>, gone: string)
    ensures forall k :: k in OwnedKeys(m, ks, gone) <==> k in ks && k in m && OwnedBy(m[k], gone)
  {
    if ks != [] {
      OwnedKeysMembership(m, ks[1..], gone);
      assert ks == [ks[0]] + ks[1..];
    }
  }

  /** What the live registry must hold for the rest of the EXIT loop: the
      records `m` of the remaining keys, each with a host stamp. */
  ghost predicate ExitReady(s: NodeState, m: map<Value, Record>, ks: seq<Value>, gone: string)
  {
    && Valid(s.sensors) && Distinct(ks)
    && forall k | k in ks :: && k in m && k in s.sensors.entries && s.sensors.entries[k] == m[k]
                              && HOST_UUID in m[k] && (OwnedBy(m[k], gone) ==> Detachable(m[k]))
  }

  /** One turn of the EXIT loop on a ready registry. */
  lemma ExitFromHead(s: NodeState, m: map<Value, Record>, ks: seq<Value>, gone: string)
    requires ExitReady(s, m, ks, gone) && ks != []
    ensures ks[0] in m && (OwnedBy(m[ks[0]], gone) ==> Detachable(m[ks[0]]))
    ensures var rec := m[ks[0]];
      ExitFrom(s, ks, gone)
        == if OwnedBy(rec, gone)
           then ExitFrom(Deliver(s, DetachEvent(ks[0], rec[SENSOR_NAME], rec[HOST_UUID], rec[HOST_NAME])), ks[1..], gone)
           else ExitFrom(s, ks[1..], gone)
  {
    assert ks[0] in ks;
  }

  /** One detach of the EXIT loop leaves the rest of the loop ready. */
  lemma ExitReadyStep(s: NodeState, m: map<Value, Record>, ks: seq<Value>, gone: string, s1: NodeState)
    requires ExitReady(s, m, ks, gone) && ks != []
    requires Valid(s1.sensors)
    requires s1.sensors.entries == s.sensors.entries - {ks[0]} || s1.sensors == s.sensors
    ensures ExitReady(s1, m, ks[1..], gone)
  {
    assert ks == [ks[0]] + ks[1..];
    forall k | k in ks[1..] ensures k != ks[0] {
      var j :| 0 <= j < |ks[1..]| && ks[1..][j] == k;
      assert ks[j + 1] == k;
    }
  }

  /** A turn of the EXIT loop that skips a record of another host. */
  lemma ExitTurnSkip(s: NodeState, m: map<Value, Record>, ks: seq<Value>, gone: string)
    requires ExitReady(s, m, ks, gone) && ks != []
    requires ks[0] in m && !OwnedBy(m[ks[0]], gone)
    ensures ExitFrom(s, ks, gone) == ExitFrom(s, ks[1..], gone)
    ensures ExitEvents(m, ks, gone) == ExitEvents(m, ks[1..], gone)
    ensures OwnedKeys(m, ks, gone) == OwnedKeys(m, ks[1..], gone)
    ensures ExitReady(s, m, ks[1..], gone)
  {
    ExitFromHead(s, m, ks, gone);
    ExitEventsHead(m, ks, gone);
    ExitReadyStep(s, m, ks, gone, s);
  }

  /** A turn of the EXIT loop that detaches a record of the departed host. */
  lemma ExitTurnOwned(s: NodeState, m: map<Value, Record>, ks: seq<Value>, gone: string)
    requires ExitReady(s, m, ks, gone) && ks != []
    requires ks[0] in m && OwnedBy(m[ks[0]], gone)
    ensures Detachable(m[ks[0]])
    ensures var rec := m[ks[0]];
      var ev := DetachEvent(ks[0], rec[SENSOR_NAME], rec[HOST_UUID], rec[HOST_NAME]);
      var s1 := Deliver(s, ev);
      && ExitFrom(s, ks, gone) == ExitFrom(s1, ks[1..], gone)
      && ExitEvents(m, ks, gone) == [ev] + ExitEvents(m, ks[1..], gone)
      && OwnedKeys(m, ks, gone) == {ks[0]} + OwnedKeys(m, ks[1..], gone)
      && ExitReady(s1, m, ks[1..], gone)
      && s1.callbacks == s.callbacks
      && s1.log == s.log + Deliveries(s.callbacks, ev)
      && (OwnHandler in s.callbacks ==> s1.sensors.entries == s.sensors.entries - {ks[0]})
      && (OwnHandler !in s.callbacks ==> s1.sensors == s.sensors)
  {
    var rec := m[ks[0]];
    assert ks[0] in ks;
    var ev := DetachEvent(ks[0], rec[SENSOR_NAME], rec[HOST_UUID], rec[HOST_NAME]);
    ExitFromHead(s, m, ks, gone);
    ExitEventsHead(m, ks, gone);
    DeliverEffect(s, ev);
    ExitReadyStep(s, m, ks, gone, Deliver(s, ev));
  }

  /** The EXIT loop over the remaining keys `ks` completes and delivers one
      detach per key stored for `gone`, in order. */
  lemma {:induction false} ExitFromLog(s: NodeState, m: map<Value, Record>, ks: seq<Value>, gone: string)
    requires ExitReady(s, m, ks, gone)
    ensures ExitFrom(s, ks, gone).outcome == Done
    ensures ExitFrom(s, ks, gone).next.log == s.log + DeliveriesOf(s.callbacks, ExitEvents(m, ks, gone))
    decreases |ks|
  {
    if ks != [] {
      assert ks[0] in ks;
      var rec := m[ks[0]];
      if !OwnedBy(rec, gone) {
        ExitTurnSkip(s, m, ks, gone);
        ExitFromLog(s, m, ks[1..], gone);
      } else {
        ExitTurnOwned(s, m, ks, gone);
        var ev := DetachEvent(ks[0], rec[SENSOR_NAME], rec[HOST_UUID], rec[HOST_NAME]);
        var s1 := Deliver(s, ev);
        ExitFromLog(s1, m, ks[1..], gone);
        var rest := ExitEvents(m, ks[1..], gone);
        DeliveriesOfCons(s.callbacks, ev, rest);
        LogAppend(s.log, Deliveries(s.callbacks, ev), DeliveriesOf(s.callbacks, rest));
      }
    }
  }

  /** With the node's own handler installed, the same loop removes exactly the
      remaining keys stored for `gone`; without it the registry stays as it is. */
  lemma {:induction false} ExitFromRegistry(s: NodeState, m: map<Value, Record>, ks: seq<Value>, gone: string)
    requires ExitReady(s, m, ks, gone)
    ensures OwnHandler in s.callbacks ==>
      ExitFrom(s, ks, gone).next.sensors.entries == s.sensors.entries - OwnedKeys(m, ks, gone)
    ensures OwnHandler in s.callbacks ==>
      ExitFrom(s, ks, gone).next.sensors.order == WithoutAll(s.sensors.order, OwnedKeys(m, ks, gone))
    ensures OwnHandler !in s.callbacks ==> ExitFrom(s, ks, gone).next.sensors == s.sensors
    decreases |ks|
  {
    if ks != [] {
      assert ks[0] in ks;
      var rec := m[ks[0]];
      if !OwnedBy(rec, gone) {
        ExitTurnSkip(s, m, ks, gone);
        ExitFromRegistry(s, m, ks[1..], gone);
      } else {
        ExitTurnOwned(s, m, ks, gone);
        var ev := DetachEvent(ks[0], rec[SENSOR_NAME], rec[HOST_UUID], rec[HOST_NAME]);
        ExitFromRegistry(Deliver(s, ev), m, ks[1..], gone);
        if OwnHandler in s.callbacks {
          MapMinusUnion(s.sensors.entries, {ks[0]}, OwnedKeys(m, ks[1..], gone));
          DeliverEffect(s, ev);
          assert Deliver(s, ev).sensors.order == Without(s.sensors.order, ks[0]);
          WithoutThenWithoutAll(s.sensors.order, ks[0], OwnedKeys(m, ks[1..], gone));
        }
      }
    }
  }

  /** Over a whole valid registry, the owned keys are those stored for `gone`. */
  lemma StoredOwnedKeys(d: Dict, gone: string)
    requires Valid(d)
    ensures OwnedKeys(d.entries, d.order, gone) == set k | k in d.entries && OwnedBy(d.entries[k], gone)
  {
    OwnedKeysMembership(d.entries, d.order, gone);
  }

  /** EXIT of peer P delivers exactly one detach per sensor stored for P, in
      registry order, and none for other hosts; with the node's own handler
      installed, no entry for P remains, every other entry is untouched, and
      the surviving keys keep their relative order. */
  lemma ExitDetachesOwned(s: NodeState, p: Peer)
    requires WellFormed(s.sensors)
    requires forall k :: k in s.sensors.entries && OwnedBy(s.sensors.entries[k], p.uuidHex)
               ==> SENSOR_NAME in s.sensors.entries[k]
    ensures forall k | k in s.sensors.order :: k in s.sensors.entries
              && (OwnedBy(s.sensors.entries[k], p.uuidHex) ==> Detachable(s.sensors.entries[k]))
    ensures var r := Process(s, Exit(p));
      && r.outcome == Done
      && r.next.log == s.log + DeliveriesOf(s.callbacks, ExitEvents(s.sensors.entries, s.sensors.order, p.uuidHex))
      && (OwnHandler in s.callbacks ==>
            forall k :: (k in r.next.sensors.entries
                         <==> k in s.sensors.entries && s.sensors.entries[k][HOST_UUID] != Str(p.uuidHex)))
      && (OwnHandler in s.callbacks ==>
            forall k :: (k in r.next.sensors.entries ==> r.next.sensors.entries[k] == s.sensors.entries[k]))
      && (OwnHandler in s.callbacks ==>
            r.next.sensors.order
              == WithoutAll(s.sensors.order, set k | k in s.sensors.entries && OwnedBy(s.sensors.entries[k], p.uuidHex)))
      && (OwnHandler !in s.callbacks ==> r.next.sensors == s.sensors)
      && r.next.(sensors := s.sensors, log := s.log) == s
  {
    var d := s.sensors;
    assert ExitReady(s, d.entries, d.order, p.uuidHex);
    ExitFromLog(s, d.entries, d.order, p.uuidHex);
    ExitFromRegistry(s, d.entries, d.order, p.uuidHex);
    OwnedKeysMembership(d.entries, d.order, p.uuidHex);
    StoredOwnedKeys(d, p.uuidHex);
  }

  lemma LogAppend(a: seq<Delivery>, b: seq<Delivery>, c: seq<Delivery>)
    ensures (a + b) + c == a + (b + c)
  {
  }

  lemma MapMinusUnion(m: map<Value, Record>, a: set<Value>, b: set<Value>)
    ensures (m - a) - b == m - (a + b)
  {
  }

  lemma KeysOfCons(items: seq<(Value, Record)>)
    requires items != []
    ensures KeysOf(items) == {items[0].0} + KeysOf(items[1..])
  {
    assert items == [items[0]] + items[1..];
  }

  /** The rejoin loop over a snapshot delivers one detach per entry, in order. */
  lemma {:induction false} RejoinFromLog(s: NodeState, items: seq<(Value, Record)>)
    requires Valid(s.sensors)
    requires forall it :: it in items ==> Detachable(it.1)
    ensures RejoinFrom(s, items).outcome == Done
    ensures RejoinFrom(s, items).next.log == s.log + DeliveriesOf(s.callbacks, DetachItems(items))
    decreases |items|
  {
    if items != [] {
      var k := items[0].0;
      var rec := items[0].1;
      assert items[0] in items && Detachable(rec);
      var ev := DetachEvent(k, rec[SENSOR_NAME], rec[HOST_UUID], rec[HOST_NAME]);
      var s1 := Deliver(s, ev);
      assert RejoinFrom(s, items) == RejoinFrom(s1, items[1..]);
      DeliverEffect(s, ev);
      assert s1.callbacks == s.callbacks;
      assert forall it :: it in items[1..] ==> it in items;
      RejoinFromLog(s1, items[1..]);
      assert DetachItems(items) == [ev] + DetachItems(items[1..]);
      DeliveriesOfCons(s.callbacks, ev, DetachItems(items[1..]));
      LogAppend(s.log, Deliveries(s.callbacks, ev), DeliveriesOf(s.callbacks, DetachItems(items[1..])));
    }
  }

  /** With the node's own handler installed, the rejoin loop removes every
      snapshot uuid; without it, the registry stays as it is. */
  lemma {:induction false} RejoinFromRegistry(s: NodeState, items: seq<(Value, Record)>)
    requires Valid(s.sensors)
    requires forall it :: it in items ==> Detachable(it.1)
    ensures OwnHandler in s.callbacks ==> RejoinFrom(s, items).next.sensors.entries == s.sensors.entries - KeysOf(items)
    ensures OwnHandler !in s.callbacks ==> RejoinFrom(s, items).next.sensors == s.sensors
    decreases |items|
  {
    if items != [] {
      var k := items[0].0;
      var rec := items[0].1;
      assert items[0] in items && Detachable(rec);
      var ev := DetachEvent(k, rec[SENSOR_NAME], rec[HOST_UUID], rec[HOST_NAME]);
      var s1 := Deliver(s, ev);
      assert RejoinFrom(s, items) == RejoinFrom(s1, items[1..]);
      DeliverEffect(s, ev);
      assert s1.callbacks == s.callbacks;
      assert forall it :: it in items[1..] ==> it in items;
      RejoinFromRegistry(s1, items[1..]);
      KeysOfCons(items);
      if OwnHandler in s.callbacks {
        assert s1.sensors.entries == s.sensors.entries - {k};
        MapMinusUnion(s.sensors.entries, {k}, KeysOf(items[1..]));
      }
    }
  }

  /** Every entry of a well-formed registry's snapshot is stored under its own
      key and, when each carries a sensor name, can be turned into a detach. */
  lemma SnapshotDetachable(d: Dict)
    requires WellFormed(d)
    requires forall k :: k in d.entries ==> SENSOR_NAME in d.entries[k]
    ensures forall it :: it in Items(d) ==> Detachable(it.1) && it.0 in d.entries && it.1 == d.entries[it.0]
    ensures forall k :: k in d.entries ==> k in KeysOf(Items(d))
  {
    forall it | it in Items(d) ensures Detachable(it.1) && it.0 in d.entries && it.1 == d.entries[it.0] {
      var j :| 0 <= j < |Items(d)| && Items(d)[j] == it;
    }
    forall k | k in d.entries ensures k in KeysOf(Items(d)) {
      var j :| 0 <= j < |d.order| && d.order[j] == k;
      assert Items(d)[j] in Items(d);
    }
  }

  /** `rejoin` on a node with k registered sensors delivers exactly k detaches,
      each carrying only the five identifying fields of its stored record, and
      then leaves and rejoins the group. */
  lemma RejoinDetachesAll(s: NodeState)
    requires WellFormed(s.sensors)
    requires forall k :: k in s.sensors.entries ==> SENSOR_NAME in s.sensors.entries[k]
    ensures forall it :: it in Items(s.sensors) ==> Detachable(it.1)
    ensures var r := Rejoin(s);
      var evs := DetachItems(Items(s.sensors));
      && |evs| == |s.sensors.entries|
      && (forall ev :: ev in evs ==>
            ev.Keys == {SUBJECT, SENSOR_UUID, SENSOR_NAME, HOST_UUID, HOST_NAME} && ev[SUBJECT] == DETACH)
      && r.next.log == s.log + DeliveriesOf(s.callbacks, evs)
      && r.outcome == GroupCall(s)
  {
    var d := s.sensors;
    SnapshotDetachable(d);
    RejoinFromLog(s, Items(d));
    SizeAgrees(d);
    DetachItemsShape(Items(d));
  }

  /** With the node's own handler installed, `rejoin` empties the registry;
      without it, the registry stays as it is. */
  lemma RejoinEmptiesRegistry(s: NodeState)
    requires WellFormed(s.sensors)
    requires forall k :: k in s.sensors.entries ==> SENSOR_NAME in s.sensors.entries[k]
    ensures OwnHandler in s.callbacks ==> Rejoin(s).next.sensors.entries == map[]
    ensures OwnHandler !in s.callbacks ==> Rejoin(s).next.sensors == s.sensors
  {
    var d := s.sensors;
    SnapshotDetachable(d);
    RejoinFromRegistry(s, Items(d));
  }

  lemma {:induction false} DetachItemsShape(items: seq<(Value, Record)>)
    requires forall it :: it in items ==> Detachable(it.1)
    ensures forall ev :: ev in DetachItems(items) ==>
      ev.Keys == {SUBJECT, SENSOR_UUID, SENSOR_NAME, HOST_UUID, HOST_NAME} && ev[SUBJECT] == DETACH
  {
    if items != [] {
      assert forall it :: it in items[1..] ==> it in items;
      DetachItemsShape(items[1..]);
      assert items[0] in items;
      var rec := items[0].1;
      assert DetachItems(items)
          == [DetachEvent(items[0].0, rec[SENSOR_NAME], rec[HOST_UUID], rec[HOST_NAME])] + DetachItems(items[1..]);
    }
  }

  // ------------------------------------------------------------------- JOIN

  /** JOIN fires no callback and touches nothing but the two flags; the older
      flag flips exactly when the family matches and the version sorts before
      the protocol version, the newer flag exactly when it sorts after. */
  lemma JoinOnlyMovesFlags(s: NodeState, p: Peer, group: string)
    requires Valid(s.sensors)
    ensures var r := Process(s, Join(p, group));
      var fam := GroupFamily(group) == Formats.FAMILY;
      var v := GroupVersion(group);
      && r.outcome == Done
      && r.next.(warnedOlder := s.warnedOlder, warnedNewer := s.warnedNewer) == s
      && (r.next.warnedOlder != s.warnedOlder <==> fam && !s.warnedOlder && PyText.Less(v, s.protocolVersion))
      && (r.next.warnedNewer != s.warnedNewer <==> fam && !s.warnedNewer && PyText.Less(s.protocolVersion, v))
      && (s.warnedOlder ==> r.next.warnedOlder) && (s.warnedNewer ==> r.next.warnedNewer)
  {
    PyText.LessAsymmetric(GroupVersion(group), s.protocolVersion);
  }

  /** A repeated JOIN changes nothing: each warning fires at most once. */
  lemma JoinIdempotent(s: NodeState, p: Peer, group: string)
    requires Valid(s.sensors)
    ensures Process(Process(s, Join(p, group)).next, Join(p, group)) == Process(s, Join(p, group))
  {
    PyText.LessAsymmetric(GroupVersion(group), s.protocolVersion);
  }

  /** `<family>-v<rest>` has the family as its first piece, and the text of
      `rest` up to its own first `-v` as its version. */
  lemma GroupParts(rest: string)
    ensures GroupFamily(Formats.FAMILY + Formats.VERSION_SEP + rest) == Formats.FAMILY
    ensures GroupVersion(Formats.FAMILY + Formats.VERSION_SEP + rest)
         == PyText.Split(rest, Formats.VERSION_SEP)[0]
  {
    assert !PyText.Contains(Formats.FAMILY + "-", Formats.VERSION_SEP) by {
      var t := Formats.FAMILY + "-";
      forall j | 0 <= j <= |t| ensures !PyText.OccursAt(t, Formats.VERSION_SEP, j) {
        assert j + 2 <= |t| ==> t[j + 1] != 'v';
      }
    }
    assert Formats.VERSION_SEP[..|Formats.VERSION_SEP| - 1] == "-";
    PyText.SplitOfPrefixed(Formats.FAMILY, Formats.VERSION_SEP, rest);
  }

  /** With protocol version "4", a peer in group "pupil-mobile-v10" counts as
      older: versions compare as strings. */
  lemma OlderBySpelling(s: NodeState, p: Peer)
    requires Valid(s.sensors) && s.protocolVersion == "4"
    ensures Process(s, Join(p, "pupil-mobile-v10")).next == s.(warnedOlder := true)
  {
    GroupParts("10");
    PyText.SplitWithoutSep("10", Formats.VERSION_SEP);
    assert Formats.FAMILY + Formats.VERSION_SEP + "10" == "pupil-mobile-v10";
    PyText.TenBeforeFour();
  }

  /** With protocol version "4", a peer in group "pupil-mobile-v40" counts as newer. */
  lemma NewerBySpelling(s: NodeState, p: Peer)
    requires Valid(s.sensors) && s.protocolVersion == "4"
    ensures Process(s, Join(p, "pupil-mobile-v40")).next == s.(warnedNewer := true)
  {
    GroupParts("40");
    PyText.SplitWithoutSep("40", Formats.VERSION_SEP);
    assert Formats.FAMILY + Formats.VERSION_SEP + "40" == "pupil-mobile-v40";
    assert !PyText.Less("40", "4") && PyText.Less("4", "40");
  }

  // ---------------------------------------------------------- handle_event

  /** `handle_event` does nothing without a waiting event on a running node;
      otherwise it consumes exactly the first waiting event, and the node's
      format, version, callbacks and running flag stay as they were. */
  lemma HandleConsumesOne(s: NodeState)
    requires Valid(s.sensors)
    ensures !HasEvents(s) ==> Handle(s) == Stepped(s, Done)
    ensures HasEvents(s) ==> var n := Handle(s).next;
      && n.pending == s.pending[1..]
      && n.format == s.format && n.protocolVersion == s.protocolVersion
      && n.callbacks == s.callbacks && n.running == s.running
  {
    if HasEvents(s) {
      var t := s.(pending := s.pending[1..]);
      match s.pending[0]
      case Msg(p, payload) =>
        var v := Interpret(t.sensors, p, payload);
        if v.Emit? {
          assert Handle(s).next == Deliver(t, v.event);
        }
      case Exit(p) =>
        assert Handle(s) == ExitFrom(t, t.sensors.order, p.uuidHex);
      case _ =>
    }
  }

  /** Once set, a warning flag stays set through every event. */
  lemma HandleKeepsWarnings(s: NodeState)
    requires Valid(s.sensors)
    ensures s.warnedOlder ==> Handle(s).next.warnedOlder
    ensures s.warnedNewer ==> Handle(s).next.warnedNewer
  {
  }

  // ------------------------------------------------------ registry invariant

  /** An event whose attach carries the host stamp keeps the registry invariant. */
  predicate Storable(ev: Record)
  {
    IsEvent(ev) && (ev[SUBJECT] == ATTACH ==> HOST_UUID in ev && HOST_NAME in ev)
  }

  lemma DeliverKeepsWellFormed(s: NodeState, ev: Record)
    requires WellFormed(s.sensors) && Storable(ev)
    ensures WellFormed(Deliver(s, ev).sensors)
  {
    DeliverEffect(s, ev);
  }

  lemma {:induction false} ExitFromKeepsWellFormed(s: NodeState, ks: seq<Value>, gone: string)
    requires WellFormed(s.sensors)
    ensures WellFormed(ExitFrom(s, ks, gone).next.sensors)
    decreases |ks|
  {
    if ks != [] && ks[0] in s.sensors.entries {
      var rec := s.sensors.entries[ks[0]];
      if Detachable(rec) && rec[HOST_UUID] == Str(gone) {
        var ev := DetachEvent(ks[0], rec[SENSOR_NAME], rec[HOST_UUID], rec[HOST_NAME]);
        DeliverKeepsWellFormed(s, ev);
        ExitFromKeepsWellFormed(Deliver(s, ev), ks[1..], gone);
      } else if HOST_UUID in rec && rec[HOST_UUID] != Str(gone) {
        ExitFromKeepsWellFormed(s, ks[1..], gone);
      }
    }
  }

  lemma {:induction false} RejoinFromKeepsWellFormed(s: NodeState, items: seq<(Value, Record)>)
    requires WellFormed(s.sensors)
    ensures WellFormed(RejoinFrom(s, items).next.sensors)
    decreases |items|
  {
    if items != [] && Detachable(items[0].1) {
      var rec := items[0].1;
      var ev := DetachEvent(items[0].0, rec[SENSOR_NAME], rec[HOST_UUID], rec[HOST_NAME]);
      DeliverKeepsWellFormed(s, ev);
      RejoinFromKeepsWellFormed(Deliver(s, ev), items[1..]);
    }
  }

  /** Every event keeps the registry invariant: each stored record has no
      subject, its own uuid and a host stamp. */
  lemma HandleKeepsWellFormed(s: NodeState)
    requires WellFormed(s.sensors)
    ensures WellFormed(Handle(s).next.sensors)
  {
    if HasEvents(s) {
      var t := s.(pending := s.pending[1..]);
      match s.pending[0]
      case Msg(p, payload) =>
        var v := Interpret(t.sensors, p, payload);
        if v.Emit? {
          DeliverKeepsWellFormed(t, v.event);
        }
      case Exit(p) =>
        ExitFromKeepsWellFormed(t, t.sensors.order, p.uuidHex);
      case _ =>
    }
  }

  lemma RejoinKeepsWellFormed(s: NodeState)
    requires WellFormed(s.sensors)
    ensures WellFormed(Rejoin(s).next.sensors)
  {
    RejoinFromKeepsWellFormed(s, Items(s.sensors));
  }

  // ------------------------------------------------- attach/detach history

  /** Handling the received events `evs` one after another, as successive
      `handle_event` calls do. */
  function Feed(s: NodeState, evs: seq<RawEvent>): (r: NodeState)
    requires Valid(s.sensors)
    ensures Valid(r.sensors)
    decreases |evs|
  {
    if evs == [] then s else Feed(Process(s, evs[0]).next, evs[1..])
  }

  /** Whether message `ev`, taken on its own, says that `k` is attached: an
      attach or a detach naming `k` answers, anything else leaves `before`. */
  function Says(k: Value, ev: RawEvent, before: bool): bool
  {
    match ev
    case Msg(_, Mapping(m)) =>
      if SUBJECT in m && SENSOR_UUID in m && m[SENSOR_UUID] == k then
        if m[SUBJECT] == ATTACH then true
        else if m[SUBJECT] == DETACH then false
        else before
      else before
    case _ => before
  }

  /** The reference answer: `k` is attached exactly when the last attach or
      detach naming it was an attach, or, when none names it, as before. */
  function LastSays(k: Value, evs: seq<RawEvent>, before: bool): bool
    decreases |evs|
  {
    if evs == [] then before else LastSays(k, evs[1..], Says(k, evs[0], before))
  }

  /** One message, on a node whose own handler is listed: the registry invariant
      and the callbacks are kept, and `k` is registered afterwards exactly as
      the message says, duplicates and unknown detaches included. */
  lemma MsgStep(s: NodeState, ev: RawEvent, k: Value)
    requires WellFormed(s.sensors) && OwnHandler in s.callbacks && ev.Msg?
    ensures var n := Process(s, ev).next;
      && WellFormed(n.sensors) && n.callbacks == s.callbacks
      && (k in n.sensors.entries <==> Says(k, ev, k in s.sensors.entries))
  {
    var d := s.sensors;
    var v := Interpret(d, ev.peer, ev.payload);
    if v.Emit? {
      var m := ev.payload.fields;
      var kk := m[SENSOR_UUID];
      TruthyIsMembership(d, kk);
      assert v.event[SENSOR_UUID] == kk by {
        if m[SUBJECT] == DETACH {
          assert StoredRecord(kk, d.entries[kk]);
        }
      }
      assert v.event[SUBJECT] == m[SUBJECT] by {
        if m[SUBJECT] == DETACH {
          assert StoredRecord(kk, d.entries[kk]);
        }
      }
      DeliverEffect(s, v.event);
      DeliverKeepsWellFormed(s, v.event);
    } else {
      match ev.payload
      case Mapping(m) =>
        if SUBJECT in m && SENSOR_UUID in m {
          TruthyIsMembership(d, m[SENSOR_UUID]);
        }
      case _ =>
    }
  }

  /** After any sequence of messages, on a node whose own handler is listed, a
      uuid is registered exactly when the last attach or detach naming it was
      an attach (or, when none names it, when it was registered before). */
  lemma {:induction false} RegistryFollowsLastMessage(s: NodeState, evs: seq<RawEvent>, k: Value)
    requires WellFormed(s.sensors) && OwnHandler in s.callbacks
    requires forall i :: 0 <= i < |evs| ==> evs[i].Msg?
    ensures k in Feed(s, evs).sensors.entries <==> LastSays(k, evs, k in s.sensors.entries)
    decreases |evs|
  {
    if evs != [] {
      MsgStep(s, evs[0], k);
      var n := Process(s, evs[0]).next;
      assert forall i :: 0 <= i < |evs[1..]| ==> evs[1..][i] == evs[i + 1];
      RegistryFollowsLastMessage(n, evs[1..], k);
    }
  }

  // ------------------------------------------- without the node's own handler

  lemma {:induction false} ExitFromFrozen(s: NodeState, ks: seq<Value>, gone: string)
    requires Valid(s.sensors) && OwnHandler !in s.callbacks
    ensures ExitFrom(s, ks, gone).next.sensors == s.sensors
    decreases |ks|
  {
    if ks != [] && ks[0] in s.sensors.entries {
      var rec := s.sensors.entries[ks[0]];
      if Detachable(rec) && rec[HOST_UUID] == Str(gone) {
        var ev := DetachEvent(ks[0], rec[SENSOR_NAME], rec[HOST_UUID], rec[HOST_NAME]);
        DeliverEffect(s, ev);
        ExitFromFrozen(Deliver(s, ev), ks[1..], gone);
      } else if HOST_UUID in rec && rec[HOST_UUID] != Str(gone) {
        ExitFromFrozen(s, ks[1..], gone);
      }
    }
  }

  /** Once a node's list lacks its own handler (as after the aggregator's
      callbacks setter), no event changes its registry any more. */
  lemma FrozenWithoutOwnHandler(s: NodeState)
    requires Valid(s.sensors) && OwnHandler !in s.callbacks
    ensures Handle(s).next.sensors == s.sensors
  {
    if HasEvents(s) {
      var t := s.(pending := s.pending[1..]);
      match s.pending[0]
      case Msg(p, payload) =>
        var v := Interpret(t.sensors, p, payload);
        if v.Emit? {
          DeliverEffect(t, v.event);
        }
      case Exit(p) =>
        ExitFromFrozen(t, t.sensors.order, p.uuidHex);
      case _ =>
    }
  }

  // ------------------------------------------------------------- as written

  /** As written, a payload that is not valid UTF-8 makes `handle_event`
      raise UnboundLocalError instead of dropping the message. */
  lemma BadEncodingEscapesAsWritten(d: Dict, p: Peer)
    ensures InterpretAsWritten(d, p, BadEncoding) == Fail(UnboundLocal("msg"))
    ensures Interpret(d, p, BadEncoding) == Drop(Malformed)
  {
  }

  /** As written, after the aggregator's callbacks setter a node forgets its
      sensors: an attach reaches the callables but is not recorded, a repeated
      attach reaches them again, and the matching detach is dropped unseen. */
  lemma SetterAsWrittenLosesDetach(s: NodeState, value: seq<nat>, p: Peer, q: Peer, m: Record, m2: Record)
    requires WellFormed(s.sensors)
    requires SUBJECT in m && SENSOR_UUID in m && m[SUBJECT] == ATTACH
    requires m[SENSOR_UUID] !in s.sensors.entries
    requires SUBJECT in m2 && SENSOR_UUID in m2 && m2[SUBJECT] == DETACH
    requires m2[SENSOR_UUID] == m[SENSOR_UUID]
    ensures var t := ReplaceCallbacksAsWritten(s, value);
      var s1 := Process(t, Msg(p, Mapping(m))).next;
      && s1.sensors == s.sensors
      && s1.log == s.log + Deliveries(Observers(value), Stamped(m, p))
      && Process(s1, Msg(p, Mapping(m))).next.log == s1.log + Deliveries(Observers(value), Stamped(m, p))
      && Process(s1, Msg(q, Mapping(m2))) == Stepped(s1, Done)
  {
    var t := ReplaceCallbacksAsWritten(s, value);
    AttachDelivers(t, p, m);
    var s1 := Process(t, Msg(p, Mapping(m))).next;
    assert s1.sensors == s.sensors && s1.callbacks == t.callbacks;
    AttachDelivers(s1, p, m);
    UnknownDetachIsDropped(s1, q, m2);
  }

  /** With the setter keeping the node's own handler first, the attach and
      detach round trip holds after it. */
  lemma SetterKeepsRoundTrip(s: NodeState, value: seq<nat>, p: Peer, q: Peer, m: Record, m2: Record)
    requires WellFormed(s.sensors)
    requires SUBJECT in m && SENSOR_UUID in m && m[SUBJECT] == ATTACH
    requires m[SENSOR_UUID] !in s.sensors.entries
    requires SUBJECT in m2 && SENSOR_UUID in m2 && m2[SUBJECT] == DETACH
    requires m2[SENSOR_UUID] == m[SENSOR_UUID]
    ensures var t := ReplaceCallbacks(s, value);
      var s1 := Process(t, Msg(p, Mapping(m))).next;
      var r := Process(s1, Msg(q, Mapping(m2)));
      && t.callbacks == [OwnHandler] + Observers(value)
      && r.outcome == Done
      && r.next.sensors == s.sensors
      && r.next.log == s1.log + Deliveries(t.callbacks, DetachFromStored(m, p, m2, q))
  {
    var t := ReplaceCallbacks(s, value);
    assert OwnHandler in t.callbacks by { assert t.callbacks[0] == OwnHandler; }
    AttachDetachRoundTrip(t, p, q, m, m2);
  }
}
