# pyndsi discovery network, modelled in Dafny

This project models the discovery layer of pyndsi (`ndsi/network.py`). A
`NetworkNode` joins one discovery group per wire format. It keeps a registry of
the sensors that hosts on the group have announced, and it passes every accepted
announcement to a list of callbacks. The node's own handler `on_event` comes
first in that list and keeps the registry up to date. A `Network` holds one node
per supported format and fans each call out to them.

Modules, in dependency order:

- `Values`: JSON scalars, records, peers, transport events, callbacks, errors
  and outcomes, and the message field names.
- `PyText`: Python's `str` ordering (`<`) and `str.split`. The JOIN version gate uses both.
- `SensorRegistry`: the sensor dictionary as an insertion-ordered map. Python
  dicts iterate in insertion order, and the EXIT and rejoin loops depend on that order.
- `Formats`: `group_name_from_format`.
- `Interpreter`: one node's behaviour as functions on a `NodeState` value.
  - `Handle` models `handle_event`.
  - `Deliver` models `execute_callbacks`, with `Registered` for `on_event`.
  - `ExitFrom` and `RejoinFrom` model the EXIT and rejoin loops.
  - `Start` and `Stop` model the session calls.
  - A `log` field in the state records every callback call, so the properties
    can speak about what the user callbacks receive. In the class `NetworkNode`
    the same log is a ghost field.
- `Properties`: lemmas about `Interpreter`.
- `GroupNode`: the class `NetworkNode`. Its fields are the ones the source
  updates in place. Each method's `ensures` ties the new state and the outcome
  to the `Interpreter` function of the old state.
- `Aggregator`: the class `Network`. It has the `FanOut` specification of its
  loops over the nodes and the first-match `sensor` lookup.

An exception is modelled as an outcome `Raised(error)` together with the state
at the moment of the raise. Work done before the raise is kept, as it is in
Python.

## Model

| member | source | states |
|---|---|---|
| Values.Observers | ndsi/network.py:44 | The user callables become list entries one for one, in order, and none of them is the node's own handler. |
| PyText.Less | ndsi/network.py:122-125 | Python's `<` on strings: a proper prefix sorts first, and otherwise the code point at the first index where the strings differ decides, in both directions. Nothing sorts before the empty string. |
| PyText.LessIrreflexive | ndsi/network.py:122-125 | No version string sorts before itself. |
| PyText.LessAsymmetric | ndsi/network.py:122-125 | A version cannot be both older and newer than another. |
| PyText.LessTotal | ndsi/network.py:122-125 | Two different version strings are always ordered one way or the other. |
| PyText.LessTransitive | ndsi/network.py:122-125 | The string order is transitive. |
| PyText.TenBeforeFour | ndsi/network.py:122 | "10" sorts before "4": versions compare by spelling, not by number. |
| PyText.FindFrom | ndsi/network.py:118 | The result is the first occurrence of the separator at or after `from`, or -1 when none follows. |
| PyText.Find | ndsi/network.py:118 | The result is the first occurrence of the separator, or -1 when there is none. |
| PyText.Split | ndsi/network.py:118 | `str.split` always yields at least one piece. |
| PyText.SplitJoin | ndsi/network.py:118 | Joining the pieces with the separator gives back the original string. |
| PyText.SplitPiecesFree | ndsi/network.py:118 | No piece contains the separator. |
| PyText.NoOccurrenceNoContains | ndsi/network.py:118 | A string with no occurrence of the separator does not contain it. |
| PyText.SplitWithoutSep | ndsi/network.py:118-120 | A string without the separator's first character splits into itself alone. |
| PyText.SplitHead | ndsi/network.py:118-120 | There is one piece exactly when the separator does not occur, and the first piece is the text before its first occurrence. |
| PyText.SplitOfPrefixed | ndsi/network.py:118-119 | `base + sep + rest` splits into `base` followed by the pieces of `rest`, when `base` followed by all but the last character of the separator holds no occurrence of the separator. |
| SensorRegistry.Without | ndsi/network.py:174 | Removing a key from the order keeps every other key, keeps distinctness, shortens a duplicate-free order by one when the key was there, and changes nothing when it was not. |
| SensorRegistry.WithoutKeepsOrder | ndsi/network.py:174 | In a duplicate-free order, removing the key at index i cuts out exactly that position, so the keys before and after it keep their relative order. |
| SensorRegistry.WithoutAll | ndsi/network.py:129-139 | Filtering a set of keys out of the order keeps exactly the other keys, keeps distinctness, and changes nothing when none of them is listed. |
| SensorRegistry.WithoutThenWithoutAll | ndsi/network.py:129-139 | Removing one key and then filtering a set of keys is the same as filtering their union, so successive deletes keep the survivors in their original order. |
| SensorRegistry.Put | ndsi/network.py:171 | `dict.update` with one key: the entry is set, a new key goes last in the order, and an existing key keeps its place. |
| SensorRegistry.Delete | ndsi/network.py:173-176 | `del` removes the key and nothing else, and the surviving keys keep their insertion order: the key's position is cut out of the order. A missing key leaves the dict unchanged, as the swallowed KeyError does. |
| SensorRegistry.Items | ndsi/network.py:63 | `list(items())` has one entry per stored key, as many as the dict holds. Each entry is a key with its live record, listed in insertion order, no key is listed twice, and every stored key is listed. |
| SensorRegistry.SizeAgrees | ndsi/network.py:43 | The iteration order and the mapping of a well-formed dict have the same size. |
| SensorRegistry.WithoutAppend | ndsi/network.py:171-174 | Removing the key that was appended last restores the previous order. |
| SensorRegistry.DeleteUndoesPut | ndsi/network.py:171-174 | Deleting a freshly inserted key restores the dict exactly, order included. |
| SensorRegistry.PutIdempotent | ndsi/network.py:171 | Storing the same record twice equals storing it once. |
| SensorRegistry.DeleteIdempotent | ndsi/network.py:173-176 | Deleting twice equals deleting once. |
| Formats.GroupNameFromFormat | ndsi/network.py:246-251 | V3 maps to "pupil-mobile-v3" and V4 to "pupil-mobile-v4", each in both directions. Any other format is exactly the error case. |
| Formats.GroupNameSplits | ndsi/network.py:118-120 | A node's own group name splits into the family "pupil-mobile" and its format's version digit. |
| Interpreter.Initial | ndsi/network.py:37-46 | A new node has an empty, well-formed registry, its own handler first and then exactly the user callables, both warnings unset, the given format and protocol version, not running, no waiting events and no calls made. |
| Interpreter.Registered | ndsi/network.py:167-176 | `on_event` keeps the dict consistent: distinct keys, and an order that lists exactly the stored keys. Its effect is stated by the lemmas below. |
| Interpreter.Call | ndsi/network.py:145 | One call `callback(self, event)` is appended to the log. Only the node's own handler may change the registry; an observer leaves it as it was. Nothing else changes. |
| Interpreter.Run | ndsi/network.py:143-145 | Calling the callbacks changes only the registry and the log. |
| Interpreter.Deliver | ndsi/network.py:143-145 | `execute_callbacks` changes only the registry and the log. |
| Interpreter.Interpret | ndsi/network.py:84-111 | The message branch never raises, and every event it emits carries `subject` and `sensor_uuid`. |
| Interpreter.Stamped | ndsi/network.py:90-91 | The stamped message has the message's fields plus host_uuid and host_name. Those two come from the peer identity, overwriting any sent values, and every other field keeps its value. |
| Interpreter.Truthy | ndsi/network.py:99-106 | `sensors.get(uuid)` is truthy only for a registered uuid, and it is truthy for a registered uuid whose record holds a sensor_uuid, as every stored record does. |
| Interpreter.InterpretAsWritten | ndsi/network.py:86-95 | The branch as written agrees with `Interpret` on every payload except a frame that is not valid UTF-8. |
| Interpreter.GroupFamily | ndsi/network.py:118-119 | The family is the text before the first "-v" of the group name, or the whole name when it has no "-v"; it is a prefix holding no "-v". |
| Interpreter.GroupVersion | ndsi/network.py:118-120 | The version is "0" when the group name has no "-v". Otherwise it is a piece with no "-v" in it. |
| Interpreter.Gate | ndsi/network.py:121-127 | The version check moves only the two warning flags, never clears one, never sets both at once, and leaves a node of another family unchanged. |
| Interpreter.DetachEvent | ndsi/network.py:64-69 | A synthetic detach has exactly the fields subject, sensor_uuid, sensor_name, host_uuid and host_name, with subject "detach" and the given uuid, name and host values. |
| Interpreter.ExitFrom | ndsi/network.py:129-139 | The EXIT loop changes only the registry and the log, and keeps the dict consistent. |
| Interpreter.RejoinFrom | ndsi/network.py:63-69 | The rejoin loop changes only the registry and the log. |
| Interpreter.GroupCall | ndsi/network.py:70-75 | A leave or join succeeds exactly when a session exists and the format has a group name. Without a session it raises the missing-transport error. With an unknown format it raises the unsupported-format error. |
| Interpreter.Rejoin | ndsi/network.py:62-71 | `rejoin` keeps the dict consistent. |
| Interpreter.Start | ndsi/network.py:52-60 | `start` opens a session with nothing waiting and changes nothing else. It succeeds exactly when the format has a group name, and otherwise raises the unsupported-format error. |
| Interpreter.Stop | ndsi/network.py:73-77 | `stop` has the outcome of the leave. A raising leave changes nothing; otherwise the session is gone with nothing waiting. Only the session changes. |
| Interpreter.ReplaceCallbacksAsWritten | ndsi/network.py:209-213 | The setter as written makes the list exactly the new callables, in order, without the node's own handler, and changes nothing else. |
| Interpreter.ReplaceCallbacks | ndsi/network.py:209-213 | The corrected setter makes the list the node's own handler followed by exactly the new callables, and changes nothing else. |
| Interpreter.HasEvents | ndsi/network.py:181-183 | A node has events only when it is running with at least one event waiting. |
| Interpreter.Process | ndsi/network.py:84-141 | Every dequeued event keeps the dict consistent. |
| Interpreter.Handle | ndsi/network.py:79-141 | `handle_event` keeps the dict consistent. |
| Properties.RegisteredIdempotent | ndsi/network.py:167-176 | Applying `on_event` twice to one event equals applying it once. |
| Properties.DeliveriesPointwise | ndsi/network.py:143-145 | Delivery makes one call per list entry, in list order, each with the event itself. |
| Properties.RunLog | ndsi/network.py:143-145 | The log grows by exactly one call per callback, in order. |
| Properties.RunRegistry | ndsi/network.py:143-145 | The registry changes, as `on_event` dictates, exactly when the node's own handler is in the list. |
| Properties.DeliverEffect | ndsi/network.py:143-145 | `execute_callbacks` calls every callback once, in order, and updates the registry exactly when the node's own handler is listed. |
| Properties.TruthyIsMembership | ndsi/network.py:99-106 | On a well-formed registry, the truthiness test on `sensors.get(uuid)` is the membership test. |
| Properties.DuplicateAttachIsDropped | ndsi/network.py:99-102 | An attach for a uuid already registered calls nothing and changes nothing. |
| Properties.UnknownDetachIsDropped | ndsi/network.py:103-106 | A detach for an unregistered uuid calls nothing and changes nothing. |
| Properties.MalformedIsDropped | ndsi/network.py:84-110 | Undecodable JSON, a non-mapping, a missing `subject` or `sensor_uuid`, or an unknown subject is dropped with no call and no change. |
| Properties.AttachDelivers | ndsi/network.py:84-111 | A new attach reaches every callback in order, stamped with the sender's identity. With the own handler listed, it is stored minus its subject under its uuid. |
| Properties.AttachDetachRoundTrip | ndsi/network.py:99-111 | After an attach from one peer, a detach of the same uuid from any peer restores the registry. The callbacks receive the detach with the stored record's fields laid over the message. |
| Properties.DetachFromStoredFields | ndsi/network.py:107 | The enriched detach keeps subject "detach" and the attached uuid. It carries the attaching host's stamp, and every other attach field comes back unchanged. |
| Properties.DetachItems | ndsi/network.py:63-69 | The rejoin loop builds one synthetic detach per snapshot entry. |
| Properties.ExitEvents | ndsi/network.py:131-139 | The EXIT loop builds at most one detach per snapshot key. |
| Properties.ExitFromLog | ndsi/network.py:131-139 | On a registry whose remaining records are stamped, the EXIT loop completes. The log grows by the detaches for exactly the keys stored for the departed host, in order. |
| Properties.ExitFromRegistry | ndsi/network.py:129-139 | When every record of the departed host carries a sensor_name and the own handler is listed, the EXIT loop removes exactly the keys stored for the departed host, and the surviving keys keep their relative order. Without it, the registry does not change. |
| Properties.ExitDetachesOwned | ndsi/network.py:129-139 | EXIT of a peer completes and delivers one detach per sensor stored for that peer, in registry order, and none for other hosts. With the own handler, afterwards no entry of that peer remains, every other entry is unchanged, and the surviving keys are the old order with that peer's keys filtered out. |
| Properties.RejoinFromLog | ndsi/network.py:63-69 | The rejoin loop over a snapshot delivers one detach per entry, in order, and completes. |
| Properties.RejoinFromRegistry | ndsi/network.py:62-69 | When every snapshot record carries a sensor_name, host_uuid and host_name and the own handler is listed, the rejoin loop removes every snapshot uuid. Without it, the registry does not change. |
| Properties.SnapshotDetachable | ndsi/network.py:63 | Every entry of a well-formed snapshot is the live record stored under its own key, and every key appears in the snapshot. |
| Properties.RejoinDetachesAll | ndsi/network.py:62-71 | `rejoin` on a node with k sensors delivers exactly k detaches, in order, each carrying only the five identifying fields. It then gives the outcome of leaving and rejoining the group. |
| Properties.RejoinEmptiesRegistry | ndsi/network.py:62-69 | With the own handler, `rejoin` empties the registry. Without it, the registry does not change. |
| Properties.DetachItemsShape | ndsi/network.py:64-69 | Every rejoin detach has exactly those five fields. |
| Properties.JoinOnlyMovesFlags | ndsi/network.py:112-127 | JOIN calls nothing and changes only the two warning flags. The older flag flips exactly when the family matches, it was unset, and the version sorts before the protocol version. The newer flag flips exactly in the mirror case. A set flag stays set. |
| Properties.JoinIdempotent | ndsi/network.py:121-127 | A repeated JOIN changes nothing. Each warning fires at most once. |
| Properties.GroupParts | ndsi/network.py:118-120 | In "pupil-mobile-v" + rest, the family is "pupil-mobile" and the version is rest up to its own first "-v". |
| Properties.OlderBySpelling | ndsi/network.py:118-124 | With protocol version "4", a peer in "pupil-mobile-v10" sets the older-version warning. |
| Properties.NewerBySpelling | ndsi/network.py:118-127 | With protocol version "4", a peer in "pupil-mobile-v40" sets the newer-version warning. |
| Properties.HandleConsumesOne | ndsi/network.py:79-83 | With no waiting event on a running node, nothing happens. Otherwise exactly the first event is consumed, and format, version, callbacks and the session are kept. |
| Properties.HandleKeepsWarnings | ndsi/network.py:122-127 | A set warning flag stays set through every event. |
| Properties.Feed | ndsi/network.py:79-111 | Handling a sequence of events one after another keeps the dict consistent. |
| Properties.Says | ndsi/network.py:99-106 | What one message says about a uuid on its own: an attach naming it says registered, a detach naming it says not registered. |
| Properties.LastSays | ndsi/network.py:99-106 | The reference answer for a history of messages: the last attach or detach naming the uuid decides. |
| Properties.DeliverKeepsWellFormed | ndsi/network.py:143-176 | Delivering a stamped event keeps the registry invariant: no subject, its own uuid, and a host stamp. |
| Properties.ExitFromKeepsWellFormed | ndsi/network.py:131-139 | The EXIT loop keeps the registry invariant. |
| Properties.RejoinFromKeepsWellFormed | ndsi/network.py:63-69 | The rejoin loop keeps the registry invariant. |
| Properties.HandleKeepsWellFormed | ndsi/network.py:79-141 | Every event keeps the registry invariant. |
| Properties.RejoinKeepsWellFormed | ndsi/network.py:62-71 | `rejoin` keeps the registry invariant. |
| Properties.ExitFromFrozen | ndsi/network.py:131-139 | Without the own handler, the EXIT loop leaves the registry unchanged. |
| Properties.FrozenWithoutOwnHandler | ndsi/network.py:79-145 | Once the list lacks the own handler, no event changes the registry. |
| Properties.MsgStep | ndsi/network.py:84-111 | One message, with the own handler listed, keeps the registry invariant and the callback list. Afterwards the uuid is registered exactly as that message says, including a dropped duplicate attach and a dropped unknown detach. |
| Properties.RegistryFollowsLastMessage | ndsi/network.py:84-111 | After any sequence of messages, with the own handler listed, a uuid is registered exactly when the last attach or detach naming it was an attach. When none names it, it is registered exactly when it was before. |
| Properties.BadEncodingEscapesAsWritten | ndsi/network.py:86-95 | As written, a frame that is not valid UTF-8 raises UnboundLocalError. The corrected branch drops it. |
| Properties.SetterAsWrittenLosesDetach | ndsi/network.py:209-213 | After the setter as written, an attach reaches the callables but is not stored, a repeat is delivered again, and the matching detach is dropped. |
| Properties.SetterKeepsRoundTrip | ndsi/network.py:209-213 | After the corrected setter, the attach and detach round trip holds with the new callables. |
| GroupNode.SensorTypeOf | ndsi/network.py:154 | `sensor_settings.get("sensor_type", "unknown")`: the stored type when the record names one, otherwise "unknown". |
| GroupNode.NetworkNode.constructor | ndsi/network.py:37-46 | A new node has an empty registry, its own handler first and then the user callables, both warnings unset, and no session. |
| GroupNode.NetworkNode.OnEvent | ndsi/network.py:167-176 | The method changes the registry as `Registered` says, and nothing else. |
| GroupNode.NetworkNode.ExecuteCallbacks | ndsi/network.py:143-145 | The loop's new state is `Deliver` of the old one. |
| GroupNode.NetworkNode.HasEvents | ndsi/network.py:181-183 | The node's `has_events` agrees with that of its model state, and it holds only on a running node. |
| GroupNode.NetworkNode.Receive | ndsi/network.py:181-187 | Only a running session queues a received event. |
| GroupNode.NetworkNode.HandleEvent | ndsi/network.py:79-141 | The new state and outcome are `Handle` of the old state, and the registry invariant is kept. |
| GroupNode.NetworkNode.DetachHost | ndsi/network.py:129-139 | The loop over the key snapshot, reading each record live, ends in the state and outcome of `ExitFrom`. |
| GroupNode.NetworkNode.Rejoin | ndsi/network.py:62-71 | The new state and outcome are `Rejoin` of the old state, and the registry invariant is kept. |
| GroupNode.NetworkNode.LeaveOrJoin | ndsi/network.py:70-75 | The outcome of a leave or join is `GroupCall` of the state: it fails without a session or with an unknown format, and otherwise succeeds. |
| GroupNode.NetworkNode.Start | ndsi/network.py:52-60 | The new state and outcome are `Start` of the old state: a fresh session, whose join raises for an unknown format. |
| GroupNode.NetworkNode.Stop | ndsi/network.py:73-77 | The new state and outcome are `Stop` of the old state: leave the group, then drop the session. |
| GroupNode.NetworkNode.Sensor | ndsi/network.py:147-165 | An unregistered uuid is exactly the not-available error. An unknown or unsupported type is the unsupported-type error, with the type defaulting to "unknown". A supported type whose stored record has a field named `format`, `context` or `callbacks` is a keyword clash, and a clash always names such a field. Otherwise the result is the stored settings with the node's format and the given callables. |
| Aggregator.Apply | ndsi/network.py:223-237 | One node's step keeps its dict consistent. A start always leaves a session with nothing waiting. A stop that succeeds leaves none. Neither touches the registry or the log. |
| Aggregator.Sequenced | ndsi/network.py:223-237 | The loop over the nodes yields one state per node. |
| Aggregator.FanOut | ndsi/network.py:223-237 | The fan-out yields one state per node. It completes exactly when no node's own step raises, and then each node holds its own step. |
| Aggregator.SequencedDone | ndsi/network.py:223-237 | The loop over the nodes completes exactly when no node raises, and then every node has taken its own step. |
| Aggregator.SequencedCompleted | ndsi/network.py:223-237 | A loop in which no node raised ends with each node's own step. |
| Aggregator.SequencedEnded | ndsi/network.py:223-237 | A loop ended by node i's exception leaves nodes before i stepped, node i in its raising state, and later nodes untouched, and it re-raises. |
| Aggregator.Network.constructor | ndsi/network.py:190-203 | There is one fresh node per supported format, in order, each built with the user callables, and the aggregator keeps those callables. |
| Aggregator.Network.SetCallbacks | ndsi/network.py:209-213 | The setter as written keeps the value and makes every node's list exactly the new callables, so no node keeps its own handler. Everything else is unchanged. |
| Aggregator.Network.SetCallbacksKeepingHandler | ndsi/network.py:209-213 | The corrected setter keeps the value and gives every node its own handler followed by the new callables. Everything else is unchanged. |
| Aggregator.Network.Step | ndsi/network.py:223-237 | One node's operation moves that node to its own step and leaves every other node unchanged. |
| Aggregator.Network.Fan | ndsi/network.py:223-237 | Looping one operation over the nodes ends in the states and outcome of `FanOut` of the old states. |
| Aggregator.Network.Start | ndsi/network.py:223-225 | `start` is the fan-out of node `start`. |
| Aggregator.Network.Stop | ndsi/network.py:231-233 | `stop` is the fan-out of node `stop`. |
| Aggregator.Network.Rejoin | ndsi/network.py:227-229 | `rejoin` is the fan-out of node `rejoin`. |
| Aggregator.Network.HandleEvent | ndsi/network.py:235-237 | `handle_event` is the fan-out of node `handle_event`. |
| Aggregator.Network.Running | ndsi/network.py:219-221 | The aggregator is running exactly when some node's state is running, and never with no nodes. |
| Aggregator.Network.HasEvents | ndsi/network.py:215-221 | The aggregator has events exactly when some node's state has events, and then it is running. |
| Aggregator.Network.Sensor | ndsi/network.py:239-243 | No node holding the uuid is exactly the not-available error. Otherwise the result is the first holder's own `sensor`, in node order. |

## Left out

- Transport: the Pyre/ZeroMQ session is modelled as the `running` flag and a
  queue of received events. `NetworkNode.Receive` is the transport delivering
  one event. Node names, headers, peer discovery and socket polling are not modelled.
- JSON decoding and UTF-8 decoding are not modelled. A payload arrives already
  classified as `Decoded`: no frame, bad encoding, bad JSON, a non-mapping, or a mapping.
- Values: only strings, integers and null are modelled. Floats, booleans,
  nested lists and dicts are not. So Python's cross-type equalities
  (`True == 1`) and unhashable uuids (a TypeError) are not modelled.
- User callbacks are opaque observers. A call is recorded in the ghost log.
  A callback that raises, or that changes the node, is not modelled.
- The sensor classes of `SENSOR_TYPE_CLASS_MAP` are not part of this model. The
  parameter `supported` is the set of type names that table knows.
  `GroupNode.NetworkNode.Sensor` returns the constructor arguments instead of building a sensor.
- GroupNode.NetworkNode.Sensor: when a stored record holds several of
  `format`, `context` and `callbacks`, the name reported in `KeywordClash` is
  checked in that fixed order. The exact name CPython reports is not tied to it.
- `DataFormat.supported_formats()` is the constructor parameter `formats`, and
  `__protocol_version__` is the parameter `protocolVersion`.
- Logging, `__str__`, the `context`, the `name` and `headers` fields, and the
  `group` property as its own member are not modelled. The group name is used
  through `Formats.GroupNameFromFormat`.
- GroupNode.NetworkNode.ExecuteCallbacks and OnEvent require `subject` and
  `sensor_uuid` in the event. In the source, only events that meet this reach
  them, and a missing key would raise KeyError.
- The JOIN gate splits on every "-v" and uses the first two pieces, as the code
  does. Splitting on the last "-v" instead would differ for group names with
  two occurrences.
- Interpreter.Handle, Interpreter.Process and GroupNode.NetworkNode.HandleEvent
  use the corrected message branch `Interpreter.Interpret`. On a frame that is not
  valid UTF-8 they drop the message. The code as written raises UnboundLocalError
  there, which `Interpreter.InterpretAsWritten` states (see Findings).
- Properties.ExitFromLog, Properties.ExitFromRegistry, Properties.ExitDetachesOwned,
  Properties.RejoinFromLog, Properties.RejoinFromRegistry,
  Properties.RejoinDetachesAll and Properties.RejoinEmptiesRegistry require a
  `sensor_name` in every stored record the loop reads. For EXIT that means every
  record of the departing host. Without it the code raises KeyError mid-loop
  (lines 67 and 137). `Interpreter.ExitFrom` and `Interpreter.RejoinFrom` model
  that raise, and the invariant lemmas cover it, but these lemmas promise nothing
  about it.
- Properties.Feed hands the events straight to `Interpreter.Process`. The queue
  of waiting events that `handle_event` takes them from is covered by
  `Properties.HandleConsumesOne`.
- Aggregator.Network.SetCallbacks: the code installs the one list object `value`
  in the aggregator and in every node, so a later in-place change to that list
  reaches every node. The model copies the value into each node's own sequence,
  so that aliasing is not modelled.
- Interpreter.Start: the fresh session drops anything queued before, and a
  start on a running node replaces its session without leaving the old group.

## Findings

| source | as written | input that shows it | evidently intended | confidence | as-written member | corrected member |
|---|---|---|---|---|---|---|
| ndsi/network.py:86-95 | `event.msg.pop(0).decode()` raises UnicodeDecodeError, a ValueError. Its handler formats `msg`, which was never assigned, so UnboundLocalError escapes `handle_event`. | A SHOUT whose first frame is the single byte 0xff. | Drop the malformed message with a warning, as for bad JSON. | not executed | Interpreter.InterpretAsWritten, Properties.BadEncodingEscapesAsWritten | Interpreter.Interpret |
| ndsi/network.py:209-213 | The `callbacks` setter replaces each node's list with `value`, which removes the node's own `on_event`. The registry then never changes again. | Set `network.callbacks = [f]`, then receive an attach and a detach for one uuid: `f` sees the attach, the attach again on a repeat, and never sees the detach. | Keep `on_event` first, as the node constructor does (line 44). | not executed | Interpreter.ReplaceCallbacksAsWritten, Aggregator.Network.SetCallbacks, Properties.SetterAsWrittenLosesDetach | Interpreter.ReplaceCallbacks, Aggregator.Network.SetCallbacksKeepingHandler, Properties.SetterKeepsRoundTrip |
