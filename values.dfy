/** The values a node works with: decoded message fields, peer identities,
    raw transport events, callbacks, and the exceptions that can escape. */
module Values {

  /** A scalar JSON value as it appears in a decoded message. */
  datatype Value = Str(s: string) | Int(i: int) | Null

  /** A decoded message or a stored sensor record: a dict from field name to value. */
  type Record = map<string, Value>

  /** The transport's identity of a peer: `peer_uuid.hex` and `peer_name`. */
  datatype Peer = Peer(uuidHex: string, name: string)

  /** What decoding the first frame of a SHOUT/WHISPER yields. */
  datatype Decoded =
    | NoFrame              // the message has no frame to pop
    | BadEncoding          // the frame is not valid UTF-8
    | BadJson              // the text is not JSON
    | NotMapping           // JSON, but not an object (a list, a string, a number, null)
    | Mapping(fields: Record)

  /** One event as the transport hands it over. SHOUT and WHISPER are handled
      alike and share the constructor `Msg`. */
  datatype RawEvent =
    | Msg(peer: Peer, payload: Decoded)
    | Join(peer: Peer, group: string)
    | Exit(peer: Peer)
    | OtherEvent(kind: string)

  /** An entry of a node's callback list: the node's own `on_event`, or a user callable. */
  datatype Callback = OwnHandler | Observer(id: nat)

  /** One call `callback(node, event)`. */
  datatype Delivery = Delivery(to: Callback, event: Record)

  /** The exceptions that can escape the core. */
  datatype Error =
    | KeyError(key: Value)                 // a missing dict key
    | UnboundLocal(name: string)           // a local read before assignment
    | NoTransport                          // `self.pyre_node` is None
    | UnsupportedFormat                    // `group_name_from_format` rejects the format
    | NotAvailable(uuid: Value)            // no registered sensor has this uuid
    | UnsupportedSensorType(sensorType: Value)
    | KeywordClash(name: string)           // a stored field repeats an argument the sensor constructor is given

  /** How a call ends: normally, or with an exception. */
  datatype Outcome = Done | Raised(error: Error)

  datatype Result<T> = Ok(value: T) | Err(error: Error)

  /** The wire formats known to the naming table, and any other value a caller may pass. */
  datatype DataFormat = V3 | V4 | OtherFormat(name: string)

  const SUBJECT: string := "subject"
  const SENSOR_UUID: string := "sensor_uuid"
  const SENSOR_NAME: string := "sensor_name"
  const SENSOR_TYPE: string := "sensor_type"
  const HOST_UUID: string := "host_uuid"
  const HOST_NAME: string := "host_name"

  const ATTACH: Value := Str("attach")
  const DETACH: Value := Str("detach")

  /** The user callables `ids` as callback-list entries. */
  function Observers(ids: seq<nat>): (cbs: seq<Callback>)
    ensures |cbs| == |ids|
    ensures forall i :: 0 <= i < |ids| ==> cbs[i] == Observer(ids[i])
    ensures OwnHandler !in cbs
  {
    seq(|ids|, i requires 0 <= i < |ids| => Observer(ids[i]))
  }
}
