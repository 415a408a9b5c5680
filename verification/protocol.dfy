/**
  The typed Socket Mode messages the client decodes from text frames, and the
  acknowledgment record it sends back. Decoding itself is done by a JSON library
  and is not modelled: a text frame arrives already decoded (see SocketMode.Frame).
 */
module Protocol {
  import opened Wrappers

  /** Rust's `u32` and `u64`. */
  type u32 = x: int | 0 <= x < 0x1_0000_0000
  type u64 = x: int | 0 <= x < 0x1_0000_0000_0000_0000

  datatype ConnectionInfo = ConnectionInfo(appId: string)

  datatype DebugInfo = DebugInfo(
    host: string,
    started: Option<string>,
    buildNumber: Option<u32>,
    approximateConnectionTime: Option<u64>)

  /** The events API payload is only forwarded to the handler, so it stays opaque. */
  datatype EventsApiPayload = EventsApiPayload(json: string)

  /** One decoded inbound message; the wire `type` tag selects the variant. */
  datatype Message =
    | Hello(numConnections: u32, connectionInfo: ConnectionInfo, debugInfo: DebugInfo)
    | Disconnect(reason: string, debugInfo: DebugInfo)
    | EventsApi(envelopeId: string, payload: EventsApiPayload)

  /** The outbound acknowledgment of one events API envelope. */
  datatype Acknowledge = Acknowledge(envelopeId: string, payload: Option<string>)
}
