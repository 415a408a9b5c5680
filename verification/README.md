# Slack Socket Mode client: a Dafny model of the connection driver

This project models the core of a small Rust client for Slack's Socket Mode. The
client trades an app token for a single-use WebSocket URL (`open_connection`),
connects, and runs a receive loop (`run`). The loop answers pings. It
acknowledges every events API envelope before handing its payload to the
caller's handler. It passes each `hello` message to the handler. It stops on a
`disconnect` message, a close frame, the end of the stream or a transport error.

The model is purely functional. All I/O is replaced by parameters:

- **Inbound stream**: a `seq<Frame>`. A text frame arrives already decoded, as an
  `Option<Message>`; `None` stands for a JSON decode failure.
- **Answers to sends**: a map `failing` from send-attempt number to error. The
  k-th send of the run (ack or pong, counting from 0) fails with `failing[k]` when
  k is a key, and succeeds otherwise.
- **Open-connection reply**: an `HttpReply`. It is either an HTTP client failure
  or the decoded `{ok, url, error}` body.
- **Transport setup**: an `Establish` value. It covers URL parsing, TCP connect,
  TLS and the WebSocket upgrade. URL parsing is a pure function of the reply's
  URL, but it belongs to another library. So whether it succeeds is a free
  parameter, chosen independently of the URL. A bad URL, a TCP failure and a TLS
  failure each map to their own `RunError`. A failed upgrade becomes
  `WebSocketError`, the same variant as a transport error inside the loop.

The loop's output is a `Loop`: an ordered trace of `Effect`s plus an `Exit`.
Effects are handler calls (`OnHello`, `OnEventsApi`) and attempted sends
(`SendAck`, `SendPong`). The exit says why the loop stopped. `Outcome` maps the
exit to the client's `Result<DisconnectReason, RunError>`.

The loop is defined in two layers. `SocketMode.Drive` is the loop skeleton: it
runs any per-frame dispatch over the stream. `SocketMode.Dispatch` is the
client's per-frame behaviour. `Receive`/`Listen` combine the two. Properties that
only depend on the skeleton are proved for every dispatch, then instantiated.
The loop as the client writes it (`SocketMode.ReceiveLoop`, a `while` loop) is
proved equal to this reference definition.

Modules:

- `Wrappers` (wrappers.dfy): `Option` and `Result`.
- `Protocol` (protocol.dfy): the decoded message kinds and the acknowledgment record.
- `Connection` (connection.dfy): `open_connection`, covering the bearer header and reply classification.
- `SocketMode` (socket_mode.dfy): the outcome types, the receive loop and the whole `run`.
- `ReceiveProperties` (receive_properties.dfy): trace and ordering lemmas about the loop.

Points where the code's behaviour is easy to misread:

- A `disconnect` with an empty reason string becomes `Other("")`; only the exact
  string `refresh_requested` becomes `RefreshRequested` (src/lib.rs:82-85).
- The acknowledgment is sent strictly before the handler is called, and the
  handler is not called if that send fails (src/lib.rs:88-97).
- src/lib.rs matches on `Message::EventsApi { envelope_id, payload }` and builds
  a `protocol::Acknowledge`; the model adds both, as the `EventsApi` variant and
  an `Acknowledge(envelopeId, payload: Option<string>)` record, with the event
  payload kept opaque. src/protocol.rs is not part of this model.

## Model

| member | source | states |
|---|---|---|
| Connection.BearerHeader | src/lib.rs:128-130 | The Authorization value is `"Bearer "` followed by the token verbatim; its length is the token's length plus 7 |
| Connection.BearerRoundTrip | src/lib.rs:128-130 | The token can be read back out of the header exactly |
| Connection.BearerTokenInverse | src/lib.rs:128-130 | Every bearer-shaped Authorization value is the header of the token it carries |
| Connection.BearerHeaderInjective | src/lib.rs:128-130 | Distinct tokens give distinct headers |
| Connection.Classify | src/lib.rs:138-142 | A reply is a success exactly when `ok` is true; a success yields the reply's URL, and a failure yields the reply's error string (present or not) unchanged |
| Connection.ClassifyResponseFor | src/lib.rs:138-142 | Every classification arises from some reply, and is recovered exactly from it |
| Connection.ClassifyIgnoresOtherField | src/lib.rs:138-142 | A success ignores any error string; a failure ignores any URL |
| Connection.OpenConnection | src/lib.rs:121-143 | The request goes to the open-connection endpoint with the token's bearer header. An HTTP failure is returned as the outer error. Otherwise the inner result is the reply's URL when `ok` is true, and the reply's error string (present or not) unchanged when it is false. A success without a URL is excluded, since the client panics on it |
| SocketMode.ReasonOf | src/lib.rs:81-86 | `RefreshRequested` exactly when the reason is `"refresh_requested"`; `Other(reason)` verbatim otherwise; never `Unknown` |
| SocketMode.ReasonRoundTrip | src/lib.rs:81-86 | The translation loses no reason string |
| SocketMode.Outcome | src/lib.rs:71-115 | The run ends `Ok(Unknown)` exactly when the loop ran out of frames or got a close frame. It ends in an error exactly when the transport failed, and that error is `WebSocketError` carrying the transport's error. A Disconnect yields `Ok` of the reason as `ReasonOf` translates it |
| SocketMode.DispatchMessage | src/lib.rs:73-98 | The dispatch of one decoded text message. It has no contract of its own; DispatchMessageCases states its behaviour, and the trace lemmas below are about it |
| SocketMode.DispatchMessageCases | src/lib.rs:73-98 | A Hello gives one hello handler call with its fields unchanged and goes on. A Disconnect gives no effect and stops with its reason. An envelope first gives an ack with its id and no payload; then, exactly when that send succeeds, its payload goes to the handler and the loop goes on; otherwise the loop stops with the send's error |
| SocketMode.Dispatch | src/lib.rs:72-112 | The dispatch of one frame. It has no contract of its own; DispatchCases states its behaviour, HandleFrame is proved equal to it, and the trace lemmas below are about it |
| SocketMode.DispatchCases | src/lib.rs:72-112 | A decoded text frame is dispatched as its message. A frame stops the loop exactly when it is a close frame, a stream error, a Disconnect, or a ping or envelope whose send failed. A failure carries the stream's or the send's error. A close frame adds no effect; a ping adds exactly a pong with its bytes; a binary frame, a pong or undecodable text adds nothing and the loop goes on |
| SocketMode.Drive | src/lib.rs:71-115 | The loop skeleton: frames are dispatched in order until one stops the loop or the stream ends. It has no contract of its own; DriveAppend and DriveThrough state its behaviour for any per-frame dispatch |
| SocketMode.Receive | src/lib.rs:71-115 | The client's loop over the frames still to come, after a given number of sends. It has no contract of its own; ReceiveAppend and ReceiveThrough state its behaviour |
| SocketMode.Listen | src/lib.rs:71-115 | The client's loop over a whole connection. It has no contract of its own; ReceiveLoop is proved equal to it, and the ReceiveProperties lemmas state its behaviour |
| SocketMode.SendCountOfStep | src/lib.rs:87-105 | A frame makes exactly one send attempt if it is a ping or a decoded events API message, and none otherwise |
| SocketMode.HandleFrame | src/lib.rs:72-112 | The body of the client's loop for one frame. Its effects, number of sends and early result are those of the per-frame dispatch |
| SocketMode.ReceiveLoop | src/lib.rs:71-115 | The client's `while let` loop yields exactly the trace and result of the reference definition of the loop |
| SocketMode.EstablishError | src/lib.rs:58-69 | Each failed setup step gives its own error, carrying the step's error unchanged. A bad URL gives `UrlParseError`, a TCP failure `TcpStreamConnectionError`, and a TLS failure `TlsConnectionError`. A failed upgrade gives `WebSocketError`, the variant a transport error in the loop also gives |
| SocketMode.Run | src/lib.rs:54-116 | The request carries the token. An HTTP failure, an API rejection (with its error string verbatim) and each failed setup step end the run with their own error, before any frame is read. The loop runs only after an `ok` reply and a successful setup; the client connects to the reply's URL, and the loop's trace and outcome are the run's |
| ReceiveProperties.DriveAppend | src/lib.rs:71-115 | Once a prefix of the stream ends the loop, no later frame is read. Otherwise the run over a longer stream is the prefix's trace followed by the run over the rest, with the prefix's sends counted. Holds for any per-frame dispatch |
| ReceiveProperties.ReceiveAppend | src/lib.rs:71-115 | The same decomposition for the client's own loop |
| ReceiveProperties.DriveThrough | src/lib.rs:71-113 | A run that reaches a frame consists of the prefix's trace, then that frame's effects given the answer to the next send, then (if the loop goes on) the rest of the run |
| ReceiveProperties.ReceiveThrough | src/lib.rs:71-113 | The same, for the client's own dispatch |
| ReceiveProperties.HelloCallsHandler | src/lib.rs:74-80 | A decoded Hello adds exactly one hello handler call, with the connection info, connection count and debug info unchanged. It sends nothing and the loop goes on |
| ReceiveProperties.DisconnectStops | src/lib.rs:81-86 | A Disconnect stops the run at once. It adds no effect, and the result is the translated reason. The run is the same whatever frames follow |
| ReceiveProperties.EventsApiAcksThenDispatches | src/lib.rs:87-97 | An envelope with id E adds an ack with id E and no payload. When that send succeeds, the payload goes to the handler right after it and the loop goes on. When it fails, the handler is not called and the run fails with the transport's error |
| ReceiveProperties.PingIsEchoed | src/lib.rs:103-105 | A Ping adds exactly one Pong with the same bytes and calls no handler. The loop goes on unless that send fails, and then the run fails with the transport's error |
| ReceiveProperties.CloseEndsUnknown | src/lib.rs:106-115 | A close frame ends the run with `Ok(Unknown)` and adds no effect |
| ReceiveProperties.ExhaustionEndsUnknown | src/lib.rs:71-115 | A stream that runs out without stopping the loop ends with `Ok(Unknown)`; appending a close frame changes neither the trace nor that result |
| ReceiveProperties.ReceiveErrorFails | src/lib.rs:71-72 | An error from the stream ends the run with that `WebSocketError` and adds no effect |
| ReceiveProperties.IgnoredFrameIsInvisible | src/lib.rs:99-111 | An undecodable text frame, a binary frame or a pong frame has no effect anywhere in the stream: the run with it equals the run without it |
| ReceiveProperties.AckPrecedesHandler | src/lib.rs:87-97 | In every trace, each events API handler call comes immediately after an ack with no payload, and that ack's send succeeded |
| ReceiveProperties.FailedSendEndsRun | src/lib.rs:87-105 | A send that fails is the last effect of the run, and the run fails with that send's error; so every earlier send succeeded |
| ReceiveProperties.PongsEchoPings | src/lib.rs:103-105 | The pongs sent carry the pings' bytes in arrival order; they are a prefix of the pings received, and all of them if the stream runs out |
| ReceiveProperties.AcksFollowEnvelopes | src/lib.rs:87-95 | Acks carry the envelope ids in arrival order; they are a prefix of the envelopes received, and all of them if the stream runs out |
| ReceiveProperties.PayloadsDispatchedInOrder | src/lib.rs:87-97 | The handler receives the event payloads in arrival order with none skipped or repeated; this is a prefix of the payloads received, and all of them if the stream runs out |
| ReceiveProperties.HellosDispatchedInOrder | src/lib.rs:74-80 | The hello handler calls match the Hello messages in arrival order, with their fields unchanged; they are a prefix of the Hellos received, and all of them if the stream runs out |

## Left out

- JSON decoding of frames and of the open-connection reply, and JSON encoding of the acknowledgment: these are derived serializers of a library. A text frame carries the decode result, and the reply arrives decoded. Whether an absent ack payload is omitted from the JSON is therefore not modelled.
- src/protocol/events_api.rs: passive event schema definitions. The payload stays opaque.
- The HTTP POST itself (src/lib.rs:132-136) and the TCP, TLS and WebSocket handshakes (src/lib.rs:62-69) are network I/O. Their outcomes are parameters (`HttpReply`, `Establish`), and their error details are opaque strings.
- URL parsing (src/lib.rs:58) is a pure string parse, but it lives in another library. Its success or failure is a free parameter of `Establish`, chosen independently of the URL, and its error is an opaque string.
- The panic when the parsed URL has no domain (src/lib.rs:59) is not modelled. It is not an outcome the caller can observe as a value.
- Connection.OpenConnection: an `ok: true` reply without a URL panics in the client. It is excluded by a precondition rather than modelled.
- Logging of undecodable and unsupported frames (src/lib.rs:100, 110) has no observable effect in the model.
- async scheduling, the handler's own side effects, and cancellation by the caller are left out; handler calls appear only as trace entries.
- The close frame's optional code and reason are ignored by the client, so the model's close frame carries no data.
- examples/simple.rs: a command-line caller that reads an environment variable and prints.
