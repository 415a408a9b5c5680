/**
  The Socket Mode connection driver (`run` in the library root): the outcome
  types, the receive loop that dispatches each inbound WebSocket frame, and the
  whole run from the open-connection call to the loop's exit.

  The loop is modelled twice: `Receive` is the reference definition, a pure
  recursion over the inbound frames, and `ReceiveLoop` is the loop as the client
  writes it, proved to compute the same trace and result.
 */
module SocketMode {
  import opened Wrappers
  import opened Protocol
  import opened Connection

  type byte = x: int | 0 <= x < 256
  type Bytes = seq<byte>

  /** An error reported by the WebSocket layer; opaque. */
  datatype WsError = WsError(detail: string)

  /** One item the WebSocket stream yields. A text frame arrives already decoded: `None` when decoding failed. */
  datatype Frame =
    | Text(decoded: Option<Message>)
    | Binary(data: Bytes)
    | Ping(data: Bytes)
    | Pong(data: Bytes)
    | Close
    | ReceiveError(error: WsError)

  /** The observable effects of the loop, in order: handler calls and attempted sends. */
  datatype Effect =
    | OnHello(connectionInfo: ConnectionInfo, numConnections: u32, debugInfo: DebugInfo)
    | SendAck(ack: Acknowledge)
    | OnEventsApi(payload: EventsApiPayload)
    | SendPong(data: Bytes)

  datatype DisconnectReason = RefreshRequested | Other(reason: string) | Unknown

  datatype RunError =
    | HttpClientError(httpError: HttpError)
    | OpenConnectionApiError(apiError: Option<string>)
    | UrlParseError(parseError: string)
    | TcpStreamConnectionError(ioError: string)
    | TlsConnectionError(tlsError: string)
    | WebSocketError(wsError: WsError)

  /** Why the receive loop stopped. */
  datatype Exit = Exhausted | Closed | Disconnected(reason: string) | Failed(error: WsError)

  /** The effects of the loop and why it stopped. */
  datatype Loop = Loop(trace: seq<Effect>, exit: Exit)

  /**
    The transport's answer to each send: the k-th send attempt of the run
    (counting from 0) fails with `failing[k]` when k is a key, and succeeds otherwise.
   */
  type SendFailures = map<nat, WsError>

  const RefreshRequestedReason: string := "refresh_requested"

  /** The disconnect reason reported for the reason string of a Disconnect message. */
  function ReasonOf(reason: string): (d: DisconnectReason)
    ensures d == RefreshRequested <==> reason == "refresh_requested"
    ensures d != RefreshRequested ==> d == Other(reason)
    ensures d != Unknown
  {
    if reason == RefreshRequestedReason then RefreshRequested else Other(reason)
  }

  /** The reason string a disconnect reason stands for; Unknown stands for none. */
  function ReasonText(d: DisconnectReason): Option<string>
  {
    match d
    case RefreshRequested => Some(RefreshRequestedReason)
    case Other(reason) => Some(reason)
    case Unknown => None
  }

  /** No reason string is lost in the translation. */
  lemma {:induction false} ReasonRoundTrip(reason: string)
    ensures ReasonText(ReasonOf(reason)) == Some(reason)
  {
  }

  /** The run's result for the way the loop stopped. */
  function Outcome(exit: Exit): (r: Result<DisconnectReason, RunError>)
    ensures r == Ok(Unknown) <==> exit.Exhausted? || exit.Closed?
    ensures r.Err? <==> exit.Failed?
    ensures exit.Failed? ==> r.error == WebSocketError(exit.error)
    ensures exit.Disconnected? ==> r == Ok(ReasonOf(exit.reason))
  {
    match exit
    case Exhausted => Ok(Unknown)
    case Closed => Ok(Unknown)
    case Disconnected(reason) => Ok(ReasonOf(reason))
    case Failed(e) => Err(WebSocketError(e))
  }

  predicate IsSend(e: Effect)
  {
    e.SendAck? || e.SendPong?
  }

  /** The number of send attempts in a trace. */
  function SendCount(trace: seq<Effect>): nat
  {
    if trace == [] then 0 else (if IsSend(trace[0]) then 1 else 0) + SendCount(trace[1..])
  }

  function SendResult(failing: SendFailures, k: nat): Option<WsError>
  {
    if k in failing then Some(failing[k]) else None
  }

  /** The ways a frame can end the loop: every exit but running out of frames. */
  type Halt = exit: Exit | !exit.Exhausted? witness Closed

  /** What one frame makes the loop do: effects and either go on or stop. */
  datatype Step = Continue(effects: seq<Effect>) | Stop(effects: seq<Effect>, exit: Halt)

  /**
    Dispatch of one decoded text message, given the result of the ack it would
    send. DispatchMessageCases states what it does.
   */
  function DispatchMessage(message: Message, send: Option<WsError>): Step
  {
    match message
    case Hello(n, info, debug) => Continue([OnHello(info, n, debug)])
    case Disconnect(reason, _) => Stop([], Disconnected(reason))
    case EventsApi(id, payload) =>
      var ack := SendAck(Acknowledge(id, None));
      if send.Some? then Stop([ack], Failed(send.value)) else Continue([ack, OnEventsApi(payload)])
  }

  /**
    Dispatch of one frame, given the result of the send it would attempt.
    DispatchCases states what it does.
   */
  function Dispatch(frame: Frame, send: Option<WsError>): Step
  {
    match frame
    case Text(decoded) => if decoded.Some? then DispatchMessage(decoded.value, send) else Continue([])
    case Ping(data) =>
      if send.Some? then Stop([SendPong(data)], Failed(send.value)) else Continue([SendPong(data)])
    case Close => Stop([], Closed)
    case Binary(_) => Continue([])
    case Pong(_) => Continue([])
    case ReceiveError(e) => Stop([], Failed(e))
  }

  /**
    A Hello goes to its handler, a Disconnect stops the loop, and an envelope is
    acknowledged first and handed over only if that send succeeded.
   */
  lemma {:induction false} DispatchMessageCases(message: Message, send: Option<WsError>, s: Step)
    requires s == DispatchMessage(message, send)
    ensures s.Stop? <==> message.Disconnect? || (message.EventsApi? && send.Some?)
    ensures message.Hello? ==>
      s.effects == [OnHello(message.connectionInfo, message.numConnections, message.debugInfo)]
    ensures message.Disconnect? ==> s.effects == [] && s.exit == Disconnected(message.reason)
    ensures message.EventsApi? ==>
      |s.effects| >= 1 && s.effects[0] == SendAck(Acknowledge(message.envelopeId, None))
    ensures message.EventsApi? && send.None? ==> s.effects[1..] == [OnEventsApi(message.payload)]
    ensures message.EventsApi? && send.Some? ==> |s.effects| == 1 && s.exit == Failed(send.value)
  {
  }

  /**
    The loop stops on a close frame, a transport error, a failed send or a
    Disconnect; a ping is answered with a pong carrying its bytes; binary frames,
    pongs and undecodable text are skipped.
   */
  lemma {:induction false} DispatchCases(frame: Frame, send: Option<WsError>, s: Step)
    requires s == Dispatch(frame, send)
    ensures frame.Text? && frame.decoded.Some? ==> s == DispatchMessage(frame.decoded.value, send)
    ensures s.Stop? <==>
      frame.Close? || frame.ReceiveError? || (Replies(frame) && send.Some?)
      || (frame.Text? && frame.decoded.Some? && frame.decoded.value.Disconnect?)
    ensures s.Stop? && s.exit.Failed? ==>
      if frame.ReceiveError? then s.exit.error == frame.error else send == Some(s.exit.error)
    ensures frame.Close? ==> s == Stop([], Closed)
    ensures frame.Ping? ==> s.effects == [SendPong(frame.data)]
    ensures frame.Binary? || frame.Pong? || frame == Text(None) ==> s == Continue([])
  {
  }

  /** A per-frame dispatch: what a frame does, given the answer to the send it would attempt. */
  type Dispatcher = (Frame, Option<WsError>) -> Step

  /**
    The loop skeleton over the frames still to come, `sent` sends having been
    attempted before them: dispatch each frame in order until one stops the loop
    or the stream ends.
   */
  function Drive(dispatch: Dispatcher, frames: seq<Frame>, failing: SendFailures, sent: nat): Loop
    decreases |frames|
  {
    if frames == [] then Loop([], Exhausted)
    else
      match dispatch(frames[0], SendResult(failing, sent))
      case Stop(effects, exit) => Loop(effects, exit)
      case Continue(effects) =>
        var rest := Drive(dispatch, frames[1..], failing, sent + SendCount(effects));
        Loop(effects + rest.trace, rest.exit)
  }

  /** The client's receive loop over the frames still to come. */
  function Receive(frames: seq<Frame>, failing: SendFailures, sent: nat): Loop
  {
    Drive(Dispatch, frames, failing, sent)
  }

  /** The receive loop of a whole connection. */
  function Listen(frames: seq<Frame>, failing: SendFailures): Loop
  {
    Receive(frames, failing, 0)
  }

  /** A frame that sends something sends exactly once. */
  predicate Replies(frame: Frame)
  {
    frame.Ping? || (frame.Text? && frame.decoded.Some? && frame.decoded.value.EventsApi?)
  }

  lemma {:induction false} SendCountOfStep(frame: Frame, send: Option<WsError>)
    ensures SendCount(Dispatch(frame, send).effects) == if Replies(frame) then 1 else 0
  {
    var effects := Dispatch(frame, send).effects;
    if |effects| == 2 {
      SendCountOfOne(effects[1]);
      assert effects[1..] == [effects[1]];
      assert SendCount(effects) == 1;
    } else if |effects| == 1 {
      SendCountOfOne(effects[0]);
      assert effects == [effects[0]];
    }
  }

  lemma {:induction false} SendCountOfOne(e: Effect)
    ensures SendCount([e]) == if IsSend(e) then 1 else 0
  {
    assert [e][1..] == [];
  }

  lemma {:induction false} AppendAssoc<T>(a: seq<T>, b: seq<T>, c: seq<T>)
    ensures a + (b + c) == (a + b) + c
  {
  }

  /** Drive over a stream whose first frame `head` lets the loop go on into `tail`. */
  lemma {:induction false} DriveHead(dispatch: Dispatcher, frames: seq<Frame>, head: Frame, tail: seq<Frame>, failing: SendFailures, sent: nat,
                  effects: seq<Effect>, next: nat)
    requires frames != [] && frames[0] == head && frames[1..] == tail
    requires dispatch(head, SendResult(failing, sent)) == Continue(effects)
    requires next == sent + SendCount(effects)
    ensures var rest := Drive(dispatch, tail, failing, next);
      Drive(dispatch, frames, failing, sent) == Loop(effects + rest.trace, rest.exit)
  {
  }

  /** Drive at position i when frame i lets the loop go on. */
  lemma {:induction false} DriveContinues(dispatch: Dispatcher, frames: seq<Frame>, i: nat, failing: SendFailures, sent: nat, effects: seq<Effect>)
    requires i < |frames|
    requires dispatch(frames[i], SendResult(failing, sent)) == Continue(effects)
    ensures var rest := Drive(dispatch, frames[i + 1..], failing, sent + SendCount(effects));
      Drive(dispatch, frames[i..], failing, sent) == Loop(effects + rest.trace, rest.exit)
  {
    assert frames[i..][1..] == frames[i + 1..];
    DriveHead(dispatch, frames[i..], frames[i], frames[i + 1..], failing, sent, effects, sent + SendCount(effects));
  }

  /** Drive at position i when frame i stops the loop. */
  lemma {:induction false} DriveStops(dispatch: Dispatcher, frames: seq<Frame>, i: nat, failing: SendFailures, sent: nat, effects: seq<Effect>, exit: Halt)
    requires i < |frames|
    requires dispatch(frames[i], SendResult(failing, sent)) == Stop(effects, exit)
    ensures Drive(dispatch, frames[i..], failing, sent) == Loop(effects, exit)
  {
    assert frames[i..][0] == frames[i];
  }

  /**
    The body of the client's loop for one frame, with `sent` sends attempted
    so far: the effects it has, how many sends it made, and the run's result
    when the frame ends the loop.
   */
  method HandleFrame(frame: Frame, failing: SendFailures, sent: nat)
    returns (effects: seq<Effect>, sends: nat, done: Option<Result<DisconnectReason, RunError>>)
    ensures var step := Dispatch(frame, SendResult(failing, sent));
      && effects == step.effects
      && sends == SendCount(effects)
      && (done.None? <==> step.Continue?)
      && (done.Some? ==> done.value == Outcome(step.exit))
  {
    SendCountOfStep(frame, SendResult(failing, sent));
    effects, sends, done := [], 0, None;
    match frame {
      case ReceiveError(e) =>
        done := Some(Err(WebSocketError(e)));
      case Text(decoded) =>
        match decoded {
          case Some(Hello(n, info, debug)) =>
            effects := [OnHello(info, n, debug)];
          case Some(Disconnect(reason, _)) =>
            done := Some(Ok(if reason == RefreshRequestedReason then RefreshRequested else Other(reason)));
          case Some(EventsApi(id, payload)) =>
            var ack := SendAck(Acknowledge(id, None));
            sends := 1;
            if sent in failing {
              effects, done := [ack], Some(Err(WebSocketError(failing[sent])));
            } else {
              effects := [ack, OnEventsApi(payload)];
            }
          case None =>
        }
      case Ping(data) =>
        effects, sends := [SendPong(data)], 1;
        if sent in failing {
          done := Some(Err(WebSocketError(failing[sent])));
        }
      case Close =>
        done := Some(Ok(Unknown));
      case Binary(_) =>
      case Pong(_) =>
    }
  }

  /** The loop invariant: `trace` followed by what the rest of the stream yields is the whole run. */
  ghost predicate Resumes(dispatch: Dispatcher, frames: seq<Frame>, failing: SendFailures, i: nat, sent: nat, trace: seq<Effect>)
    requires i <= |frames|
  {
    var rest := Drive(dispatch, frames[i..], failing, sent);
    Drive(dispatch, frames, failing, 0) == Loop(trace + rest.trace, rest.exit)
  }

  /** A frame that stops the loop leaves the whole run's trace and exit. */
  lemma {:induction false} ResumesStop(dispatch: Dispatcher, frames: seq<Frame>, failing: SendFailures, i: nat, sent: nat,
                    trace: seq<Effect>, effects: seq<Effect>, exit: Halt)
    requires i < |frames| && Resumes(dispatch, frames, failing, i, sent, trace)
    requires dispatch(frames[i], SendResult(failing, sent)) == Stop(effects, exit)
    ensures Drive(dispatch, frames, failing, 0) == Loop(trace + effects, exit)
  {
    DriveStops(dispatch, frames, i, failing, sent, effects, exit);
  }

  /** A frame that lets the loop go on keeps the invariant. */
  lemma {:induction false} ResumesContinue(dispatch: Dispatcher, frames: seq<Frame>, failing: SendFailures, i: nat, sent: nat,
                        trace: seq<Effect>, effects: seq<Effect>)
    requires i < |frames| && Resumes(dispatch, frames, failing, i, sent, trace)
    requires dispatch(frames[i], SendResult(failing, sent)) == Continue(effects)
    ensures Resumes(dispatch, frames, failing, i + 1, sent + SendCount(effects), trace + effects)
  {
    DriveContinues(dispatch, frames, i, failing, sent, effects);
    AppendAssoc(trace, effects, Drive(dispatch, frames[i + 1..], failing, sent + SendCount(effects)).trace);
  }

  /**
    The loop as the client writes it: take frames until the stream ends, a close
    frame or a Disconnect arrives, or the transport fails. It yields the same
    effects and result as the reference definition.
   */
  method ReceiveLoop(frames: seq<Frame>, failing: SendFailures)
    returns (trace: seq<Effect>, result: Result<DisconnectReason, RunError>)
    ensures trace == Listen(frames, failing).trace
    ensures result == Outcome(Listen(frames, failing).exit)
  {
    trace := [];
    var sent := 0;
    var i := 0;
    while i < |frames|
      invariant i <= |frames|
      invariant Resumes(Dispatch, frames, failing, i, sent, trace)
    {
      ghost var step := Dispatch(frames[i], SendResult(failing, sent));
      var effects, sends, done := HandleFrame(frames[i], failing, sent);
      if done.Some? {
        ResumesStop(Dispatch, frames, failing, i, sent, trace, effects, step.exit);
        return trace + effects, done.value;
      }
      ResumesContinue(Dispatch, frames, failing, i, sent, trace, effects);
      trace, sent, i := trace + effects, sent + sends, i + 1;
    }
    result := Ok(Unknown);
  }

  /**
    How setting up the transport to the returned URL went: parsing the URL,
    the TCP connection to port 443, the TLS handshake, the WebSocket upgrade.
   */
  datatype Establish =
    | Connected
    | UrlInvalid(parseError: string)
    | TcpFailed(ioError: string)
    | TlsFailed(tlsError: string)
    | UpgradeFailed(wsError: WsError)

  /** The run error a failed setup step is reported as. */
  function EstablishError(establish: Establish): (e: RunError)
    requires !establish.Connected?
    ensures e.UrlParseError? <==> establish.UrlInvalid?
    ensures e.TcpStreamConnectionError? <==> establish.TcpFailed?
    ensures e.TlsConnectionError? <==> establish.TlsFailed?
    ensures e.WebSocketError? <==> establish.UpgradeFailed?
    ensures establish.UrlInvalid? ==> e.parseError == establish.parseError
    ensures establish.TcpFailed? ==> e.ioError == establish.ioError
    ensures establish.TlsFailed? ==> e.tlsError == establish.tlsError
    ensures establish.UpgradeFailed? ==> e.wsError == establish.wsError
  {
    match establish
    case UrlInvalid(e) => UrlParseError(e)
    case TcpFailed(e) => TcpStreamConnectionError(e)
    case TlsFailed(e) => TlsConnectionError(e)
    case UpgradeFailed(e) => WebSocketError(e)
  }

  /**
    A whole run: the open-connection request, the URL the client went on to
    connect to (if any), the receive loop's effects, and the result.
   */
  datatype Session = Session(
    request: Request,
    endpoint: Option<string>,
    trace: seq<Effect>,
    result: Result<DisconnectReason, RunError>)

  /**
    `run`: open a connection with the token, set up the transport, and run the
    receive loop. The server's reply, the setup outcome, the inbound frames and
    the answers to sends are the environment's, given as parameters.
   */
  function Run(token: string, reply: HttpReply, establish: Establish, frames: seq<Frame>, failing: SendFailures): (s: Session)
    requires WellFormedReply(reply)
    ensures BearerToken(s.request.authorization) == Some(token)
    ensures s.endpoint.Some? <==> reply.Received? && reply.response.ok
    ensures s.endpoint.Some? ==> s.endpoint == reply.response.url
    ensures s.trace != [] ==> s.endpoint.Some? && establish.Connected?
    ensures reply.Unreachable? ==> s.result == Err(HttpClientError(reply.failure))
    ensures reply.Received? && !reply.response.ok ==> s.result == Err(OpenConnectionApiError(reply.response.error))
    ensures s.endpoint.Some? && !establish.Connected? ==> s.result == Err(EstablishError(establish))
    ensures s.endpoint.Some? && establish.Connected? ==>
      s.trace == Listen(frames, failing).trace && s.result == Outcome(Listen(frames, failing).exit)
  {
    var exchange := OpenConnection(token, reply);
    match exchange.result
    case Err(e) => Session(exchange.request, None, [], Err(HttpClientError(e)))
    case Ok(Err(apiError)) => Session(exchange.request, None, [], Err(OpenConnectionApiError(apiError)))
    case Ok(Ok(url)) =>
      if !establish.Connected? then
        Session(exchange.request, Some(url), [], Err(EstablishError(establish)))
      else
        var loop := Listen(frames, failing);
        Session(exchange.request, Some(url), loop.trace, Outcome(loop.exit))
  }
}
