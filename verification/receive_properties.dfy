/**
  Properties of the Socket Mode receive loop (SocketMode.Receive): how a run
  over a longer stream extends a run over its prefix, what each kind of frame
  contributes to the trace, and the orderings every trace keeps.
 */
module ReceiveProperties {
  import opened Wrappers
  import opened Protocol
  import opened SocketMode

  /** Send attempts add up over concatenated traces. */
  lemma {:induction false} SendCountAppend(a: seq<Effect>, b: seq<Effect>)
    ensures SendCount(a + b) == SendCount(a) + SendCount(b)
  {
    if a != [] {
      assert (a + b)[0] == a[0];
      assert (a + b)[1..] == a[1..] + b;
      SendCountAppend(a[1..], b);
    } else {
      assert a + b == b;
    }
  }

  /** Entry k of `b` and the prefix before it, seen inside `a + b`. */
  lemma {:induction false} AppendAt<T>(a: seq<T>, b: seq<T>, k: nat)
    requires k < |b|
    ensures (a + b)[|a| + k] == b[k]
    ensures (a + b)[..|a| + k] == a + b[..k]
  {
  }

  /** Entry j of `a` and the prefix before it, seen inside `a + b`. */
  lemma {:induction false} PrefixAt<T>(a: seq<T>, b: seq<T>, j: nat)
    requires j < |a|
    ensures (a + b)[j] == a[j]
    ensures (a + b)[..j] == a[..j]
  {
  }

  /** The first element and the rest of `a + b`, for a nonempty `a`. */
  lemma {:induction false} ConsAppend<T>(a: seq<T>, b: seq<T>)
    requires a != []
    ensures (a + b)[0] == a[0]
    ensures (a + b)[1..] == a[1..] + b
  {
  }

  /** Once the frames of `pre` end the loop, the frames of `post` are never read. */
  lemma {:induction false} DriveAppendHalted(dispatch: Dispatcher, pre: seq<Frame>, post: seq<Frame>, failing: SendFailures, sent: nat)
    requires !Drive(dispatch, pre, failing, sent).exit.Exhausted?
    ensures Drive(dispatch, pre + post, failing, sent) == Drive(dispatch, pre, failing, sent)
    decreases |pre|
  {
    assert pre != [];
    ConsAppend(pre, post);
    var step := dispatch(pre[0], SendResult(failing, sent));
    if step.Continue? {
      DriveAppendHalted(dispatch, pre[1..], post, failing, sent + SendCount(step.effects));
    }
  }

  /** The run over `pre + post` after its first frame, which lets the loop go on. */
  lemma {:induction false} DriveAppendHead(dispatch: Dispatcher, pre: seq<Frame>, post: seq<Frame>, failing: SendFailures, sent: nat,
                        effects: seq<Effect>, next: nat)
    requires pre != [] && dispatch(pre[0], SendResult(failing, sent)) == Continue(effects)
    requires next == sent + SendCount(effects)
    ensures var rest := Drive(dispatch, pre[1..] + post, failing, next);
      Drive(dispatch, pre + post, failing, sent) == Loop(effects + rest.trace, rest.exit)
  {
    ConsAppend(pre, post);
    DriveHead(dispatch, pre + post, pre[0], pre[1..] + post, failing, sent, effects, next);
  }

  /**
    One step of DriveAppendExhausted: when the first frame of `pre` lets the
    loop go on and the claim holds for the rest of `pre`, it holds for `pre`.
   */
  lemma {:induction false} DriveAppendStep(dispatch: Dispatcher, pre: seq<Frame>, post: seq<Frame>, failing: SendFailures, sent: nat,
                        effects: seq<Effect>, next: nat)
    requires pre != [] && dispatch(pre[0], SendResult(failing, sent)) == Continue(effects)
    requires next == sent + SendCount(effects)
    requires var p' := Drive(dispatch, pre[1..], failing, next);
      var q := Drive(dispatch, post, failing, next + SendCount(p'.trace));
      Drive(dispatch, pre[1..] + post, failing, next) == Loop(p'.trace + q.trace, q.exit)
    ensures var p := Drive(dispatch, pre, failing, sent);
      var q := Drive(dispatch, post, failing, sent + SendCount(p.trace));
      Drive(dispatch, pre + post, failing, sent) == Loop(p.trace + q.trace, q.exit)
  {
    var p' := Drive(dispatch, pre[1..], failing, next);
    var q := Drive(dispatch, post, failing, next + SendCount(p'.trace));
    var p := Drive(dispatch, pre, failing, sent);
    DriveHead(dispatch, pre, pre[0], pre[1..], failing, sent, effects, next);
    DriveAppendHead(dispatch, pre, post, failing, sent, effects, next);
    SendCountShift(p.trace, effects, p'.trace, sent, next);
    JoinRuns(p, Drive(dispatch, pre + post, failing, sent), effects, p', q);
  }

  /** The sends of `effects + rest`, counted from `sent`, end where those of `rest` end counted from after `effects`. */
  lemma {:induction false} SendCountShift(trace: seq<Effect>, effects: seq<Effect>, rest: seq<Effect>, sent: nat, next: nat)
    requires trace == effects + rest && next == sent + SendCount(effects)
    ensures sent + SendCount(trace) == next + SendCount(rest)
  {
    SendCountAppend(effects, rest);
  }

  /** The run over `pre + post`, assembled from its parts. */
  lemma {:induction false} JoinRuns(p: Loop, whole: Loop, effects: seq<Effect>, p': Loop, q: Loop)
    requires p == Loop(effects + p'.trace, p'.exit)
    requires whole == Loop(effects + (p'.trace + q.trace), q.exit)
    ensures whole == Loop(p.trace + q.trace, q.exit)
  {
    AppendAssoc(effects, p'.trace, q.trace);
  }

  /** When the frames of `pre` do not end the loop, the run goes on into `post`. */
  lemma {:induction false} DriveAppendExhausted(dispatch: Dispatcher, pre: seq<Frame>, post: seq<Frame>, failing: SendFailures, sent: nat)
    requires Drive(dispatch, pre, failing, sent).exit.Exhausted?
    ensures var p := Drive(dispatch, pre, failing, sent);
      var q := Drive(dispatch, post, failing, sent + SendCount(p.trace));
      Drive(dispatch, pre + post, failing, sent) == Loop(p.trace + q.trace, q.exit)
    decreases |pre|
  {
    if pre == [] {
      assert pre + post == post;
    } else {
      var step := dispatch(pre[0], SendResult(failing, sent));
      assert step.Continue?;
      var next := sent + SendCount(step.effects);
      DriveHead(dispatch, pre, pre[0], pre[1..], failing, sent, step.effects, next);
      DriveAppendExhausted(dispatch, pre[1..], post, failing, next);
      DriveAppendStep(dispatch, pre, post, failing, sent, step.effects, next);
    }
  }

  /**
    The run over `pre + post`: when the frames of `pre` end the loop, the frames
    of `post` are never read; otherwise the run goes on into `post` with the
    sends of `pre` already counted. This holds of the loop skeleton whatever
    the per-frame dispatch.
   */
  lemma {:induction false} DriveAppend(dispatch: Dispatcher, pre: seq<Frame>, post: seq<Frame>, failing: SendFailures, sent: nat)
    ensures var p := Drive(dispatch, pre, failing, sent);
      !p.exit.Exhausted? ==> Drive(dispatch, pre + post, failing, sent) == p
    ensures var p := Drive(dispatch, pre, failing, sent);
      var q := Drive(dispatch, post, failing, sent + SendCount(p.trace));
      p.exit.Exhausted? ==> Drive(dispatch, pre + post, failing, sent) == Loop(p.trace + q.trace, q.exit)
  {
    if Drive(dispatch, pre, failing, sent).exit.Exhausted? {
      DriveAppendExhausted(dispatch, pre, post, failing, sent);
    } else {
      DriveAppendHalted(dispatch, pre, post, failing, sent);
    }
  }

  /** The client's loop over `pre + post`, as DriveAppend describes it. */
  lemma {:induction false} ReceiveAppend(pre: seq<Frame>, post: seq<Frame>, failing: SendFailures, sent: nat)
    ensures var p := Receive(pre, failing, sent);
      !p.exit.Exhausted? ==> Receive(pre + post, failing, sent) == p
    ensures var p := Receive(pre, failing, sent);
      var q := Receive(post, failing, sent + SendCount(p.trace));
      p.exit.Exhausted? ==> Receive(pre + post, failing, sent) == Loop(p.trace + q.trace, q.exit)
  {
    if Receive(pre, failing, sent).exit.Exhausted? {
      DriveAppendExhausted(Dispatch, pre, post, failing, sent);
    } else {
      DriveAppendHalted(Dispatch, pre, post, failing, sent);
    }
  }

  /** The frames of `pre` are all read and none of them ends the loop. */
  ghost predicate Reaches(pre: seq<Frame>, failing: SendFailures)
  {
    Listen(pre, failing).exit.Exhausted?
  }

  /**
    A run that reaches `frame` after `pre`: the effects of `pre`, then what the
    frame does with the answer to the next send, then (if the loop goes on)
    the run over `post`.
   */
  lemma {:induction false} DriveThrough(dispatch: Dispatcher, pre: seq<Frame>, frame: Frame, post: seq<Frame>, failing: SendFailures)
    requires Drive(dispatch, pre, failing, 0).exit.Exhausted?
    ensures var p := Drive(dispatch, pre, failing, 0);
      var step := dispatch(frame, SendResult(failing, SendCount(p.trace)));
      var q := Drive(dispatch, post, failing, SendCount(p.trace) + SendCount(step.effects));
      Drive(dispatch, pre + [frame] + post, failing, 0) ==
        if step.Continue? then Loop(p.trace + step.effects + q.trace, q.exit)
        else Loop(p.trace + step.effects, step.exit)
  {
    var p := Drive(dispatch, pre, failing, 0);
    var sent := SendCount(p.trace);
    assert pre + [frame] + post == pre + ([frame] + post);
    DriveAppend(dispatch, pre, [frame] + post, failing, 0);
    assert ([frame] + post)[0] == frame;
    assert ([frame] + post)[1..] == post;
    var step := dispatch(frame, SendResult(failing, sent));
    var q := Drive(dispatch, post, failing, sent + SendCount(step.effects));
    if step.Continue? {
      AppendAssoc(p.trace, step.effects, q.trace);
    }
  }

  /** DriveThrough for the client's own dispatch. */
  lemma {:induction false} ReceiveThrough(pre: seq<Frame>, frame: Frame, post: seq<Frame>, failing: SendFailures)
    requires Reaches(pre, failing)
    ensures var p := Listen(pre, failing);
      var step := Dispatch(frame, SendResult(failing, SendCount(p.trace)));
      var q := Receive(post, failing, SendCount(p.trace) + SendCount(step.effects));
      Listen(pre + [frame] + post, failing) ==
        if step.Continue? then Loop(p.trace + step.effects + q.trace, q.exit)
        else Loop(p.trace + step.effects, step.exit)
  {
    // The same proof in each case; the case split makes each branch's goal one side of the `if`.
    var step := Dispatch(frame, SendResult(failing, SendCount(Listen(pre, failing).trace)));
    if step.Continue? {
      DriveThrough(Dispatch, pre, frame, post, failing);
    } else {
      DriveThrough(Dispatch, pre, frame, post, failing);
    }
  }

  /**
    A decoded Hello calls the hello handler once with its fields unchanged,
    sends nothing, and the loop goes on.
   */
  lemma {:induction false} HelloCallsHandler(pre: seq<Frame>, n: u32, info: ConnectionInfo, debug: DebugInfo,
                          post: seq<Frame>, failing: SendFailures)
    requires Reaches(pre, failing)
    ensures var p := Listen(pre, failing);
      var q := Receive(post, failing, SendCount(p.trace));
      Listen(pre + [Text(Some(Hello(n, info, debug)))] + post, failing)
        == Loop(p.trace + [OnHello(info, n, debug)] + q.trace, q.exit)
  {
    ReceiveThrough(pre, Text(Some(Hello(n, info, debug))), post, failing);
    SendCountOfStep(Text(Some(Hello(n, info, debug))), SendResult(failing, SendCount(Listen(pre, failing).trace)));
  }

  /**
    A Disconnect ends the run at once: nothing is sent or dispatched for it or
    for any later frame, and the result is the translated reason.
   */
  lemma {:induction false} DisconnectStops(pre: seq<Frame>, reason: string, debug: DebugInfo, post: seq<Frame>, failing: SendFailures)
    requires Reaches(pre, failing)
    ensures var r := Listen(pre + [Text(Some(Disconnect(reason, debug)))] + post, failing);
      && r.trace == Listen(pre, failing).trace
      && Outcome(r.exit) == Ok(ReasonOf(reason))
      && r == Listen(pre + [Text(Some(Disconnect(reason, debug)))], failing)
  {
    var f := Text(Some(Disconnect(reason, debug)));
    ReceiveThrough(pre, f, post, failing);
    ReceiveThrough(pre, f, [], failing);
    assert pre + [f] + [] == pre + [f];
  }

  /**
    An events API envelope is acknowledged with its own id and no payload
    before its payload goes to the handler; if that send fails the handler is
    not called and the run fails with the transport's error.
   */
  lemma {:induction false} EventsApiAcksThenDispatches(pre: seq<Frame>, id: string, payload: EventsApiPayload,
                                    post: seq<Frame>, failing: SendFailures)
    requires Reaches(pre, failing)
    ensures var p := Listen(pre, failing);
      var k := SendCount(p.trace);
      var r := Listen(pre + [Text(Some(EventsApi(id, payload)))] + post, failing);
      var q := Receive(post, failing, k + 1);
      && (k !in failing ==>
            r == Loop(p.trace + [SendAck(Acknowledge(id, None)), OnEventsApi(payload)] + q.trace, q.exit))
      && (k in failing ==>
            r == Loop(p.trace + [SendAck(Acknowledge(id, None))], Failed(failing[k])))
  {
    var f := Text(Some(EventsApi(id, payload)));
    ReceiveThrough(pre, f, post, failing);
    SendCountOfStep(f, SendResult(failing, SendCount(Listen(pre, failing).trace)));
  }

  /**
    A Ping is answered by exactly one Pong carrying the same bytes; no handler
    is called. The loop goes on unless that send fails, which fails the run.
   */
  lemma {:induction false} PingIsEchoed(pre: seq<Frame>, data: Bytes, post: seq<Frame>, failing: SendFailures)
    requires Reaches(pre, failing)
    ensures var p := Listen(pre, failing);
      var k := SendCount(p.trace);
      var r := Listen(pre + [Ping(data)] + post, failing);
      var q := Receive(post, failing, k + 1);
      && (k !in failing ==> r == Loop(p.trace + [SendPong(data)] + q.trace, q.exit))
      && (k in failing ==> r == Loop(p.trace + [SendPong(data)], Failed(failing[k])))
  {
    ReceiveThrough(pre, Ping(data), post, failing);
    SendCountOfStep(Ping(data), SendResult(failing, SendCount(Listen(pre, failing).trace)));
  }

  /** A close frame ends the run with the reason Unknown, adding no effect. */
  lemma {:induction false} CloseEndsUnknown(pre: seq<Frame>, post: seq<Frame>, failing: SendFailures)
    requires Reaches(pre, failing)
    ensures var r := Listen(pre + [Close] + post, failing);
      r.trace == Listen(pre, failing).trace && Outcome(r.exit) == Ok(Unknown)
  {
    ReceiveThrough(pre, Close, post, failing);
  }

  /** A stream that ends without a close frame or a Disconnect ends the run with the reason Unknown. */
  lemma {:induction false} ExhaustionEndsUnknown(frames: seq<Frame>, failing: SendFailures)
    requires Reaches(frames, failing)
    ensures Outcome(Listen(frames, failing).exit) == Ok(Unknown)
    ensures Listen(frames + [Close], failing) == Loop(Listen(frames, failing).trace, Closed)
  {
    ReceiveThrough(frames, Close, [], failing);
    assert frames + [Close] + [] == frames + [Close];
  }

  /** An error from the stream ends the run with that error, adding no effect. */
  lemma {:induction false} ReceiveErrorFails(pre: seq<Frame>, e: WsError, post: seq<Frame>, failing: SendFailures)
    requires Reaches(pre, failing)
    ensures var r := Listen(pre + [ReceiveError(e)] + post, failing);
      r.trace == Listen(pre, failing).trace && Outcome(r.exit) == Err(WebSocketError(e))
  {
    ReceiveThrough(pre, ReceiveError(e), post, failing);
  }

  /** Frames the loop only logs: undecodable text, binary data and unsolicited pongs. */
  predicate Ignored(frame: Frame)
  {
    frame == Text(None) || frame.Binary? || frame.Pong?
  }

  /**
    An ignored frame is invisible: the run with it is the run without it,
    wherever it appears in the stream.
   */
  lemma {:induction false} IgnoredFrameIsInvisible(pre: seq<Frame>, frame: Frame, post: seq<Frame>, failing: SendFailures, sent: nat)
    requires Ignored(frame)
    ensures Receive(pre + [frame] + post, failing, sent) == Receive(pre + post, failing, sent)
  {
    assert pre + [frame] + post == pre + ([frame] + post);
    ReceiveAppend(pre, [frame] + post, failing, sent);
    ReceiveAppend(pre, post, failing, sent);
    assert ([frame] + post)[0] == frame;
    assert ([frame] + post)[1..] == post;
    assert [] + Receive(post, failing, sent + SendCount(Receive(pre, failing, sent).trace)).trace
      == Receive(post, failing, sent + SendCount(Receive(pre, failing, sent).trace)).trace;
  }

  /**
    Entry j of the trace, if it is an events API handler call, comes right
    after an acknowledgment with no payload whose send succeeded.
   */
  ghost predicate AckedAt(trace: seq<Effect>, failing: SendFailures, sent: nat, j: nat)
    requires j < |trace|
  {
    trace[j].OnEventsApi? ==>
      && 0 < j
      && trace[j - 1].SendAck?
      && trace[j - 1].ack.payload.None?
      && sent + SendCount(trace[..j - 1]) !in failing
  }

  /** Every events API handler call comes right after a successful acknowledgment with no payload. */
  ghost predicate AckedBeforeDispatch(trace: seq<Effect>, failing: SendFailures, sent: nat)
  {
    forall j | 0 <= j < |trace| :: AckedAt(trace, failing, sent, j)
  }

  /** AckedAt for the effects of one step, the step's own send being the first. */
  ghost predicate StepAckedAt(step: Step, send: Option<WsError>, j: nat)
    requires j < |step.effects|
  {
    step.effects[j].OnEventsApi? ==>
      && 0 < j
      && step.effects[j - 1].SendAck?
      && step.effects[j - 1].ack.payload.None?
      && SendCount(step.effects[..j - 1]) == 0
      && send.None?
  }

  ghost predicate StepAcksFirst(step: Step, send: Option<WsError>)
  {
    forall j | 0 <= j < |step.effects| :: StepAckedAt(step, send, j)
  }

  lemma {:induction false} DispatchAcksFirst(frame: Frame, send: Option<WsError>)
    ensures StepAcksFirst(Dispatch(frame, send), send)
  {
    var step := Dispatch(frame, send);
    if |step.effects| == 2 {
      assert step.effects[..0] == [];
      assert StepAckedAt(step, send, 1);
      assert StepAckedAt(step, send, 0);
    } else if |step.effects| == 1 {
      assert StepAckedAt(step, send, 0);
    }
  }

  /** A handler call among the effects of a step that acks first follows a successful ack. */
  lemma {:induction false} AckedHead(step: Step, rest: seq<Effect>, failing: SendFailures, sent: nat, j: nat)
    requires StepAcksFirst(step, SendResult(failing, sent))
    requires j < |step.effects|
    ensures AckedAt(step.effects + rest, failing, sent, j)
  {
    assert StepAckedAt(step, SendResult(failing, sent), j);
    PrefixAt(step.effects, rest, j);
    if 0 < j {
      PrefixAt(step.effects, rest, j - 1);
    }
  }

  /** A handler call after `effects` follows the successful ack the rest's own property names. */
  lemma {:induction false} AckedTail(effects: seq<Effect>, rest: seq<Effect>, failing: SendFailures, sent: nat, j: nat)
    requires AckedBeforeDispatch(rest, failing, sent + SendCount(effects))
    requires |effects| <= j < |effects| + |rest|
    ensures AckedAt(effects + rest, failing, sent, j)
  {
    var k := j - |effects|;
    var sent' := sent + SendCount(effects);
    assert AckedAt(rest, failing, sent', k);
    AppendAt(effects, rest, k);
    if 0 < k {
      AppendAt(effects, rest, k - 1);
      SendCountAppend(effects, rest[..k - 1]);
      AckedShift(effects + rest, rest, failing, sent, sent', j, k);
    } else {
      AckedShift(effects + rest, rest, failing, sent, sent', j, k);
    }
  }

  /** AckedAt carries over between two traces that agree at entries j and k and just before, with the same sends before. */
  lemma {:induction false} AckedShift(trace: seq<Effect>, rest: seq<Effect>, failing: SendFailures, sent: nat, sent': nat, j: nat, k: nat)
    requires k < |rest| && k <= j < |trace| && trace[j] == rest[k]
    requires 0 < k ==> trace[j - 1] == rest[k - 1] && sent + SendCount(trace[..j - 1]) == sent' + SendCount(rest[..k - 1])
    requires AckedAt(rest, failing, sent', k)
    ensures AckedAt(trace, failing, sent, j)
  {
  }

  /** The effects of a step that acks first, followed by a trace that does, ack first. */
  lemma {:induction false} AckedAppend(step: Step, rest: seq<Effect>, failing: SendFailures, sent: nat)
    requires StepAcksFirst(step, SendResult(failing, sent))
    requires AckedBeforeDispatch(rest, failing, sent + SendCount(step.effects))
    ensures AckedBeforeDispatch(step.effects + rest, failing, sent)
  {
    var trace := step.effects + rest;
    forall j | 0 <= j < |trace|
      ensures AckedAt(trace, failing, sent, j)
    {
      if j < |step.effects| {
        AckedHead(step, rest, failing, sent, j);
      } else {
        AckedTail(step.effects, rest, failing, sent, j);
      }
    }
  }

  lemma {:induction false} DriveAcksFirst(dispatch: Dispatcher, frames: seq<Frame>, failing: SendFailures, sent: nat)
    requires forall f, s :: StepAcksFirst(dispatch(f, s), s)
    ensures AckedBeforeDispatch(Drive(dispatch, frames, failing, sent).trace, failing, sent)
    decreases |frames|
  {
    if frames != [] {
      var step := dispatch(frames[0], SendResult(failing, sent));
      assert StepAcksFirst(step, SendResult(failing, sent));
      if step.Continue? {
        var sent' := sent + SendCount(step.effects);
        DriveAcksFirst(dispatch, frames[1..], failing, sent');
        AckedAppend(step, Drive(dispatch, frames[1..], failing, sent').trace, failing, sent);
      } else {
        AckedAppend(step, [], failing, sent);
        assert step.effects + [] == step.effects;
      }
    }
  }

  /**
    Each events API handler call comes right after a payload-less acknowledgment
    whose send succeeded. That this ack carries the same envelope's id is
    EventsApiAcksThenDispatches.
   */
  lemma {:induction false} AckPrecedesHandler(frames: seq<Frame>, failing: SendFailures)
    ensures AckedBeforeDispatch(Listen(frames, failing).trace, failing, 0)
  {
    forall f, s ensures StepAcksFirst(Dispatch(f, s), s) {
      DispatchAcksFirst(f, s);
    }
    DriveAcksFirst(Dispatch, frames, failing, 0);
  }

  /** Entry j of the run, if it is a send that fails, is the last effect, and the run fails with its error. */
  ghost predicate SettledAt(run: Loop, failing: SendFailures, sent: nat, j: nat)
    requires j < |run.trace|
  {
    IsSend(run.trace[j]) && sent + SendCount(run.trace[..j]) in failing ==>
      j + 1 == |run.trace| && run.exit == Failed(failing[sent + SendCount(run.trace[..j])])
  }

  /** A send that fails is the last effect of the run, and the run fails with its error. */
  ghost predicate SendFailureEndsRun(run: Loop, failing: SendFailures, sent: nat)
  {
    forall j | 0 <= j < |run.trace| :: SettledAt(run, failing, sent, j)
  }

  /** SettledAt for one step: its send comes first, and stops the loop if it fails. */
  ghost predicate StepSettledAt(step: Step, send: Option<WsError>, j: nat)
    requires j < |step.effects|
  {
    IsSend(step.effects[j]) ==>
      && SendCount(step.effects[..j]) == 0
      && (send.Some? ==> step.Stop? && j + 1 == |step.effects| && step.exit == Failed(send.value))
  }

  ghost predicate StepSendsLast(step: Step, send: Option<WsError>)
  {
    forall j | 0 <= j < |step.effects| :: StepSettledAt(step, send, j)
  }

  lemma {:induction false} DispatchSendsLast(frame: Frame, send: Option<WsError>)
    ensures StepSendsLast(Dispatch(frame, send), send)
  {
    var step := Dispatch(frame, send);
    assert step.effects[..0] == [];
    if |step.effects| == 2 {
      assert StepSettledAt(step, send, 1);
      assert StepSettledAt(step, send, 0);
    } else if |step.effects| == 1 {
      assert StepSettledAt(step, send, 0);
    }
  }

  /** A send among the effects of a step that goes on is not one that fails. */
  lemma {:induction false} SettledHead(step: Step, rest: Loop, failing: SendFailures, sent: nat, j: nat)
    requires step.Continue? && StepSendsLast(step, SendResult(failing, sent))
    requires j < |step.effects|
    ensures SettledAt(Loop(step.effects + rest.trace, rest.exit), failing, sent, j)
  {
    assert StepSettledAt(step, SendResult(failing, sent), j);
    PrefixAt(step.effects, rest.trace, j);
  }

  /** A failing send after `effects` is the one SendFailureEndsRun of the rest speaks of. */
  lemma {:induction false} SettledTail(effects: seq<Effect>, rest: Loop, failing: SendFailures, sent: nat, j: nat)
    requires SendFailureEndsRun(rest, failing, sent + SendCount(effects))
    requires |effects| <= j < |effects| + |rest.trace|
    ensures SettledAt(Loop(effects + rest.trace, rest.exit), failing, sent, j)
  {
    var run := Loop(effects + rest.trace, rest.exit);
    var k := j - |effects|;
    AppendAt(effects, rest.trace, k);
    SendCountAppend(effects, rest.trace[..k]);
    SettledShift(run, rest, failing, sent, sent + SendCount(effects), j, k);
  }

  /** SettledAt carries over between two runs that agree from entry j (resp. k) on, with the same sends before. */
  lemma {:induction false} SettledShift(run: Loop, rest: Loop, failing: SendFailures, sent: nat, sent': nat, j: nat, k: nat)
    requires k < |rest.trace| && j < |run.trace| && j + |rest.trace| == k + |run.trace|
    requires run.trace[j] == rest.trace[k] && run.exit == rest.exit
    requires sent + SendCount(run.trace[..j]) == sent' + SendCount(rest.trace[..k])
    requires SettledAt(rest, failing, sent', k)
    ensures SettledAt(run, failing, sent, j)
  {
  }

  lemma {:induction false} SendFailureAppend(step: Step, rest: Loop, failing: SendFailures, sent: nat)
    requires step.Continue? && StepSendsLast(step, SendResult(failing, sent))
    requires SendFailureEndsRun(rest, failing, sent + SendCount(step.effects))
    ensures SendFailureEndsRun(Loop(step.effects + rest.trace, rest.exit), failing, sent)
  {
    var run := Loop(step.effects + rest.trace, rest.exit);
    forall j | 0 <= j < |run.trace|
      ensures SettledAt(run, failing, sent, j)
    {
      if j < |step.effects| {
        SettledHead(step, rest, failing, sent, j);
      } else {
        SettledTail(step.effects, rest, failing, sent, j);
      }
    }
  }

  /** The effects of a step that stops the loop, as a whole run. */
  lemma {:induction false} StopSettled(step: Step, failing: SendFailures, sent: nat)
    requires step.Stop? && StepSendsLast(step, SendResult(failing, sent))
    ensures SendFailureEndsRun(Loop(step.effects, step.exit), failing, sent)
  {
    var run := Loop(step.effects, step.exit);
    forall j | 0 <= j < |run.trace|
      ensures SettledAt(run, failing, sent, j)
    {
      assert StepSettledAt(step, SendResult(failing, sent), j);
    }
  }

  lemma {:induction false} DriveSendsLast(dispatch: Dispatcher, frames: seq<Frame>, failing: SendFailures, sent: nat)
    requires forall f, s :: StepSendsLast(dispatch(f, s), s)
    ensures SendFailureEndsRun(Drive(dispatch, frames, failing, sent), failing, sent)
    decreases |frames|
  {
    if frames != [] {
      var step := dispatch(frames[0], SendResult(failing, sent));
      assert StepSendsLast(step, SendResult(failing, sent));
      if step.Continue? {
        var sent' := sent + SendCount(step.effects);
        DriveSendsLast(dispatch, frames[1..], failing, sent');
        SendFailureAppend(step, Drive(dispatch, frames[1..], failing, sent'), failing, sent);
      } else {
        StopSettled(step, failing, sent);
      }
    }
  }

  /**
    A failed acknowledgment or pong ends the run: nothing follows it in the
    trace and the run fails with the transport's error. So every send before
    the last effect succeeded.
   */
  lemma {:induction false} FailedSendEndsRun(frames: seq<Frame>, failing: SendFailures)
    ensures SendFailureEndsRun(Listen(frames, failing), failing, 0)
  {
    forall f, s ensures StepSendsLast(Dispatch(f, s), s) {
      DispatchSendsLast(f, s);
    }
    DriveSendsLast(Dispatch, frames, failing, 0);
  }

  /** The concatenation of what `f` picks out of each element, in order. */
  function Collect<X, T>(xs: seq<X>, f: X -> seq<T>): seq<T>
  {
    if xs == [] then [] else f(xs[0]) + Collect(xs[1..], f)
  }

  lemma {:induction false} CollectAppend<X, T>(a: seq<X>, b: seq<X>, f: X -> seq<T>)
    ensures Collect(a + b, f) == Collect(a, f) + Collect(b, f)
  {
    if a == [] {
      assert a + b == b;
    } else {
      assert (a + b)[0] == a[0];
      assert (a + b)[1..] == a[1..] + b;
      CollectAppend(a[1..], b, f);
    }
  }

  /**
    One step reports what `onFrame` picks out of its frame through the effects
    `onEffect` picks out: in full when the loop goes on, a prefix when it stops.
   */
  ghost predicate StepCollects<T>(frame: Frame, step: Step, onFrame: Frame -> seq<T>, onEffect: Effect -> seq<T>)
  {
    && Collect(step.effects, onEffect) <= onFrame(frame)
    && (step.Continue? ==> Collect(step.effects, onEffect) == onFrame(frame))
  }

  lemma {:induction false} DriveCollects<T>(dispatch: Dispatcher, frames: seq<Frame>, failing: SendFailures, sent: nat,
                                            onFrame: Frame -> seq<T>, onEffect: Effect -> seq<T>)
    requires forall f, s :: StepCollects(f, dispatch(f, s), onFrame, onEffect)
    ensures var run := Drive(dispatch, frames, failing, sent);
      && Collect(run.trace, onEffect) <= Collect(frames, onFrame)
      && (run.exit.Exhausted? ==> Collect(run.trace, onEffect) == Collect(frames, onFrame))
    decreases |frames|
  {
    if frames != [] {
      var step := dispatch(frames[0], SendResult(failing, sent));
      assert StepCollects(frames[0], step, onFrame, onEffect);
      var head := onFrame(frames[0]);
      var tail := Collect(frames[1..], onFrame);
      assert Collect(frames, onFrame) == head + tail;
      if step.Continue? {
        var sent' := sent + SendCount(step.effects);
        DriveCollects(dispatch, frames[1..], failing, sent', onFrame, onEffect);
        var rest := Drive(dispatch, frames[1..], failing, sent').trace;
        CollectAppend(step.effects, rest, onEffect);
        var got := Collect(rest, onEffect);
        assert got == tail[..|got|];
        assert head + got == (head + tail)[..|head| + |got|];
      } else {
        var got := Collect(step.effects, onEffect);
        assert got == head[..|got|];
        assert got == (head + tail)[..|got|];
      }
    }
  }

  function PingOf(frame: Frame): seq<Bytes>
  {
    if frame.Ping? then [frame.data] else []
  }

  function PongOf(effect: Effect): seq<Bytes>
  {
    if effect.SendPong? then [effect.data] else []
  }

  /** The events API message a frame carries, if any. */
  predicate IsEventsApi(frame: Frame)
  {
    frame.Text? && frame.decoded.Some? && frame.decoded.value.EventsApi?
  }

  function EnvelopeOf(frame: Frame): seq<string>
  {
    if IsEventsApi(frame) then [frame.decoded.value.envelopeId] else []
  }

  function AckOf(effect: Effect): seq<string>
  {
    if effect.SendAck? then [effect.ack.envelopeId] else []
  }

  function PayloadOf(frame: Frame): seq<EventsApiPayload>
  {
    if IsEventsApi(frame) then [frame.decoded.value.payload] else []
  }

  function DispatchedOf(effect: Effect): seq<EventsApiPayload>
  {
    if effect.OnEventsApi? then [effect.payload] else []
  }

  /** The hello handler call a frame asks for, if it is a decoded Hello. */
  function HelloOf(frame: Frame): seq<Effect>
  {
    if frame.Text? && frame.decoded.Some? && frame.decoded.value.Hello? then
      var m := frame.decoded.value;
      [OnHello(m.connectionInfo, m.numConnections, m.debugInfo)]
    else []
  }

  function HelloCallOf(effect: Effect): seq<Effect>
  {
    if effect.OnHello? then [effect] else []
  }

  lemma {:induction false} CollectPair<X, T>(a: X, b: X, f: X -> seq<T>)
    ensures Collect([a, b], f) == f(a) + f(b)
  {
    assert [a, b][1..] == [b];
    CollectOne(b, f);
  }

  lemma {:induction false} CollectOne<X, T>(a: X, f: X -> seq<T>)
    ensures Collect([a], f) == f(a)
  {
    assert [a][1..] == [];
    assert f(a) + [] == f(a);
  }

  /** Collect over at most two elements. */
  lemma {:induction false} CollectShort<X, T>(xs: seq<X>, f: X -> seq<T>)
    requires |xs| <= 2
    ensures Collect(xs, f) == if |xs| == 0 then [] else if |xs| == 1 then f(xs[0]) else f(xs[0]) + f(xs[1])
  {
    if |xs| == 2 {
      assert xs == [xs[0], xs[1]];
      CollectPair(xs[0], xs[1], f);
    } else if |xs| == 1 {
      assert xs == [xs[0]];
      CollectOne(xs[0], f);
    }
  }

  lemma {:induction false} DispatchPongs(frame: Frame, send: Option<WsError>)
    ensures StepCollects(frame, Dispatch(frame, send), PingOf, PongOf)
  {
    CollectShort(Dispatch(frame, send).effects, PongOf);
  }

  lemma {:induction false} DispatchAcks(frame: Frame, send: Option<WsError>)
    ensures StepCollects(frame, Dispatch(frame, send), EnvelopeOf, AckOf)
  {
    CollectShort(Dispatch(frame, send).effects, AckOf);
  }

  lemma {:induction false} DispatchPayloads(frame: Frame, send: Option<WsError>)
    ensures StepCollects(frame, Dispatch(frame, send), PayloadOf, DispatchedOf)
  {
    CollectShort(Dispatch(frame, send).effects, DispatchedOf);
  }

  lemma {:induction false} DispatchHellos(frame: Frame, send: Option<WsError>)
    ensures StepCollects(frame, Dispatch(frame, send), HelloOf, HelloCallOf)
  {
    CollectShort(Dispatch(frame, send).effects, HelloCallOf);
  }

  /**
    Pings are answered in the order they arrive, each pong carrying its ping's
    bytes: the pongs sent are a prefix of the pings received, all of them when
    the stream runs out.
   */
  lemma {:induction false} PongsEchoPings(frames: seq<Frame>, failing: SendFailures)
    ensures var run := Listen(frames, failing);
      && Collect(run.trace, PongOf) <= Collect(frames, PingOf)
      && (run.exit.Exhausted? ==> Collect(run.trace, PongOf) == Collect(frames, PingOf))
  {
    forall f, s ensures StepCollects(f, Dispatch(f, s), PingOf, PongOf) {
      DispatchPongs(f, s);
    }
    DriveCollects(Dispatch, frames, failing, 0, PingOf, PongOf);
  }

  /** Envelopes are acknowledged in the order they arrive, each with its own id. */
  lemma {:induction false} AcksFollowEnvelopes(frames: seq<Frame>, failing: SendFailures)
    ensures var run := Listen(frames, failing);
      && Collect(run.trace, AckOf) <= Collect(frames, EnvelopeOf)
      && (run.exit.Exhausted? ==> Collect(run.trace, AckOf) == Collect(frames, EnvelopeOf))
  {
    forall f, s ensures StepCollects(f, Dispatch(f, s), EnvelopeOf, AckOf) {
      DispatchAcks(f, s);
    }
    DriveCollects(Dispatch, frames, failing, 0, EnvelopeOf, AckOf);
  }

  /** Event payloads reach the handler in the order they arrive, none skipped or repeated. */
  lemma {:induction false} PayloadsDispatchedInOrder(frames: seq<Frame>, failing: SendFailures)
    ensures var run := Listen(frames, failing);
      && Collect(run.trace, DispatchedOf) <= Collect(frames, PayloadOf)
      && (run.exit.Exhausted? ==> Collect(run.trace, DispatchedOf) == Collect(frames, PayloadOf))
  {
    forall f, s ensures StepCollects(f, Dispatch(f, s), PayloadOf, DispatchedOf) {
      DispatchPayloads(f, s);
    }
    DriveCollects(Dispatch, frames, failing, 0, PayloadOf, DispatchedOf);
  }

  /** Hello messages reach the hello handler in the order they arrive, fields unchanged. */
  lemma {:induction false} HellosDispatchedInOrder(frames: seq<Frame>, failing: SendFailures)
    ensures var run := Listen(frames, failing);
      && Collect(run.trace, HelloCallOf) <= Collect(frames, HelloOf)
      && (run.exit.Exhausted? ==> Collect(run.trace, HelloCallOf) == Collect(frames, HelloOf))
  {
    forall f, s ensures StepCollects(f, Dispatch(f, s), HelloOf, HelloCallOf) {
      DispatchHellos(f, s);
    }
    DriveCollects(Dispatch, frames, failing, 0, HelloOf, HelloCallOf);
  }
}
