/** Every step of the client and the server keeps the whole invariant. */
module RpcSteps {
  import opened Bytes
  import opened Errors
  import opened Frames
  import opened Envelopes
  import opened Dispatcher
  import opened CppCodec
  import Exchanges
  import opened RpcConn
  import opened RpcRun
  import opened RpcBase
  import opened RpcIds

  /** The response is what the dispatcher makes of the request, for some run of the handler. */
  ghost predicate IsDispatch(cfg: Config, x: Exchange) {
    exists h :: x.response == Dispatch(cfg.services, x.request, h)
  }

  ghost predicate AllDispatched(cfg: Config, conns: seq<Conn>) {
    forall c, i :: 0 <= c < |conns| && 0 <= i < |conns[c].served| ==> IsDispatch(cfg, conns[c].served[i])
  }

  ghost predicate Inv(cfg: Config, s: State) {
    Base(cfg, s) && Ids(s) && AllDispatched(cfg, s.conns)
  }

  /** `Base` does not look at the histories. */
  lemma SameBase(cfg: Config, s: State, s1: State)
    requires Base(cfg, s)
    requires s1.transport == s.transport && s1.framed == s.framed && s1.codec == s.codec
    requires s1.owner == s.owner && s1.threads == s.threads && s1.conns == s.conns
    ensures Base(cfg, s1)
  {
    assert PhaseOf(s1) == PhaseOf(s);
  }

  ghost predicate SameServed(a: seq<Conn>, b: seq<Conn>) {
    && |a| <= |b|
    && (forall c :: 0 <= c < |a| ==> a[c].served == b[c].served)
    && (forall c :: |a| <= c < |b| ==> b[c].served == [])
  }

  lemma SameDispatched(cfg: Config, a: seq<Conn>, b: seq<Conn>)
    requires AllDispatched(cfg, a) && SameServed(a, b)
    ensures AllDispatched(cfg, b)
  {
    forall c, i | 0 <= c < |b| && 0 <= i < |b[c].served| ensures IsDispatch(cfg, b[c].served[i]) {
      assert b[c].served[i] == a[c].served[i];
    }
  }

  lemma DropGrown(s: State, why: Loss)
    ensures Grown(s.conns, DropHandles(s, why).conns) && SameServed(s.conns, DropHandles(s, why).conns)
  {
  }

  lemma OpenGrown(s: State)
    ensures Grown(s.conns, OpenConn(s).conns) && SameServed(s.conns, OpenConn(s).conns)
  {
  }

  // ---------------------------------------------------------------- the client's steps

  /** A thread without a request, or with its own, moves on without touching a connection. */
  lemma Move(cfg: Config, s: State, t: nat, pc: Pc)
    requires Inv(cfg, s) && t < |s.threads| && s.owner != Some(t) && !Holds(pc)
    requires HasRequest(pc) ==> HasRequest(s.threads[t]) && pc.request == s.threads[t].request
    requires Unsent(pc) ==> Unsent(s.threads[t])
    ensures Inv(cfg, SetPc(s, t, pc))
  {
    MoveKeeps(cfg, s, t, pc);
    MoveIds(s, SetPc(s, t, pc), t, pc);
  }

  lemma RefuseKeeps(cfg: Config, s: State, t: nat, call: Call)
    requires Inv(cfg, s) && Free(s, t)
    ensures Inv(cfg, Refuse(s, t, call))
  {
    var s1 := s.(refused := s.refused + [call]);
    SameBase(cfg, s, s1);
    GrownIds(s, s1);
    Move(cfg, s1, t, Idle);
  }

  /** `handle_disconnect` by a thread whose request is its own. */
  lemma DisconnectedKeeps(cfg: Config, s: State, t: nat, r: Envelope, cause: Cause)
    requires Inv(cfg, s) && t < |s.threads| && (s.owner.None? || s.owner == Some(t))
    requires Mine(s, t, r) && (!cause.RecvFailed? ==> NotWhole(s.conns, r.requestId))
    ensures Inv(cfg, Disconnected(s, t, r, cause))
  {
    var s1 := Disconnected(s, t, r, cause);
    DropKeeps(cfg, s, t, Notifying(r, cause), After(cause.err));
    DropGrown(s, After(cause.err));
    MoveIds(s, s1, t, Notifying(r, cause));
    SameDispatched(cfg, s.conns, s1.conns);
  }

  lemma StartSendInv(cfg: Config, s: State, t: nat, r: Envelope, retry: bool)
    requires Inv(cfg, s) && Free(s, t) && s.codec.Some?
    requires Mine(s, t, r) && NotWhole(s.conns, r.requestId)
    requires var k := s.conns[s.codec.value];
             forall i :: 0 <= i < |k.begun| ==> k.begun[i].requestId < r.requestId
    ensures Inv(cfg, StartSend(cfg, s, t, r, retry))
  {
    StartSendKeeps(cfg, s, t, r, retry);
    if Legal(cfg.wire.enc(r)) {
      BeginIds(s, t, s.codec.value, r, Sending(r, retry, 0));
      SameDispatched(cfg, s.conns, StartSend(cfg, s, t, r, retry).conns);
    } else {
      DisconnectedKeeps(cfg, s, t, r, SendCause(retry, FrameTooLarge));
    }
  }

  lemma BeginCallKeeps(cfg: Config, s: State, t: nat, call: Call)
    requires Inv(cfg, s) && Free(s, t) && CanBegin(s)
    ensures Inv(cfg, BeginCall(cfg, s, t, call))
  {
    var r := NewRequest(s, call);
    IssueKeeps(cfg, s, t, r);
    SameBase(cfg, s, Issue(s, r));
    StartSendInv(cfg, Issue(s, r), t, r, false);
  }

  lemma OpenInv(cfg: Config, s: State)
    requires Inv(cfg, s) && s.codec.None? && s.owner.None?
    ensures Inv(cfg, OpenConn(s))
  {
    OpenKeeps(cfg, s);
    OpenGrown(s);
    GrownIds(s, OpenConn(s));
    SameDispatched(cfg, s.conns, OpenConn(s).conns);
  }

  lemma EnterKeeps(cfg: Config, s: State, t: nat, call: Call)
    requires Inv(cfg, s) && Free(s, t)
    ensures Inv(cfg, EnterStep(cfg, s, t, call))
  {
    if s.codec.None? && cfg.reconnect.Some? && Attempts(cfg) > 0 {
      Move(cfg, s, t, FirstBackoff(call, 0));
    } else if s.codec.None? {
      RefuseKeeps(cfg, s, t, call);
    } else if CanBegin(s) {
      BeginCallKeeps(cfg, s, t, call);
    }
  }

  lemma FirstWakeKeeps(cfg: Config, s: State, t: nat, call: Call, attempt: nat, accepted: bool)
    requires Inv(cfg, s) && Free(s, t)
    ensures Inv(cfg, FirstWake(cfg, s, t, call, attempt, accepted))
  {
    if s.codec.Some? || !accepted {
      if attempt + 1 < Attempts(cfg) {
        Move(cfg, s, t, FirstBackoff(call, attempt + 1));
      } else {
        RefuseKeeps(cfg, s, t, call);
      }
    } else if CanBegin(OpenConn(s)) {
      OpenInv(cfg, s);
      BeginCallKeeps(cfg, OpenConn(s), t, call);
    }
  }

  /** A retried id is smaller than ids issued since, but it is the first on its connection: the
      thread opened that connection itself and still holds the lock. */
  lemma RetryWakeKeeps(cfg: Config, s: State, t: nat, r: Envelope, attempt: nat, err: Error, accepted: bool)
    requires Inv(cfg, s) && Free(s, t) && s.threads[t] == RetryBackoff(r, attempt, err)
    ensures Inv(cfg, RetryWake(cfg, s, t, r, attempt, err, accepted))
  {
    if s.codec.Some? || !accepted {
      if attempt + 1 < Attempts(cfg) {
        Move(cfg, s, t, RetryBackoff(r, attempt + 1, err));
      } else {
        FinishKeeps(cfg, s, t, r, SendError(err));
      }
    } else {
      var s1 := OpenConn(s);
      OpenInv(cfg, s);
      assert s1.threads[t] == s.threads[t];
      assert s1.conns[s1.codec.value].begun == [];
      StartSendInv(cfg, s1, t, r, true);
    }
  }

  /** A call returns without holding the lock across the step. */
  lemma FinishKeeps(cfg: Config, s: State, t: nat, r: Envelope, o: Outcome)
    requires Inv(cfg, s) && Free(s, t)
    requires HasRequest(s.threads[t]) && s.threads[t].request == r && OutcomeOk(s, r.requestId, o)
    ensures Inv(cfg, Finish(s, t, r, o))
  {
    FinishIds(s, t, r, o);
    MoveKeeps(cfg, s, t, Idle);
    SameBase(cfg, SetPc(s, t, Idle), Finish(s, t, r, o));
  }

  /** The kernel accepts some more bytes, or the last ones, of the frame. */
  lemma SentIds(cfg: Config, s: State, t: nat, n: nat)
    requires Ids(s) && CanSend(cfg, s, t, n)
    ensures Ids(Sent(cfg, s, t, n))
  {
    var Sending(r, retry, i) := s.threads[t];
    var f, c, j := FrameOf(cfg.wire, r), s.codec.value, i + n;
    var k := Accept(s.conns[c], r, f, i, j);
    assert Mine(s, t, r);
    if j < |f| {
      MoveIds(s, SetPc(SetConn(s, c, k), t, Sending(r, retry, j)), t, Sending(r, retry, j));
    } else {
      WholeIds(s, t, c, k, r);
    }
  }

  lemma SentDispatched(cfg: Config, s: State, t: nat, n: nat)
    requires AllDispatched(cfg, s.conns) && CanSend(cfg, s, t, n)
    ensures AllDispatched(cfg, Sent(cfg, s, t, n).conns)
  {
    SameDispatched(cfg, s.conns, Sent(cfg, s, t, n).conns);
  }

  lemma SentInv(cfg: Config, s: State, t: nat, n: nat)
    requires Inv(cfg, s) && CanSend(cfg, s, t, n)
    ensures Inv(cfg, Sent(cfg, s, t, n))
  {
    SentKeeps(cfg, s, t, n);
    SentIds(cfg, s, t, n);
    SentDispatched(cfg, s, t, n);
  }

  /** Responses can be sent, and answer their requests. */
  lemma DispatchSendable(cfg: Config, x: Exchange)
    requires IsDispatch(cfg, x) && Sendable(x.request)
    ensures Sendable(x.response) && x.response.requestId == x.request.requestId
  {
  }

  /** The response a client reads, if it decodes, is the one its own request was dispatched to. */
  lemma OwnResponse(cfg: Config, s: State, t: nat, n: nat, payload: bytes, rest: bytes)
    requires Faithful(cfg.wire) && Inv(cfg, s) && OnConn(s, t) && s.threads[t].Receiving?
    requires var k := s.conns[s.codec.value];
             && n <= Need(s.threads[t].part) && n <= |k.down|
             && ParseOne(s.threads[t].part + k.down[..n]) == Complete(payload, rest)
    ensures cfg.wire.dec(payload).Some? ==>
              && cfg.wire.dec(payload).value.requestId == s.threads[t].request.requestId
              && Answered(s, s.threads[t].request.requestId, cfg.wire.dec(payload).value)
  {
    var Receiving(r, part) := s.threads[t];
    var c := s.codec.value;
    var k := s.conns[c];
    ClientReadKeeps(cfg.wire, r, part, k, n);
    var x := Last(k.served);
    assert k.served[|k.served| - 1] == x;
    assert IsDispatch(cfg, x);
    assert Mine(s, t, r);
    DispatchSendable(cfg, x);
    ParseOneComplete(part + k.down[..n], payload, rest);
    assert Exchanges.Exchange(s.issued[r.requestId], x.response) == x;
  }

  lemma RecvMore(s: State, t: nat, r: Envelope, part: bytes, k: Conn)
    requires Ids(s) && OnConn(s, t) && s.threads[t].Receiving? && s.threads[t].request == r
    requires var k0 := s.conns[s.codec.value]; k.begun == k0.begun && k.whole == k0.whole && k.served == k0.served
    ensures Ids(SetPc(SetConn(s, s.codec.value, k), t, Receiving(r, part)))
  {
    assert Mine(s, t, r);
    MoveIds(s, SetPc(SetConn(s, s.codec.value, k), t, Receiving(r, part)), t, Receiving(r, part));
  }

  lemma RecvDone(s: State, t: nat, r: Envelope, response: Envelope, k: Conn)
    requires Ids(s) && OnConn(s, t) && s.threads[t].Receiving? && s.threads[t].request == r
    requires var k0 := s.conns[s.codec.value]; k.begun == k0.begun && k.whole == k0.whole && k.served == k0.served
    requires Answered(s, r.requestId, response)
    ensures Ids(Finish(SetConn(s, s.codec.value, k), t, r, Success(response)))
  {
    var s1 := SetConn(s, s.codec.value, k);
    GrownIds(s, s1);
    GrownAnswered(s, s1, r.requestId, response);
    FinishIds(s1, t, r, Success(response));
  }

  lemma RecvDropped(s: State, t: nat, r: Envelope, k: Conn, err: Error)
    requires Ids(s) && OnConn(s, t) && s.threads[t].Receiving? && s.threads[t].request == r
    requires var k0 := s.conns[s.codec.value]; k.begun == k0.begun && k.whole == k0.whole && k.served == k0.served
    ensures Ids(Disconnected(SetConn(s, s.codec.value, k), t, r, RecvFailed(err)))
  {
    var s1 := SetConn(s, s.codec.value, k);
    DropGrown(s1, After(err));
    assert Mine(s, t, r);
    MoveIds(s, Disconnected(s1, t, r, RecvFailed(err)), t, Notifying(r, RecvFailed(err)));
  }

  lemma RecvWhole(cfg: Config, s: State, t: nat, n: nat, payload: bytes, rest: bytes)
    requires Faithful(cfg.wire) && Inv(cfg, s) && OnConn(s, t) && s.threads[t].Receiving?
    requires var k := s.conns[s.codec.value];
             && 1 <= n <= Need(s.threads[t].part) && n <= |k.down|
             && ParseOne(s.threads[t].part + k.down[..n]) == Complete(payload, rest)
    ensures Ids(RecvStep(cfg, s, t, n))
  {
    var r, k := s.threads[t].request, s.conns[s.codec.value];
    OwnResponse(cfg, s, t, n, payload, rest);
    match cfg.wire.dec(payload)
    case None => RecvDropped(s, t, r, ClientRead(k, n), SerializationError);
    case Some(response) => RecvDone(s, t, r, response, ClientRead(k, n));
  }

  lemma RecvIds(cfg: Config, s: State, t: nat, n: nat)
    requires Faithful(cfg.wire) && Inv(cfg, s) && OnConn(s, t) && s.threads[t].Receiving?
    ensures Ids(RecvStep(cfg, s, t, n))
  {
    var Receiving(r, part) := s.threads[t];
    var k := s.conns[s.codec.value];
    if 1 <= n <= Need(part) && n <= |k.down| {
      match ParseOne(part + k.down[..n]) {
        case Incomplete => RecvMore(s, t, r, part + k.down[..n], ClientRead(k, n));
        case Oversize(_) => RecvDropped(s, t, r, ClientRead(k, n), FrameTooLarge);
        case Complete(payload, rest) => RecvWhole(cfg, s, t, n, payload, rest);
      }
    }
  }

  /** A receive changes what is on the client's connection and drops it or not; no history of
      dispatches changes. */
  lemma RecvServed(cfg: Config, s: State, t: nat, n: nat)
    requires OnConn(s, t) && s.threads[t].Receiving?
    ensures SameServed(s.conns, RecvStep(cfg, s, t, n).conns)
  {
    var Receiving(r, part) := s.threads[t];
    var c := s.codec.value;
    var k := s.conns[c];
    if 1 <= n <= Need(part) && n <= |k.down| {
      var s1 := SetConn(s, c, ClientRead(k, n));
      match ParseOne(part + k.down[..n]) {
        case Incomplete =>
        case Oversize(_) => DropGrown(s1, After(FrameTooLarge));
        case Complete(payload, _) => DropGrown(s1, After(SerializationError));
      }
    }
  }

  lemma RecvDispatched(cfg: Config, s: State, t: nat, n: nat)
    requires AllDispatched(cfg, s.conns) && OnConn(s, t) && s.threads[t].Receiving?
    ensures AllDispatched(cfg, RecvStep(cfg, s, t, n).conns)
  {
    RecvServed(cfg, s, t, n);
    SameDispatched(cfg, s.conns, RecvStep(cfg, s, t, n).conns);
  }

  lemma RecvInv(cfg: Config, s: State, t: nat, n: nat)
    requires Faithful(cfg.wire) && Inv(cfg, s) && OnConn(s, t) && s.threads[t].Receiving?
    ensures Inv(cfg, RecvStep(cfg, s, t, n))
  {
    RecvKeeps(cfg, s, t, n);
    RecvIds(cfg, s, t, n);
    RecvDispatched(cfg, s, t, n);
  }

  lemma NotifiedKeeps(cfg: Config, s: State, t: nat, r: Envelope, cause: Cause)
    requires Inv(cfg, s) && Free(s, t) && s.threads[t] == Notifying(r, cause)
    ensures Inv(cfg, NotifiedStep(cfg, s, t, r, cause))
  {
    match cause
    case FirstSend(err) =>
      if Attempts(cfg) > 0 {
        Move(cfg, s, t, RetryBackoff(r, 0, err));
      } else {
        FinishKeeps(cfg, s, t, r, SendError(err));
      }
    case RetrySend(err) => FinishKeeps(cfg, s, t, r, SendError(err));
    case RecvFailed(err) => FinishKeeps(cfg, s, t, r, RecvError(err));
  }

  lemma DropInv(cfg: Config, s: State)
    requires Inv(cfg, s) && s.owner.None?
    ensures Inv(cfg, DropHandles(s, Requested))
  {
    DropAtRest(cfg, s, Requested);
    DropGrown(s, Requested);
    GrownIds(s, DropHandles(s, Requested));
    SameDispatched(cfg, s.conns, DropHandles(s, Requested).conns);
  }

  predicate ByThread(s: State, step: Step) {
    && !step.ServerRead? && !step.ServerDispatch? && !step.ServerWrite? && !step.ServerStops?
    && step.t < |s.threads|
  }

  lemma SendingKeeps(cfg: Config, s: State, step: Step)
    requires Inv(cfg, s) && ByThread(s, step) && s.threads[step.t].Sending?
    ensures Inv(cfg, ThreadStep(cfg, s, step))
  {
    var t, r, retry := step.t, s.threads[step.t].request, s.threads[step.t].retry;
    if step.Send? {
      if CanSend(cfg, s, t, step.n) {
        SentInv(cfg, s, t, step.n);
      }
    } else if step.SendFails? {
      assert Mine(s, t, r);
      DisconnectedKeeps(cfg, s, t, r, SendCause(retry, System(step.errno)));
    }
  }

  lemma ReceivingKeeps(cfg: Config, s: State, step: Step)
    requires Faithful(cfg.wire) && Inv(cfg, s) && ByThread(s, step) && s.threads[step.t].Receiving?
    ensures Inv(cfg, ThreadStep(cfg, s, step))
  {
    var t, r := step.t, s.threads[step.t].request;
    if step.Recv? {
      if OnConn(s, t) {
        RecvInv(cfg, s, t, step.n);
      }
    } else if step.RecvFails? {
      assert Mine(s, t, r);
      DisconnectedKeeps(cfg, s, t, r, RecvFailed(FaultError(step.fault)));
    }
  }

  /** Threads that do not hold the lock. */
  lemma OutsideKeeps(cfg: Config, s: State, step: Step)
    requires Inv(cfg, s) && ByThread(s, step) && !Holds(s.threads[step.t])
    ensures Inv(cfg, ThreadStep(cfg, s, step))
  {
    var t := step.t;
    match (step, s.threads[t])
    case (StartCall(_, call), Idle) => Move(cfg, s, t, Entering(call));
    case (Enter(_), Entering(call)) => if Free(s, t) { EnterKeeps(cfg, s, t, call); }
    case (Wake(_, accepted), FirstBackoff(call, i)) =>
      if Free(s, t) { FirstWakeKeeps(cfg, s, t, call, i, accepted); }
    case (Wake(_, accepted), RetryBackoff(r, i, err)) =>
      if Free(s, t) { RetryWakeKeeps(cfg, s, t, r, i, err, accepted); }
    case (Notified(_), Notifying(r, cause)) => if Free(s, t) { NotifiedKeeps(cfg, s, t, r, cause); }
    case (Connect(_, accepted), Idle) =>
      if Free(s, t) && s.codec.None? && accepted { OpenInv(cfg, s); }
    case (Disconnect(_), Idle) => if Free(s, t) { DropInv(cfg, s); }
    case _ =>
  }

  lemma ThreadStepKeeps(cfg: Config, s: State, step: Step)
    requires Faithful(cfg.wire) && Inv(cfg, s)
    requires !step.ServerRead? && !step.ServerDispatch? && !step.ServerWrite? && !step.ServerStops?
    ensures Inv(cfg, ThreadStep(cfg, s, step))
  {
    if step.t < |s.threads| {
      if s.threads[step.t].Sending? {
        SendingKeeps(cfg, s, step);
      } else if s.threads[step.t].Receiving? {
        ReceivingKeeps(cfg, s, step);
      } else {
        OutsideKeeps(cfg, s, step);
      }
    }
  }

  // ---------------------------------------------------------------- the server's steps

  lemma ServerStepKeeps(cfg: Config, s: State, step: Step)
    requires Faithful(cfg.wire) && Inv(cfg, s)
    requires step.ServerRead? || step.ServerDispatch? || step.ServerWrite? || step.ServerStops?
    ensures Inv(cfg, ServerStep(cfg, s, step))
  {
    ServerKeeps(cfg, s, step);
    if step.c < |s.conns| {
      var k := s.conns[step.c];
      match step
      case ServerRead(c, n) => if CanRead(k, n) { ServerIds(cfg, s, c, HandlerRead(k, n)); }
      case ServerDispatch(c, h) =>
        if CanDispatch(cfg.wire, k) {
          ServerIds(cfg, s, c, HandlerDispatch(cfg.wire, cfg.services, k, h));
          OneMoreDispatched(cfg, s, c, h);
        }
      case ServerWrite(c, n) => if CanWrite(k, n) { ServerIds(cfg, s, c, HandlerWrite(k, n)); }
      case ServerStops(c) => ServerIds(cfg, s, c, HandlerStop(k));
    }
  }

  lemma ServerIds(cfg: Config, s: State, c: nat, k: Conn)
    requires Ids(s) && AllDispatched(cfg, s.conns) && c < |s.conns|
    requires k.begun == s.conns[c].begun && k.whole == s.conns[c].whole && s.conns[c].served <= k.served
    ensures Ids(SetConn(s, c, k))
    ensures k.served == s.conns[c].served ==> AllDispatched(cfg, SetConn(s, c, k).conns)
  {
    GrownIds(s, SetConn(s, c, k));
    if k.served == s.conns[c].served {
      SameDispatched(cfg, s.conns, SetConn(s, c, k).conns);
    }
  }

  lemma OneMoreDispatched(cfg: Config, s: State, c: nat, h: HandlerResult)
    requires AllDispatched(cfg, s.conns) && c < |s.conns| && CanDispatch(cfg.wire, s.conns[c])
    ensures AllDispatched(cfg, s.conns[c := HandlerDispatch(cfg.wire, cfg.services, s.conns[c], h)])
  {
    var k, k1 := s.conns[c], HandlerDispatch(cfg.wire, cfg.services, s.conns[c], h);
    var conns1 := s.conns[c := k1];
    forall d, i | 0 <= d < |conns1| && 0 <= i < |conns1[d].served| ensures IsDispatch(cfg, conns1[d].served[i]) {
      if d == c && i == |k.served| {
        assert k1.served[i].response == Dispatch(cfg.services, k1.served[i].request, h);
      } else {
        assert conns1[d].served[i] == s.conns[d].served[i];
      }
    }
  }

  // ---------------------------------------------------------------- runs

  lemma StepKeeps(cfg: Config, s: State, step: Step)
    requires Faithful(cfg.wire) && Inv(cfg, s)
    ensures Inv(cfg, Apply(cfg, s, step))
  {
    if step.ServerRead? || step.ServerDispatch? || step.ServerWrite? || step.ServerStops? {
      ServerStepKeeps(cfg, s, step);
    } else {
      ThreadStepKeeps(cfg, s, step);
    }
  }

  lemma {:induction false} RunKeeps(cfg: Config, s: State, steps: seq<Step>)
    requires Faithful(cfg.wire) && Inv(cfg, s)
    ensures Inv(cfg, RunFrom(cfg, s, steps))
    decreases |steps|
  {
    if steps != [] {
      RunKeeps(cfg, s, steps[..|steps| - 1]);
      StepKeeps(cfg, RunFrom(cfg, s, steps[..|steps| - 1]), steps[|steps| - 1]);
    }
  }

  lemma InitInv(cfg: Config, threads: nat)
    ensures Inv(cfg, Init(threads))
  {
  }

  /** The invariant holds after every run, for any number of threads. */
  lemma Reachable(cfg: Config, threads: nat, steps: seq<Step>)
    requires Faithful(cfg.wire)
    ensures Inv(cfg, Run(cfg, threads, steps))
  {
    InitInv(cfg, threads);
    RunKeeps(cfg, Init(threads), steps);
  }
}
