/** How often a request is sent, and what is over for good: a handler that has stopped, and a connection
    that the client has given up. */
module RpcLimits {
  import opened Bytes
  import opened Errors
  import opened Frames
  import opened Envelopes
  import opened CppCodec
  import opened RpcConn
  import opened RpcRun
  import opened RpcBase
  import opened RpcIds
  import opened RpcSteps
  import opened RpcTheorems
  import opened RpcRetries
  import opened RpcWitness

  // ---------------------------------------------------------------- counting

  function CountBegun(begun: seq<Envelope>, x: nat): nat {
    if begun == [] then 0
    else
      var n := |begun| - 1;
      CountBegun(begun[..n], x) + (if begun[n].requestId == x then 1 else 0)
  }

  /** How many times, over all connections, the client started to write the request of id `x`. */
  function Begins(conns: seq<Conn>, x: nat): nat {
    if conns == [] then 0
    else
      var n := |conns| - 1;
      Begins(conns[..n], x) + CountBegun(conns[n].begun, x)
  }

  lemma CountLast(begun: seq<Envelope>, r: Envelope, x: nat)
    ensures CountBegun(begun + [r], x) == CountBegun(begun, x) + (if r.requestId == x then 1 else 0)
  {
    assert (begun + [r])[..|begun|] == begun;
  }

  lemma {:induction false} BeginsUpdate(conns: seq<Conn>, c: nat, k: Conn, x: nat)
    requires c < |conns|
    ensures Begins(conns[c := k], x) + CountBegun(conns[c].begun, x) == Begins(conns, x) + CountBegun(k.begun, x)
    decreases |conns|
  {
    var n := |conns| - 1;
    if c < n {
      BeginsUpdate(conns[..n], c, k, x);
      assert conns[c := k][..n] == conns[..n][c := k];
    } else {
      assert conns[c := k][..n] == conns[..n];
    }
  }

  /** The requests begun are the same; connections that are new carry none. */
  ghost predicate AsBegun(a: seq<Conn>, b: seq<Conn>) {
    && |a| <= |b|
    && (forall c :: 0 <= c < |a| ==> a[c].begun == b[c].begun)
    && (forall c :: |a| <= c < |b| ==> b[c].begun == [])
  }

  lemma {:induction false} BeginsSame(a: seq<Conn>, b: seq<Conn>, x: nat)
    requires AsBegun(a, b)
    ensures Begins(a, x) == Begins(b, x)
    decreases |b|
  {
    if b != [] {
      var n := |b| - 1;
      if |a| == |b| {
        BeginsSame(a[..n], b[..n], x);
      } else {
        BeginsSame(a, b[..n], x);
      }
    }
  }

  lemma {:induction false} CountNone(begun: seq<Envelope>, x: nat)
    requires forall i :: 0 <= i < |begun| ==> begun[i].requestId != x
    ensures CountBegun(begun, x) == 0
    decreases |begun|
  {
    if begun != [] {
      CountNone(begun[..|begun| - 1], x);
    }
  }

  lemma {:induction false} BeginsNone(conns: seq<Conn>, x: nat)
    requires forall c, i :: 0 <= c < |conns| && 0 <= i < |conns[c].begun| ==> conns[c].begun[i].requestId != x
    ensures Begins(conns, x) == 0
    decreases |conns|
  {
    if conns != [] {
      var n := |conns| - 1;
      forall c, i | 0 <= c < n && 0 <= i < |conns[..n][c].begun| ensures conns[..n][c].begun[i].requestId != x {
        assert conns[..n][c] == conns[c];
      }
      BeginsNone(conns[..n], x);
      CountNone(conns[n].begun, x);
    }
  }

  // ---------------------------------------------------------------- the invariant

  /** The request was not sent again yet. */
  predicate SentOnce(pc: Pc) {
    (pc.Sending? && !pc.retry) || (pc.Notifying? && pc.cause.FirstSend?) || pc.RetryBackoff?
  }

  predicate Again(pc: Pc) {
    pc.RetryBackoff? || Retrying(pc)
  }

  function Most(cfg: Config): nat {
    if Attempts(cfg) == 0 then 1 else 2
  }

  ghost predicate Bounded(cfg: Config, s: State) {
    && (forall x :: Begins(s.conns, x) <= Most(cfg))
    && (forall t :: 0 <= t < |s.threads| && SentOnce(s.threads[t]) ==>
          Begins(s.conns, s.threads[t].request.requestId) <= 1)
    && (Attempts(cfg) == 0 ==> forall t :: 0 <= t < |s.threads| ==> !Again(s.threads[t]))
  }

  /** Thread `t` moves on and begins no request. */
  ghost predicate NoneBegun(cfg: Config, s: State, s1: State, t: nat) {
    && AsBegun(s.conns, s1.conns)
    && t < |s.threads| == |s1.threads|
    && (forall u :: 0 <= u < |s.threads| && u != t ==> s1.threads[u] == s.threads[u])
    && (SentOnce(s1.threads[t]) ==> Begins(s.conns, s1.threads[t].request.requestId) <= 1)
    && (Attempts(cfg) == 0 ==> !Again(s1.threads[t]))
  }

  lemma NoneBegunKeeps(cfg: Config, s: State, s1: State, t: nat)
    requires Bounded(cfg, s) && NoneBegun(cfg, s, s1, t)
    ensures Bounded(cfg, s1)
  {
    forall x ensures Begins(s1.conns, x) == Begins(s.conns, x) {
      BeginsSame(s.conns, s1.conns, x);
    }
  }

  lemma BeginCounts(s: State, c: nat, r: Envelope)
    requires c < |s.conns|
    ensures forall x :: Begins(s.conns[c := Begin(s.conns[c], r)], x)
                        == Begins(s.conns, x) + (if x == r.requestId then 1 else 0)
  {
    forall x ensures Begins(s.conns[c := Begin(s.conns[c], r)], x)
                     == Begins(s.conns, x) + (if x == r.requestId then 1 else 0)
    {
      BeginsUpdate(s.conns, c, Begin(s.conns[c], r), x);
      CountLast(s.conns[c].begun, r, x);
    }
  }

  /** No other thread works on the request. */
  lemma OthersHaveOwn(s: State, t: nat, r: Envelope)
    requires Mine(s, t, r)
    ensures forall u :: 0 <= u < |s.threads| && u != t && SentOnce(s.threads[u]) ==>
              s.threads[u].request.requestId != r.requestId
  {
  }

  /** Thread `t` has started to write request `x`, and nothing else has changed. */
  ghost predicate OneBegun(s: State, s1: State, t: nat, x: nat) {
    && t < |s.threads| == |s1.threads|
    && (forall u :: 0 <= u < |s.threads| && u != t ==> s1.threads[u] == s.threads[u])
    && s1.threads[t].Sending? && s1.threads[t].request.requestId == x
    && (forall y :: Begins(s1.conns, y) == Begins(s.conns, y) + (if y == x then 1 else 0))
  }

  lemma OneBegunKeeps(cfg: Config, s: State, s1: State, t: nat, x: nat)
    requires Bounded(cfg, s) && OneBegun(s, s1, t, x)
    requires forall u :: 0 <= u < |s.threads| && u != t && SentOnce(s.threads[u]) ==>
               s.threads[u].request.requestId != x
    requires var retry := s1.threads[t].retry;
             Begins(s.conns, x) <= (if retry then 1 else 0) && (retry ==> Attempts(cfg) > 0)
    ensures Bounded(cfg, s1)
  {
    hide Begins, Attempts;
    forall y ensures Begins(s1.conns, y) <= Most(cfg) {
      assert Begins(s.conns, y) <= Most(cfg);
    }
    forall u | 0 <= u < |s1.threads| && SentOnce(s1.threads[u])
      ensures Begins(s1.conns, s1.threads[u].request.requestId) <= 1
    {
      if u != t {
        assert Begins(s.conns, s.threads[u].request.requestId) <= 1;
      }
    }
  }

  /** Thread `t` starts to write its request. */
  lemma BeginBounded(cfg: Config, s: State, t: nat, c: nat, r: Envelope, retry: bool)
    requires Bounded(cfg, s) && t < |s.threads| && c < |s.conns| && Mine(s, t, r)
    requires Begins(s.conns, r.requestId) <= (if retry then 1 else 0) && (retry ==> Attempts(cfg) > 0)
    ensures Bounded(cfg, SetPc(SetConn(s, c, Begin(s.conns[c], r)).(owner := Some(t)), t, Sending(r, retry, 0)))
  {
    BeginCounts(s, c, r);
    OthersHaveOwn(s, t, r);
    hide Begins, Begin, Mine, Bounded;
    var s1 := SetPc(SetConn(s, c, Begin(s.conns[c], r)).(owner := Some(t)), t, Sending(r, retry, 0));
    assert s1.conns == s.conns[c := Begin(s.conns[c], r)];
    OneBegunKeeps(cfg, s, s1, t, r.requestId);
  }

  lemma DropAsBegun(s: State, why: Loss)
    ensures AsBegun(s.conns, DropHandles(s, why).conns) && DropHandles(s, why).threads == s.threads
  {
  }

  lemma DisconnectedBounded(cfg: Config, s: State, t: nat, r: Envelope, cause: Cause)
    requires Bounded(cfg, s) && t < |s.threads| && (cause.FirstSend? ==> Begins(s.conns, r.requestId) <= 1)
    ensures Bounded(cfg, Disconnected(s, t, r, cause))
  {
    hide Bounded, DropHandles;
    DropAsBegun(s, After(cause.err));
    NoneBegunKeeps(cfg, s, Disconnected(s, t, r, cause), t);
  }

  lemma StartSendBounded(cfg: Config, s: State, t: nat, r: Envelope, retry: bool)
    requires Bounded(cfg, s) && t < |s.threads| && s.codec.Some? && s.codec.value < |s.conns| && Mine(s, t, r)
    requires Begins(s.conns, r.requestId) <= (if retry then 1 else 0) && (retry ==> Attempts(cfg) > 0)
    ensures Bounded(cfg, StartSend(cfg, s, t, r, retry))
  {
    hide Bounded, Disconnected, Begin;
    if Legal(cfg.wire.enc(r)) {
      BeginBounded(cfg, s, t, s.codec.value, r, retry);
    } else {
      DisconnectedBounded(cfg, s, t, r, SendCause(retry, FrameTooLarge));
    }
  }

  lemma SetPcBounded(cfg: Config, s: State, t: nat, pc: Pc)
    requires Bounded(cfg, s) && t < |s.threads|
    requires SentOnce(pc) ==> SentOnce(s.threads[t]) && s.threads[t].request == pc.request
    requires Attempts(cfg) == 0 ==> !Again(pc)
    ensures Bounded(cfg, SetPc(s, t, pc))
  {
    NoneBegunKeeps(cfg, s, SetPc(s, t, pc), t);
  }

  lemma RefuseBounded(cfg: Config, s: State, t: nat, call: Call)
    requires Bounded(cfg, s) && t < |s.threads|
    ensures Bounded(cfg, Refuse(s, t, call))
  {
    hide Bounded;
    NoneBegunKeeps(cfg, s, Refuse(s, t, call), t);
  }

  lemma FinishBounded(cfg: Config, s: State, t: nat, r: Envelope, o: Outcome)
    requires Bounded(cfg, s) && t < |s.threads|
    ensures Bounded(cfg, Finish(s, t, r, o))
  {
    hide Bounded;
    NoneBegunKeeps(cfg, s, Finish(s, t, r, o), t);
  }

  lemma BeginCallBounded(cfg: Config, s: State, t: nat, call: Call)
    requires Inv(cfg, s) && Bounded(cfg, s) && t < |s.threads| && CanBegin(s)
    ensures Bounded(cfg, BeginCall(cfg, s, t, call))
  {
    var r := NewRequest(s, call);
    IssueKeeps(cfg, s, t, r);
    BeginsNone(s.conns, r.requestId);
    hide Inv, Begins, StartSend, Mine, Ids;
    StartSendBounded(cfg, Issue(s, r), t, r, false);
  }

  lemma OpenBounded(cfg: Config, s: State)
    requires Bounded(cfg, s)
    ensures Bounded(cfg, OpenConn(s)) && forall x :: Begins(OpenConn(s).conns, x) == Begins(s.conns, x)
  {
    forall x ensures Begins(OpenConn(s).conns, x) == Begins(s.conns, x) {
      BeginsSame(s.conns, OpenConn(s).conns, x);
    }
  }

  lemma EnterBounded(cfg: Config, s: State, t: nat, call: Call)
    requires Inv(cfg, s) && Bounded(cfg, s) && Free(s, t)
    ensures Bounded(cfg, EnterStep(cfg, s, t, call))
  {
    hide Inv, Bounded, BeginCall, Refuse;
    if s.codec.None? {
      RefuseBounded(cfg, s, t, call);
      SetPcBounded(cfg, s, t, FirstBackoff(call, 0));
    } else if CanBegin(s) {
      BeginCallBounded(cfg, s, t, call);
    }
  }

  lemma FirstWakeBounded(cfg: Config, s: State, t: nat, call: Call, attempt: nat, accepted: bool)
    requires Inv(cfg, s) && Bounded(cfg, s) && Free(s, t)
    ensures Bounded(cfg, FirstWake(cfg, s, t, call, attempt, accepted))
  {
    hide Inv, Bounded, BeginCall, Refuse, OpenConn;
    if s.codec.Some? || !accepted {
      RefuseBounded(cfg, s, t, call);
      SetPcBounded(cfg, s, t, FirstBackoff(call, attempt + 1));
    } else if CanBegin(OpenConn(s)) {
      OpenInv(cfg, s);
      OpenBounded(cfg, s);
      SameThreads(s);
      BeginCallBounded(cfg, OpenConn(s), t, call);
    }
  }

  lemma SameThreads(s: State)
    ensures var s1 := OpenConn(s);
            s1.threads == s.threads && s1.codec == Some(|s.conns|) && |s1.conns| == |s.conns| + 1
  {
  }

  lemma RetryWakeBounded(cfg: Config, s: State, t: nat, r: Envelope, attempt: nat, err: Error, accepted: bool)
    requires Inv(cfg, s) && Bounded(cfg, s) && Free(s, t) && s.threads[t] == RetryBackoff(r, attempt, err)
    ensures Bounded(cfg, RetryWake(cfg, s, t, r, attempt, err, accepted))
  {
    assert !(Attempts(cfg) == 0) && Begins(s.conns, r.requestId) <= 1 by {
      assert Again(s.threads[t]) && SentOnce(s.threads[t]);
    }
    hide Inv, Bounded, StartSend, Finish, OpenConn, Begins;
    if s.codec.Some? || !accepted {
      FinishBounded(cfg, s, t, r, SendError(err));
      SetPcBounded(cfg, s, t, RetryBackoff(r, attempt + 1, err));
    } else {
      OpenInv(cfg, s);
      OpenBounded(cfg, s);
      SameThreads(s);
      OwnRequest(cfg, OpenConn(s), t);
      StartSendBounded(cfg, OpenConn(s), t, r, true);
    }
  }

  lemma OwnRequest(cfg: Config, s: State, t: nat)
    requires Inv(cfg, s) && t < |s.threads| && HasRequest(s.threads[t])
    ensures Mine(s, t, s.threads[t].request)
  {
  }

  lemma NotifiedBounded(cfg: Config, s: State, t: nat, r: Envelope, cause: Cause)
    requires Bounded(cfg, s) && Free(s, t) && s.threads[t] == Notifying(r, cause)
    ensures Bounded(cfg, NotifiedStep(cfg, s, t, r, cause))
  {
    hide Bounded, Finish;
    match cause
    case FirstSend(err) =>
      FinishBounded(cfg, s, t, r, SendError(err));
      if Attempts(cfg) > 0 { SetPcBounded(cfg, s, t, RetryBackoff(r, 0, err)); }
    case RetrySend(err) => FinishBounded(cfg, s, t, r, SendError(err));
    case RecvFailed(err) => FinishBounded(cfg, s, t, r, RecvError(err));
  }

  lemma SentBounded(cfg: Config, s: State, t: nat, n: nat)
    requires Bounded(cfg, s) && CanSend(cfg, s, t, n)
    ensures Bounded(cfg, Sent(cfg, s, t, n))
  {
    assert SentOnce(s.threads[t]) ==> Begins(s.conns, s.threads[t].request.requestId) <= 1;
    assert Attempts(cfg) == 0 ==> !Again(s.threads[t]);
    hide Bounded, Begins;
    NoneBegunKeeps(cfg, s, Sent(cfg, s, t, n), t);
  }

  lemma RecvBounded(cfg: Config, s: State, t: nat, n: nat)
    requires Bounded(cfg, s) && OnConn(s, t) && s.threads[t].Receiving?
    ensures Bounded(cfg, RecvStep(cfg, s, t, n))
  {
    var Receiving(r, part) := s.threads[t];
    var c := s.codec.value;
    var k := s.conns[c];
    if 1 <= n <= Need(part) && n <= |k.down| {
      var s1, part1 := SetConn(s, c, ClientRead(k, n)), part + k.down[..n];
      ReadBounded(cfg, s, c, ClientRead(k, n));
      hide Bounded, Disconnected, Finish, ClientRead, ParseOne;
      match ParseOne(part1) {
        case Incomplete => SetPcBounded(cfg, s1, t, Receiving(r, part1));
        case Oversize(_) => DisconnectedBounded(cfg, s1, t, r, RecvFailed(FrameTooLarge));
        case Complete(payload, _) =>
          DisconnectedBounded(cfg, s1, t, r, RecvFailed(SerializationError));
          match cfg.wire.dec(payload) {
            case None =>
            case Some(response) =>
              FinishBounded(cfg, s1, t, r, Mismatch(response));
              FinishBounded(cfg, s1, t, r, Success(response));
          }
      }
    }
  }

  lemma ReadBounded(cfg: Config, s: State, c: nat, k: Conn)
    requires Bounded(cfg, s) && c < |s.conns| && k.begun == s.conns[c].begun
    ensures Bounded(cfg, SetConn(s, c, k))
  {
    var s1 := SetConn(s, c, k);
    assert AsBegun(s.conns, s1.conns);
    forall x ensures Begins(s1.conns, x) == Begins(s.conns, x) {
      BeginsSame(s.conns, s1.conns, x);
    }
  }

  // ---------------------------------------------------------------- every step, every run

  lemma HolderBounded(cfg: Config, s: State, step: Step)
    requires Bounded(cfg, s) && ByThread(s, step) && Holds(s.threads[step.t])
    ensures Bounded(cfg, ThreadStep(cfg, s, step))
  {
    var t := step.t;
    assert SentOnce(s.threads[t]) ==> Begins(s.conns, s.threads[t].request.requestId) <= 1;
    hide Bounded, Begins, Sent, RecvStep, Disconnected;
    match (step, s.threads[t])
    case (Send(_, n), Sending(_, _, _)) => if CanSend(cfg, s, t, n) { SentBounded(cfg, s, t, n); }
    case (SendFails(_, errno), Sending(r, retry, _)) =>
      DisconnectedBounded(cfg, s, t, r, SendCause(retry, System(errno)));
    case (Recv(_, n), Receiving(_, _)) => if OnConn(s, t) { RecvBounded(cfg, s, t, n); }
    case (RecvFails(_, fault), Receiving(r, _)) =>
      DisconnectedBounded(cfg, s, t, r, RecvFailed(FaultError(fault)));
    case _ =>
  }

  lemma OutsideBounded(cfg: Config, s: State, step: Step)
    requires Inv(cfg, s) && Bounded(cfg, s) && ByThread(s, step) && !Holds(s.threads[step.t])
    ensures Bounded(cfg, ThreadStep(cfg, s, step))
  {
    var t := step.t;
    hide Inv, Bounded, EnterStep, FirstWake, RetryWake, NotifiedStep, OpenConn, DropHandles;
    match (step, s.threads[t])
    case (StartCall(_, call), Idle) => SetPcBounded(cfg, s, t, Entering(call));
    case (Enter(_), Entering(call)) => if Free(s, t) { EnterBounded(cfg, s, t, call); }
    case (Wake(_, accepted), FirstBackoff(call, i)) =>
      if Free(s, t) { FirstWakeBounded(cfg, s, t, call, i, accepted); }
    case (Wake(_, accepted), RetryBackoff(r, i, err)) =>
      if Free(s, t) { RetryWakeBounded(cfg, s, t, r, i, err, accepted); }
    case (Notified(_), Notifying(r, cause)) => if Free(s, t) { NotifiedBounded(cfg, s, t, r, cause); }
    case (Connect(_, accepted), Idle) => OpenBounded(cfg, s);
    case (Disconnect(_), Idle) => DropBounded(cfg, s);
    case _ =>
  }

  lemma DropBounded(cfg: Config, s: State)
    requires Bounded(cfg, s)
    ensures Bounded(cfg, DropHandles(s, Requested))
  {
    var s1 := DropHandles(s, Requested);
    forall x ensures Begins(s1.conns, x) == Begins(s.conns, x) {
      DropAsBegun(s, Requested);
      BeginsSame(s.conns, s1.conns, x);
    }
  }

  lemma ServerBounded(cfg: Config, s: State, step: Step)
    requires Bounded(cfg, s)
    requires step.ServerRead? || step.ServerDispatch? || step.ServerWrite? || step.ServerStops?
    ensures Bounded(cfg, ServerStep(cfg, s, step))
  {
    var s1 := ServerStep(cfg, s, step);
    assert AsBegun(s.conns, s1.conns) && s1.threads == s.threads;
    forall x ensures Begins(s1.conns, x) == Begins(s.conns, x) {
      BeginsSame(s.conns, s1.conns, x);
    }
  }

  lemma StepBounded(cfg: Config, s: State, step: Step)
    requires Inv(cfg, s) && Bounded(cfg, s)
    ensures Bounded(cfg, Apply(cfg, s, step))
  {
    hide Inv, Bounded, ThreadStep, ServerStep;
    if step.ServerRead? || step.ServerDispatch? || step.ServerWrite? || step.ServerStops? {
      ServerBounded(cfg, s, step);
    } else if step.t < |s.threads| {
      if Holds(s.threads[step.t]) {
        HolderBounded(cfg, s, step);
      } else {
        OutsideBounded(cfg, s, step);
      }
    } else {
      Idles(cfg, s, step);
    }
  }

  lemma {:induction false} RunBounded(cfg: Config, threads: nat, steps: seq<Step>)
    requires Faithful(cfg.wire)
    ensures Bounded(cfg, Run(cfg, threads, steps))
    decreases |steps|
  {
    if steps != [] {
      var init := steps[..|steps| - 1];
      RunBounded(cfg, threads, init);
      Reachable(cfg, threads, init);
      hide Inv, Bounded;
      StepBounded(cfg, Run(cfg, threads, init), steps[|steps| - 1]);
    }
  }

  // ---------------------------------------------------------------- what is over for good

  /** The server no longer serves the connection. */
  predicate Stopped(s: State, c: nat) {
    c < |s.conns| && s.conns[c].handler.Gone?
  }

  /** The client has given the connection up. */
  predicate Lost(s: State, c: nat) {
    c < |s.conns| && s.conns[c].end.loss.Some?
  }

  /** What both do not change any more. */
  ghost predicate Over(s: State, s1: State, c: nat) {
    && (Stopped(s, c) ==> Stopped(s1, c) && s1.conns[c].served == s.conns[c].served)
    && (Lost(s, c) ==> Lost(s1, c) && s1.conns[c].end == s.conns[c].end && s1.conns[c].begun == s.conns[c].begun
                       && s1.conns[c].whole == s.conns[c].whole)
  }

  lemma ServerOver(cfg: Config, s: State, step: Step, c: nat)
    requires step.ServerRead? || step.ServerDispatch? || step.ServerWrite? || step.ServerStops?
    ensures Over(s, ServerStep(cfg, s, step), c)
  {
    hide Over;
    HandlerOver(s, c, step.c, if step.c < |s.conns| then s.conns[step.c] else NEW_CONN);
    if step.c < |s.conns| {
      var k := s.conns[step.c];
      assert SetConn(s, step.c, k) == s;
      match step
      case ServerRead(d, n) => if CanRead(k, n) { HandlerOver(s, c, d, HandlerRead(k, n)); }
      case ServerDispatch(d, h) =>
        if CanDispatch(cfg.wire, k) { HandlerOver(s, c, d, HandlerDispatch(cfg.wire, cfg.services, k, h)); }
      case ServerWrite(d, n) => if CanWrite(k, n) { HandlerOver(s, c, d, HandlerWrite(k, n)); }
      case ServerStops(d) => HandlerOver(s, c, d, HandlerStop(k));
    }
  }

  /** A handler moves on its connection, unless it has stopped. */
  lemma HandlerOver(s: State, c: nat, d: nat, k: Conn)
    requires d < |s.conns| ==>
               && var k0 := s.conns[d];
                  && k.end == k0.end && k.begun == k0.begun && k.whole == k0.whole
                  && (k0.handler.Gone? ==> k.handler.Gone? && k.served == k0.served)
    ensures Over(s, if d < |s.conns| then SetConn(s, d, k) else s, c)
  {
  }

  /** A thread touches no connection but the client's own, and leaves handlers alone. */
  ghost predicate Elsewhere(s: State, s1: State, c: nat) {
    && |s.conns| <= |s1.conns|
    && (c < |s.conns| ==> s1.conns[c].handler == s.conns[c].handler && s1.conns[c].served == s.conns[c].served)
    && (c < |s.conns| && s.codec != Some(c) && s.framed != Some(c) ==> s1.conns[c] == s.conns[c])
  }

  lemma DropElsewhere(s: State, why: Loss, c: nat)
    ensures Elsewhere(s, DropHandles(s, why), c)
  {
  }

  lemma StartSendElsewhere(cfg: Config, s: State, t: nat, r: Envelope, retry: bool, c: nat)
    requires t < |s.threads| && s.codec.Some? && s.codec.value < |s.conns|
    ensures Elsewhere(s, StartSend(cfg, s, t, r, retry), c)
  {
  }

  lemma WakesElsewhere(cfg: Config, s: State, step: Step, c: nat)
    requires ByThread(s, step) && step.Wake?
    ensures Elsewhere(s, ThreadStep(cfg, s, step), c)
  {
    hide StartSend;
    var s1, t := OpenConn(s), step.t;
    match s.threads[t]
    case FirstBackoff(call, _) =>
      if CanBegin(s1) {
        StartSendElsewhere(cfg, Issue(s1, NewRequest(s1, call)), t, NewRequest(s1, call), false, c);
      }
    case RetryBackoff(r, _, _) => StartSendElsewhere(cfg, s1, t, r, true, c);
    case _ =>
  }

  lemma RecvElsewhere(cfg: Config, s: State, t: nat, n: nat, c: nat)
    requires OnConn(s, t) && s.threads[t].Receiving?
    ensures Elsewhere(s, RecvStep(cfg, s, t, n), c)
  {
    var Receiving(r, part) := s.threads[t];
    var k := s.conns[s.codec.value];
    if 1 <= n <= Need(part) && n <= |k.down| {
      var s1 := SetConn(s, s.codec.value, ClientRead(k, n));
      DropElsewhere(s1, After(FrameTooLarge), c);
      DropElsewhere(s1, After(SerializationError), c);
      hide DropHandles, ParseOne;
    }
  }

  lemma ThreadElsewhere(cfg: Config, s: State, step: Step, c: nat)
    requires ByThread(s, step)
    ensures Elsewhere(s, ThreadStep(cfg, s, step), c)
  {
    var t := step.t;
    hide StartSend, RecvStep, DropHandles, FirstWake, RetryWake;
    match (step, s.threads[t])
    case (Enter(_), Entering(call)) =>
      if CanBegin(s) { StartSendElsewhere(cfg, Issue(s, NewRequest(s, call)), t, NewRequest(s, call), false, c); }
    case (Wake(_, _), _) => WakesElsewhere(cfg, s, step, c);
    case (SendFails(_, errno), Sending(_, retry, _)) =>
      DropElsewhere(s, After(SendCause(retry, System(errno)).err), c);
    case (Recv(_, n), Receiving(_, _)) => if OnConn(s, t) { RecvElsewhere(cfg, s, t, n, c); }
    case (RecvFails(_, fault), Receiving(_, _)) => DropElsewhere(s, After(FaultError(fault)), c);
    case (Disconnect(_), Idle) => DropElsewhere(s, Requested, c);
    case _ =>
  }

  lemma LostIsElsewhere(cfg: Config, s: State, c: nat)
    requires Inv(cfg, s)
    ensures Lost(s, c) ==> s.codec != Some(c) && s.framed != Some(c)
  {
    if Lost(s, c) {
      assert ConnOk(cfg.wire, s.conns[c]);
      assert EndOk(s.conns[c].end);
    }
  }

  lemma StepOver(cfg: Config, s: State, step: Step, c: nat)
    requires Inv(cfg, s)
    ensures Over(s, Apply(cfg, s, step), c)
  {
    LostIsElsewhere(cfg, s, c);
    hide Inv, ServerStep, ThreadStep;
    if step.ServerRead? || step.ServerDispatch? || step.ServerWrite? || step.ServerStops? {
      ServerOver(cfg, s, step, c);
    } else if step.t < |s.threads| {
      ThreadElsewhere(cfg, s, step, c);
    } else {
      Idles(cfg, s, step);
    }
  }

  // ---------------------------------------------------------------- main results

  /** In every run the client starts to write each request at most twice, and at most once if it makes no
      attempts to reconnect. */
  lemma SentAtMostTwice(cfg: Config, threads: nat, steps: seq<Step>, x: nat)
    requires Faithful(cfg.wire)
    ensures Begins(Run(cfg, threads, steps).conns, x) <= 2
    ensures cfg.reconnect.None? || cfg.reconnect == Some(0) ==> Begins(Run(cfg, threads, steps).conns, x) <= 1
  {
    RunBounded(cfg, threads, steps);
  }

  /** However a run goes on: a handler that has stopped dispatches nothing more, and a connection that
      the client has given up stays given up, for the same reason, and no request is written to it. */
  lemma {:induction false} OverForGood(cfg: Config, s: State, later: seq<Step>, c: nat)
    requires Faithful(cfg.wire) && Inv(cfg, s)
    ensures Over(s, RunFrom(cfg, s, later), c)
    decreases |later|
  {
    if later != [] {
      var init := later[..|later| - 1];
      OverForGood(cfg, s, init, c);
      RunKeeps(cfg, s, init);
      StepOver(cfg, RunFrom(cfg, s, init), later[|later| - 1], c);
    }
  }

  /** So once a handler has stopped, because of an error, EOF or a shutdown, nothing that arrives on its
      connection later, or is still on its way, is ever dispatched. */
  lemma StoppedServesNoMore(cfg: Config, s: State, later: seq<Step>, c: nat)
    requires Faithful(cfg.wire) && Inv(cfg, s) && c < |s.conns|
    ensures var s1 := RunFrom(cfg, s, [ServerStops(c)] + later);
            Stopped(s1, c) && s1.conns[c].served == s.conns[c].served
  {
    var stopped := SetConn(s, c, HandlerStop(s.conns[c]));
    OneStep(cfg, s, ServerStops(c));
    assert RunFrom(cfg, s, [ServerStops(c)]) == stopped;
    RunKeeps(cfg, s, [ServerStops(c)]);
    hide Inv;
    RunAppend(cfg, s, [ServerStops(c)], later);
    OverForGood(cfg, stopped, later, c);
  }
}
