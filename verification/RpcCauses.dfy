/** What the error of a call tells its caller: which failure it was, and that it cost a connection. */
module RpcCauses {
  import opened Bytes
  import opened Errors
  import opened Frames
  import opened Envelopes
  import opened CppCodec
  import opened RpcConn
  import opened RpcRun
  import opened RpcBase
  import opened RpcIds
  import opened RpcSteps
  import opened RpcTheorems

  /** A send fails because the request does not fit in a frame, or in a system call. */
  predicate SendErr(cfg: Config, r: Envelope, err: Error) {
    && (err == FrameTooLarge <==> !Legal(cfg.wire.enc(r)))
    && (err == FrameTooLarge || err.System?)
  }

  /** The request was dispatched and the decoder rejects the response. */
  ghost predicate Undecodable(cfg: Config, conns: seq<Conn>, r: Envelope) {
    exists c, i :: && 0 <= c < |conns| && 0 <= i < |conns[c].served| && conns[c].served[i].request == r
                   && cfg.wire.dec(cfg.wire.enc(conns[c].served[i].response)).None?
  }

  /** A receive fails in a system call, at EOF, or because the response does not decode; never
      because of its size. */
  ghost predicate RecvErr(cfg: Config, conns: seq<Conn>, r: Envelope, err: Error) {
    && Legal(cfg.wire.enc(r))
    && (OfTransport(err) || (err == SerializationError && Undecodable(cfg, conns, r)))
  }

  /** Some connection was given up because of this error. */
  ghost predicate Cost(conns: seq<Conn>, err: Error) {
    exists c :: 0 <= c < |conns| && conns[c].end.loss == Some(After(err))
  }

  ghost predicate PcOk(cfg: Config, conns: seq<Conn>, pc: Pc) {
    match pc
    case Sending(r, _, _) => Legal(cfg.wire.enc(r))
    case Receiving(r, _) => Legal(cfg.wire.enc(r))
    case Notifying(r, cause) =>
      && Cost(conns, cause.err)
      && if cause.RecvFailed? then RecvErr(cfg, conns, r, cause.err) else SendErr(cfg, r, cause.err)
    case RetryBackoff(r, _, err) => Cost(conns, err) && SendErr(cfg, r, err)
    case _ => true
  }

  ghost predicate ResultOk(cfg: Config, conns: seq<Conn>, r: Envelope, o: Outcome) {
    match o
    case SendError(err) => Cost(conns, err) && SendErr(cfg, r, err)
    case RecvError(err) => Cost(conns, err) && RecvErr(cfg, conns, r, err)
    case _ => Legal(cfg.wire.enc(r))
  }

  ghost predicate Causes(cfg: Config, s: State) {
    && (forall t :: 0 <= t < |s.threads| ==> PcOk(cfg, s.conns, s.threads[t]))
    && (forall x :: x in s.results ==> x in s.issued && ResultOk(cfg, s.conns, s.issued[x], s.results[x]))
  }

  // ---------------------------------------------------------------- connections only grow older

  ghost predicate Older(a: seq<Conn>, b: seq<Conn>) {
    |a| <= |b| && forall c :: 0 <= c < |a| ==>
      && a[c].served <= b[c].served
      && (a[c].end.loss.Some? ==> b[c].end.loss == a[c].end.loss)
  }

  lemma OlderKeeps(cfg: Config, a: seq<Conn>, b: seq<Conn>)
    requires Older(a, b)
    ensures forall err :: Cost(a, err) ==> Cost(b, err)
    ensures forall r :: Undecodable(cfg, a, r) ==> Undecodable(cfg, b, r)
  {
    forall err | Cost(a, err) ensures Cost(b, err) {
      var c :| 0 <= c < |a| && a[c].end.loss == Some(After(err));
      assert b[c].end.loss == Some(After(err));
    }
    forall r | Undecodable(cfg, a, r) ensures Undecodable(cfg, b, r) {
      var c, i :| && 0 <= c < |a| && 0 <= i < |a[c].served| && a[c].served[i].request == r
                  && cfg.wire.dec(cfg.wire.enc(a[c].served[i].response)).None?;
      assert b[c].served[i] == a[c].served[i];
    }
  }

  /** Thread `t` moves on; if it returns, its outcome is explained. */
  ghost predicate Explains(cfg: Config, s: State, s1: State, t: nat) {
    && t < |s.threads| == |s1.threads| && s1.threads == s.threads[t := s1.threads[t]]
    && Older(s.conns, s1.conns) && PcOk(cfg, s1.conns, s1.threads[t])
    && (forall x :: x in s.issued ==> x in s1.issued && s1.issued[x] == s.issued[x])
    && (forall x :: x in s1.results ==>
          || (x in s.results && s1.results[x] == s.results[x])
          || (x in s1.issued && ResultOk(cfg, s1.conns, s1.issued[x], s1.results[x])))
  }

  lemma ExplainsKeeps(cfg: Config, s: State, s1: State, t: nat)
    requires Causes(cfg, s) && Explains(cfg, s, s1, t)
    ensures Causes(cfg, s1)
  {
    OlderKeeps(cfg, s.conns, s1.conns);
    hide Cost, Undecodable, Older;
    forall u | 0 <= u < |s1.threads| ensures PcOk(cfg, s1.conns, s1.threads[u]) {
      if u != t {
        assert PcOk(cfg, s.conns, s.threads[u]);
      }
    }
  }

  // ---------------------------------------------------------------- each step explains itself

  lemma SetPcExplains(cfg: Config, s: State, t: nat, pc: Pc)
    requires t < |s.threads| && PcOk(cfg, s.conns, pc)
    ensures Explains(cfg, s, SetPc(s, t, pc), t)
  {
    hide PcOk, ResultOk;
  }

  lemma FinishExplains(cfg: Config, s: State, t: nat, r: Envelope, o: Outcome)
    requires t < |s.threads| && r.requestId in s.issued && s.issued[r.requestId] == r
    requires ResultOk(cfg, s.conns, r, o)
    ensures Explains(cfg, s, Finish(s, t, r, o), t)
  {
    hide ResultOk;
  }

  /** The connection is given up for the error: it was the one connected, so nothing else was the
      cause before. */
  lemma DropCosts(s: State, err: Error)
    requires s.framed.Some? && s.framed.value < |s.conns| && s.conns[s.framed.value].end.loss.None?
    ensures Older(s.conns, DropHandles(s, After(err)).conns) && Cost(DropHandles(s, After(err)).conns, err)
  {
    assert DropHandles(s, After(err)).conns[s.framed.value].end.loss == Some(After(err));
  }

  lemma DisconnectedExplains(cfg: Config, s: State, t: nat, r: Envelope, cause: Cause)
    requires t < |s.threads|
    requires s.framed.Some? && s.framed.value < |s.conns| && s.conns[s.framed.value].end.loss.None?
    requires if cause.RecvFailed? then RecvErr(cfg, s.conns, r, cause.err) else SendErr(cfg, r, cause.err)
    ensures Explains(cfg, s, Disconnected(s, t, r, cause), t)
  {
    DropCosts(s, cause.err);
    OlderKeeps(cfg, s.conns, DropHandles(s, After(cause.err)).conns);
    hide DropHandles, Cost, Undecodable, ResultOk, SendErr;
  }

  /** The client's connection is connected and has no loss yet. */
  ghost predicate Connected(s: State) {
    && s.codec == s.framed && s.codec.Some? && s.codec.value < |s.conns|
    && s.conns[s.codec.value].end.loss.None?
  }

  lemma InvConnected(cfg: Config, s: State)
    requires Base(cfg, s) && s.codec.Some?
    ensures Connected(s)
  {
    assert ConnOk(cfg.wire, s.conns[s.codec.value]);
  }

  lemma StartSendExplains(cfg: Config, s: State, t: nat, r: Envelope, retry: bool)
    requires t < |s.threads| && Connected(s)
    ensures Explains(cfg, s, StartSend(cfg, s, t, r, retry), t)
  {
    hide ResultOk;
    if !Legal(cfg.wire.enc(r)) {
      DisconnectedExplains(cfg, s, t, r, SendCause(retry, FrameTooLarge));
    }
  }

  /** What comes before in the same step: an id is issued, a connection opened. */
  lemma AfterMore(cfg: Config, s: State, s1: State, s2: State, t: nat)
    requires Explains(cfg, s1, s2, t) && s1.threads == s.threads && s1.results == s.results && Older(s.conns, s1.conns)
    requires forall x :: x in s.issued ==> x in s1.issued && s1.issued[x] == s.issued[x]
    ensures Explains(cfg, s, s2, t)
  {
    hide PcOk, ResultOk;
    forall c | 0 <= c < |s.conns| ensures s.conns[c].served <= s2.conns[c].served {
      assert s.conns[c].served <= s1.conns[c].served <= s2.conns[c].served;
    }
  }

  lemma BeginCallExplains(cfg: Config, s: State, t: nat, call: Call)
    requires t < |s.threads| && Connected(s) && s.nextId !in s.issued
    ensures Explains(cfg, s, BeginCall(cfg, s, t, call), t)
  {
    hide StartSend, Explains;
    var r := NewRequest(s, call);
    StartSendExplains(cfg, Issue(s, r), t, r, false);
    AfterMore(cfg, s, Issue(s, r), BeginCall(cfg, s, t, call), t);
  }

  lemma OpensConnected(s: State)
    ensures Connected(OpenConn(s)) && Older(s.conns, OpenConn(s).conns)
  {
  }

  lemma RefuseExplains(cfg: Config, s: State, t: nat, call: Call)
    requires t < |s.threads|
    ensures Explains(cfg, s, Refuse(s, t, call), t)
  {
    hide ResultOk;
  }

  lemma EnterExplains(cfg: Config, s: State, t: nat, call: Call)
    requires Free(s, t) && PcOk(cfg, s.conns, s.threads[t]) && s.nextId !in s.issued
    requires s.codec.Some? ==> Connected(s)
    ensures Explains(cfg, s, EnterStep(cfg, s, t, call), t)
  {
    hide Explains, BeginCall, Refuse;
    if s.codec.None? {
      RefuseExplains(cfg, s, t, call);
      SetPcExplains(cfg, s, t, FirstBackoff(call, 0));
    } else if CanBegin(s) {
      BeginCallExplains(cfg, s, t, call);
    } else {
      Stays(cfg, s, t);
    }
  }

  lemma Stays(cfg: Config, s: State, t: nat)
    requires t < |s.threads| && PcOk(cfg, s.conns, s.threads[t])
    ensures Explains(cfg, s, s, t)
  {
    hide PcOk, ResultOk;
    assert s.threads[t := s.threads[t]] == s.threads;
  }

  lemma FirstWakeExplains(cfg: Config, s: State, t: nat, call: Call, attempt: nat, accepted: bool)
    requires Free(s, t) && PcOk(cfg, s.conns, s.threads[t]) && s.nextId !in s.issued
    ensures Explains(cfg, s, FirstWake(cfg, s, t, call, attempt, accepted), t)
  {
    hide Explains, BeginCall, Refuse, OpenConn;
    var s1 := OpenConn(s);
    if s.codec.Some? || !accepted {
      RefuseExplains(cfg, s, t, call);
      SetPcExplains(cfg, s, t, FirstBackoff(call, attempt + 1));
    } else if CanBegin(s1) {
      OpensSame(s);
      OpensConnected(s);
      BeginCallExplains(cfg, s1, t, call);
      AfterMore(cfg, s, s1, BeginCall(cfg, s1, t, call), t);
    } else {
      Stays(cfg, s, t);
    }
  }

  lemma OpensSame(s: State)
    ensures var s1 := OpenConn(s);
            s1.threads == s.threads && s1.results == s.results && s1.issued == s.issued && s1.nextId == s.nextId
  {
  }

  lemma RetryWakeExplains(cfg: Config, s: State, t: nat, r: Envelope, attempt: nat, err: Error, accepted: bool)
    requires Free(s, t) && s.threads[t] == RetryBackoff(r, attempt, err) && PcOk(cfg, s.conns, s.threads[t])
    requires r.requestId in s.issued && s.issued[r.requestId] == r
    ensures Explains(cfg, s, RetryWake(cfg, s, t, r, attempt, err, accepted), t)
  {
    hide Explains, StartSend, Finish, OpenConn;
    var s1 := OpenConn(s);
    OpensSame(s);
    OpensConnected(s);
    if s.codec.Some? || !accepted {
      FinishExplains(cfg, s, t, r, SendError(err));
      SetPcExplains(cfg, s, t, RetryBackoff(r, attempt + 1, err));
    } else {
      StartSendExplains(cfg, s1, t, r, true);
      AfterMore(cfg, s, s1, StartSend(cfg, s1, t, r, true), t);
    }
  }

  lemma SentExplains(cfg: Config, s: State, t: nat, n: nat)
    requires CanSend(cfg, s, t, n)
    ensures Explains(cfg, s, Sent(cfg, s, t, n), t)
  {
    hide ResultOk;
  }

  lemma NotifiedExplains(cfg: Config, s: State, t: nat, r: Envelope, cause: Cause)
    requires Free(s, t) && s.threads[t] == Notifying(r, cause) && PcOk(cfg, s.conns, s.threads[t])
    requires r.requestId in s.issued && s.issued[r.requestId] == r
    ensures Explains(cfg, s, NotifiedStep(cfg, s, t, r, cause), t)
  {
    hide Explains, Finish, Cost, SendErr, RecvErr;
    match cause
    case FirstSend(err) =>
      FinishExplains(cfg, s, t, r, SendError(err));
      SetPcExplains(cfg, s, t, RetryBackoff(r, 0, err));
    case RetrySend(err) => FinishExplains(cfg, s, t, r, SendError(err));
    case RecvFailed(err) => FinishExplains(cfg, s, t, r, RecvError(err));
  }

  /** The client has read the bytes of a response from its connection. */
  function AfterRead(s: State, n: nat): State
    requires s.codec.Some? && s.codec.value < |s.conns| && n <= |s.conns[s.codec.value].down|
  {
    SetConn(s, s.codec.value, ClientRead(s.conns[s.codec.value], n))
  }

  lemma ReadStays(s: State, n: nat)
    requires Connected(s) && n <= |s.conns[s.codec.value].down|
    ensures var s1 := AfterRead(s, n);
            && Connected(s1) && Older(s.conns, s1.conns)
            && s1.threads == s.threads && s1.results == s.results && s1.issued == s.issued
            && s1.conns[s.codec.value].served == s.conns[s.codec.value].served
  {
  }

  /** What is received whole is the response of the own dispatch. */
  lemma Receives(cfg: Config, s: State, t: nat, n: nat)
    requires Faithful(cfg.wire) && Base(cfg, s) && OnConn(s, t) && s.threads[t].Receiving?
    requires 1 <= n <= Need(s.threads[t].part) && n <= |s.conns[s.codec.value].down|
    ensures var k := s.conns[s.codec.value];
            match ParseOne(s.threads[t].part + k.down[..n])
            case Incomplete => true
            case Oversize(_) => false
            case Complete(payload, _) =>
              && k.served != [] && Last(k.served).request == s.threads[t].request
              && payload == cfg.wire.enc(Last(k.served).response)
  {
    ConnKnown(cfg, s, s.codec.value);
    hide ConnOk, LiveOk, ParseOne, AllConns, Faithful;
    ClientReadKeeps(cfg.wire, s.threads[t].request, s.threads[t].part, s.conns[s.codec.value], n);
  }

  lemma RecvExplains(cfg: Config, s: State, t: nat, n: nat)
    requires Faithful(cfg.wire) && Base(cfg, s) && Connected(s) && OnConn(s, t) && s.threads[t].Receiving?
    requires Mine(s, t, s.threads[t].request) && PcOk(cfg, s.conns, s.threads[t])
    ensures Explains(cfg, s, RecvStep(cfg, s, t, n), t)
  {
    var Receiving(r, part) := s.threads[t];
    var k := s.conns[s.codec.value];
    hide Explains, Disconnected, Finish, Connected, ParseOne, Older, Base;
    if 1 <= n <= Need(part) && n <= |k.down| {
      ReadStays(s, n);
      Receives(cfg, s, t, n);
      var s1, part1 := AfterRead(s, n), part + k.down[..n];
      match ParseOne(part1) {
        case Incomplete => SetPcExplains(cfg, s1, t, Receiving(r, part1));
        case Complete(payload, _) => ReadExplains(cfg, s1, t, r, payload);
      }
      AfterMore(cfg, s, s1, RecvStep(cfg, s, t, n), t);
    } else {
      Stays(cfg, s, t);
    }
  }

  lemma ReadExplains(cfg: Config, s: State, t: nat, r: Envelope, payload: bytes)
    requires t < |s.threads| && Connected(s) && Legal(cfg.wire.enc(r))
    requires r.requestId in s.issued && s.issued[r.requestId] == r
    requires var served := s.conns[s.codec.value].served;
             served != [] && Last(served).request == r && payload == cfg.wire.enc(Last(served).response)
    ensures match cfg.wire.dec(payload)
            case None => Explains(cfg, s, Disconnected(s, t, r, RecvFailed(SerializationError)), t)
            case Some(e) => forall o :: o in {Mismatch(e), Success(e)} ==> Explains(cfg, s, Finish(s, t, r, o), t)
  {
    hide Explains, Disconnected, Finish;
    match cfg.wire.dec(payload)
    case None =>
      var c, i := s.codec.value, |s.conns[s.codec.value].served| - 1;
      assert s.conns[c].served[i].request == r;
      DisconnectedExplains(cfg, s, t, r, RecvFailed(SerializationError));
    case Some(e) =>
      FinishExplains(cfg, s, t, r, Mismatch(e));
      FinishExplains(cfg, s, t, r, Success(e));
  }

  // ---------------------------------------------------------------- every step, every run

  lemma IdleCauses(cfg: Config, s: State, step: Step)
    requires Base(cfg, s) && Causes(cfg, s) && ByThread(s, step) && s.threads[step.t].Idle?
    ensures Causes(cfg, ThreadStep(cfg, s, step))
  {
    var s1, t := ThreadStep(cfg, s, step), step.t;
    hide Base, Causes, ResultOk;
    assert Explains(cfg, s, s1, t);
    ExplainsKeeps(cfg, s, s1, t);
  }

  /** The one step that a thread outside its send and receive can take. */
  lemma OutsideStep(cfg: Config, s: State, step: Step)
    requires ByThread(s, step) && !Holds(s.threads[step.t]) && !s.threads[step.t].Idle?
    ensures ThreadStep(cfg, s, step) ==
              match s.threads[step.t]
              case Entering(call) => if step.Enter? && Free(s, step.t) then EnterStep(cfg, s, step.t, call) else s
              case FirstBackoff(call, i) =>
                if step.Wake? && Free(s, step.t) then FirstWake(cfg, s, step.t, call, i, step.accepted) else s
              case RetryBackoff(r, i, err) =>
                if step.Wake? && Free(s, step.t) then RetryWake(cfg, s, step.t, r, i, err, step.accepted) else s
              case Notifying(r, cause) =>
                if step.Notified? && Free(s, step.t) then NotifiedStep(cfg, s, step.t, r, cause) else s
              case _ => s
  {
    hide EnterStep, FirstWake, RetryWake, NotifiedStep, Sent, RecvStep, Disconnected, DropHandles, OpenConn;
  }

  lemma OutsideExplains(cfg: Config, s: State, step: Step)
    requires Base(cfg, s) && Ids(s) && ByThread(s, step) && !Holds(s.threads[step.t]) && !s.threads[step.t].Idle?
    requires PcOk(cfg, s.conns, s.threads[step.t])
    ensures Explains(cfg, s, ThreadStep(cfg, s, step), step.t)
  {
    var t := step.t;
    hide Explains, EnterStep, FirstWake, RetryWake, NotifiedStep, PcOk, ThreadStep, Connected;
    Stays(cfg, s, t);
    OutsideStep(cfg, s, step);
    if s.codec.Some? {
      InvConnected(cfg, s);
    }
    assert HasRequest(s.threads[t]) ==> Mine(s, t, s.threads[t].request);
    hide Base;
    if Free(s, t) {
      match s.threads[t]
      case Entering(call) => EnterExplains(cfg, s, t, call);
      case FirstBackoff(call, i) => if step.Wake? { FirstWakeExplains(cfg, s, t, call, i, step.accepted); }
      case RetryBackoff(r, i, err) => if step.Wake? { RetryWakeExplains(cfg, s, t, r, i, err, step.accepted); }
      case Notifying(r, cause) => NotifiedExplains(cfg, s, t, r, cause);
    }
  }

  /** A system call of the holder fails. */
  lemma FaultExplains(cfg: Config, s: State, t: nat, r: Envelope, cause: Cause)
    requires t < |s.threads| && Connected(s) && Legal(cfg.wire.enc(r)) && OfTransport(cause.err)
    requires !cause.RecvFailed? ==> cause.err.System?
    ensures Explains(cfg, s, Disconnected(s, t, r, cause), t)
  {
    hide Explains, Disconnected;
    DisconnectedExplains(cfg, s, t, r, cause);
  }

  lemma SenderExplains(cfg: Config, s: State, step: Step)
    requires Connected(s) && ByThread(s, step) && s.threads[step.t].Sending? && PcOk(cfg, s.conns, s.threads[step.t])
    ensures Explains(cfg, s, ThreadStep(cfg, s, step), step.t)
  {
    var t := step.t;
    Stays(cfg, s, t);
    hide Explains, Sent, Disconnected, Connected, Frame;
    match (step, s.threads[t])
    case (Send(_, n), Sending(_, _, _)) => if CanSend(cfg, s, t, n) { SentExplains(cfg, s, t, n); }
    case (SendFails(_, errno), Sending(r, retry, _)) =>
      FaultExplains(cfg, s, t, r, SendCause(retry, System(errno)));
    case _ =>
  }

  lemma ReceiverExplains(cfg: Config, s: State, step: Step)
    requires Faithful(cfg.wire) && Base(cfg, s) && Connected(s) && ByThread(s, step) && s.threads[step.t].Receiving?
    requires Mine(s, step.t, s.threads[step.t].request) && PcOk(cfg, s.conns, s.threads[step.t])
    ensures Explains(cfg, s, ThreadStep(cfg, s, step), step.t)
  {
    var t := step.t;
    hide Explains, RecvStep, Disconnected, Connected, Base, Mine, Frame, Faithful;
    Stays(cfg, s, t);
    assert Legal(cfg.wire.enc(s.threads[t].request));
    hide PcOk;
    if step.Recv? {
      if OnConn(s, t) { RecvExplains(cfg, s, t, step.n); }
    } else if step.RecvFails? {
      FaultExplains(cfg, s, t, s.threads[t].request, RecvFailed(FaultError(step.fault)));
    }
  }

  lemma HolderExplains(cfg: Config, s: State, step: Step)
    requires Faithful(cfg.wire) && Inv(cfg, s) && ByThread(s, step) && Holds(s.threads[step.t])
    requires PcOk(cfg, s.conns, s.threads[step.t])
    ensures Explains(cfg, s, ThreadStep(cfg, s, step), step.t)
  {
    hide Explains, ThreadStep, Connected, PcOk;
    InvConnected(cfg, s);
    assert Mine(s, step.t, s.threads[step.t].request);
    if s.threads[step.t].Sending? {
      SenderExplains(cfg, s, step);
    } else {
      ReceiverExplains(cfg, s, step);
    }
  }

  lemma ServerCauses(cfg: Config, s: State, step: Step)
    requires Causes(cfg, s)
    requires step.ServerRead? || step.ServerDispatch? || step.ServerWrite? || step.ServerStops?
    ensures Causes(cfg, ServerStep(cfg, s, step))
  {
    var s1 := ServerStep(cfg, s, step);
    assert Older(s.conns, s1.conns) && s1.threads == s.threads;
    OlderKeeps(cfg, s.conns, s1.conns);
    hide Cost, Undecodable, Older;
  }

  lemma StepCauses(cfg: Config, s: State, step: Step)
    requires Faithful(cfg.wire) && Inv(cfg, s) && Causes(cfg, s)
    ensures Causes(cfg, Apply(cfg, s, step))
  {
    hide ThreadStep, ServerStep, Explains, PcOk, ResultOk;
    if step.ServerRead? || step.ServerDispatch? || step.ServerWrite? || step.ServerStops? {
      ServerCauses(cfg, s, step);
    } else if step.t < |s.threads| {
      if s.threads[step.t].Idle? {
        IdleCauses(cfg, s, step);
      } else {
        if Holds(s.threads[step.t]) {
          HolderExplains(cfg, s, step);
        } else {
          OutsideExplains(cfg, s, step);
        }
        ExplainsKeeps(cfg, s, ThreadStep(cfg, s, step), step.t);
      }
    } else {
      NoThread(cfg, s, step);
    }
  }

  lemma NoThread(cfg: Config, s: State, step: Step)
    requires !step.ServerRead? && !step.ServerDispatch? && !step.ServerWrite? && !step.ServerStops?
    requires step.t >= |s.threads|
    ensures ThreadStep(cfg, s, step) == s
  {
  }

  lemma {:induction false} RunCauses(cfg: Config, threads: nat, steps: seq<Step>)
    requires Faithful(cfg.wire)
    ensures Causes(cfg, Run(cfg, threads, steps))
    decreases |steps|
  {
    if steps != [] {
      var init := steps[..|steps| - 1];
      RunCauses(cfg, threads, init);
      Reachable(cfg, threads, init);
      StepCauses(cfg, Run(cfg, threads, init), steps[|steps| - 1]);
    }
  }

  lemma UndecodableIsDispatched(cfg: Config, s: State, x: nat)
    requires Inv(cfg, s) && x in s.issued && Undecodable(cfg, s.conns, s.issued[x])
    ensures Dispatches(s.conns, x) == 1
  {
    AtMostOne(cfg, s, x);
    DispatchesZero(s.conns, x);
    hide Inv;
    var c, i :| && 0 <= c < |s.conns| && 0 <= i < |s.conns[c].served|
                && s.conns[c].served[i].request == s.issued[x];
    assert Serves(s.conns[c].served, x);
  }

  // ---------------------------------------------------------------- the main result

  /** Of every call that returned, after every run: its error is a size error exactly if its request
      does not fit in a frame, and then nothing was dispatched; a receive error is that of the
      transport, or the request was dispatched once and its response does not decode; and each error
      returned cost the client a connection. */
  lemma ErrorsNameCauses(cfg: Config, threads: nat, steps: seq<Step>, x: nat)
    requires Faithful(cfg.wire) && x in Run(cfg, threads, steps).results
    ensures var s := Run(cfg, threads, steps);
            && x in s.issued
            && (s.results[x] == SendError(FrameTooLarge) <==> !Legal(cfg.wire.enc(s.issued[x])))
            && match s.results[x]
               case SendError(err) => (err == FrameTooLarge || err.System?) && Cost(s.conns, err)
               case RecvError(err) =>
                 && (err.System? || err == ConnectionReset || err == SerializationError) && Cost(s.conns, err)
                 && (err == SerializationError ==> Undecodable(cfg, s.conns, s.issued[x])
                                                   && Dispatches(s.conns, x) == 1)
               case _ => true
  {
    var s := Run(cfg, threads, steps);
    RunCauses(cfg, threads, steps);
    Reachable(cfg, threads, steps);
    assert ResultOk(cfg, s.conns, s.issued[x], s.results[x]);
    hide Run, Causes, Cost, Undecodable, Dispatches, Faithful;
    if s.results[x] == RecvError(SerializationError) {
      UndecodableIsDispatched(cfg, s, x);
    }
  }
}
