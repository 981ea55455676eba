/** No call is lost, and none is changed on its way into a request: an account of every call that any
    thread ever made. */
module RpcAccount {
  import opened Bytes
  import opened Errors
  import opened Frames
  import opened Envelopes
  import opened Dispatcher
  import opened CppCodec
  import opened RpcConn
  import opened RpcRun
  import opened RpcIds
  import opened RpcSteps

  /** The thread is inside `call` but has not been given an id. */
  predicate Preparing(pc: Pc) {
    pc.Entering? || pc.FirstBackoff?
  }

  function One(b: bool): nat {
    if b then 1 else 0
  }

  function Count(threads: seq<Pc>, p: Pc -> bool): nat {
    if threads == [] then 0
    else Count(threads[..|threads| - 1], p) + One(p(threads[|threads| - 1]))
  }

  lemma {:induction false} CountUpdate(threads: seq<Pc>, t: nat, pc: Pc, p: Pc -> bool)
    requires t < |threads|
    ensures Count(threads[t := pc], p) + One(p(threads[t])) == Count(threads, p) + One(p(pc))
    decreases |threads|
  {
    var n := |threads| - 1;
    if t < n {
      CountUpdate(threads[..n], t, pc, p);
      assert threads[t := pc][..n] == threads[..n][t := pc];
    } else {
      assert threads[t := pc][..n] == threads[..n];
    }
  }

  lemma {:induction false} CountNone(threads: seq<Pc>, p: Pc -> bool)
    requires forall t :: 0 <= t < |threads| ==> !p(threads[t])
    ensures Count(threads, p) == 0
    decreases |threads|
  {
    if threads != [] {
      CountNone(threads[..|threads| - 1], p);
    }
  }

  // ---------------------------------------------------------------- which calls

  /** The call that the thread is to build a request for. */
  function InHand(pc: Pc): multiset<Call> {
    if Preparing(pc) then multiset{pc.call} else multiset{}
  }

  function AllInHand(threads: seq<Pc>): multiset<Call> {
    if threads == [] then multiset{}
    else AllInHand(threads[..|threads| - 1]) + InHand(threads[|threads| - 1])
  }

  lemma Rearranged(a: multiset<Call>, a1: multiset<Call>, h: multiset<Call>, h1: multiset<Call>, l: multiset<Call>)
    requires a1 + h == a + h1
    ensures a1 + l + h == a + l + h1
  {
    forall c: Call ensures (a1 + l + h)[c] == (a + l + h1)[c] {
      assert (a1 + h)[c] == (a + h1)[c];
    }
  }

  lemma {:induction false} InHandUpdate(threads: seq<Pc>, t: nat, pc: Pc)
    requires t < |threads|
    ensures AllInHand(threads[t := pc]) + InHand(threads[t]) == AllInHand(threads) + InHand(pc)
    decreases |threads|
  {
    hide InHand;
    var n := |threads| - 1;
    var a, l := AllInHand(threads[..n]), InHand(threads[n]);
    AllInHandLast(threads);
    AllInHandLast(threads[t := pc]);
    if t < n {
      InHandUpdate(threads[..n], t, pc);
      assert threads[t := pc][..n] == threads[..n][t := pc];
      Rearranged(a, AllInHand(threads[..n][t := pc]), InHand(threads[t]), InHand(pc), l);
    } else {
      assert threads[t := pc][..n] == threads[..n];
    }
  }

  lemma AllInHandLast(threads: seq<Pc>)
    requires threads != []
    ensures AllInHand(threads) == AllInHand(threads[..|threads| - 1]) + InHand(threads[|threads| - 1])
  {
  }

  lemma {:induction false} NoneInHand(threads: seq<Pc>)
    requires forall t :: 0 <= t < |threads| ==> !Preparing(threads[t])
    ensures AllInHand(threads) == multiset{}
    decreases |threads|
  {
    if threads != [] {
      NoneInHand(threads[..|threads| - 1]);
    }
  }

  /** The request asks for the method of a call, with its payload, and carries nothing else. */
  predicate IsRequest(r: Envelope) {
    r.kind == REQUEST && r.status == OK && r.errorMessage == [] && r.metadata == map[]
  }

  function CallOf(r: Envelope): Call {
    Call(r.serviceName, r.methodName, r.payload)
  }

  /** The calls that the requests of the ids below `n` ask for. */
  function Asked(issued: map<nat, Envelope>, n: nat): multiset<Call> {
    if n == 0 then multiset{}
    else Asked(issued, n - 1) + (if n - 1 in issued then multiset{CallOf(issued[n - 1])} else multiset{})
  }

  lemma {:induction false} AskedBefore(issued: map<nat, Envelope>, x: nat, r: Envelope, n: nat)
    requires n <= x
    ensures Asked(issued[x := r], n) == Asked(issued, n)
  {
    if n > 0 {
      AskedBefore(issued, x, r, n - 1);
    }
  }

  lemma NothingAsked()
    ensures Asked(map[], 1) == multiset{}
  {
    assert Asked(map[], 0) == multiset{};
  }

  lemma {:induction false} AskedHas(issued: map<nat, Envelope>, x: nat, n: nat)
    requires x in issued && x < n
    ensures CallOf(issued[x]) in Asked(issued, n)
  {
    if x < n - 1 {
      AskedHas(issued, x, n - 1);
    }
  }

  // ---------------------------------------------------------------- the account

  predicate Starts(s: State, step: Step) {
    step.StartCall? && step.t < |s.threads| && s.threads[step.t].Idle?
  }

  /** The call that the step makes, if it makes one. */
  function Made(s: State, step: Step): multiset<Call> {
    if Starts(s, step) then multiset{step.call} else multiset{}
  }

  /** The calls made: those of the steps that took an idle thread into `call`. */
  function Started(cfg: Config, s: State, steps: seq<Step>): multiset<Call>
    decreases |steps|
  {
    if steps == [] then multiset{}
    else
      var before, step := RunFrom(cfg, s, steps[..|steps| - 1]), steps[|steps| - 1];
      Started(cfg, s, steps[..|steps| - 1]) + Made(before, step)
  }

  lemma {:induction false} StartedBy(cfg: Config, s: State, steps: seq<Step>, call: Call) returns (i: nat)
    requires call in Started(cfg, s, steps)
    ensures i < |steps| && steps[i].StartCall? && steps[i].call == call
    decreases |steps|
  {
    var n := |steps| - 1;
    if call in Started(cfg, s, steps[..n]) {
      i := StartedBy(cfg, s, steps[..n], call);
    } else {
      i := n;
    }
  }

  /** The calls that were refused and those for which a request was built. */
  function Settled(s: State): multiset<Call> {
    multiset(s.refused) + Asked(s.issued, s.nextId)
  }

  ghost predicate AllRequests(issued: map<nat, Envelope>) {
    forall x :: x in issued ==> IsRequest(issued[x])
  }

  /** Each call was refused, or was given an id, or is on its way to one of the two; each id has its
      outcome, or a thread that works on it. */
  ghost predicate Balanced(s: State, started: multiset<Call>) {
    && started == Settled(s) + AllInHand(s.threads) && AllRequests(s.issued)
    && |started| == |s.refused| + |s.issued| + Count(s.threads, Preparing)
    && |s.issued| == |s.results| + Count(s.threads, HasRequest)
  }

  /** Thread `t` moves on by one step of one call; `made` is that call if the step starts it. */
  ghost predicate Moves(s: State, s1: State, t: nat, made: multiset<Call>) {
    && t < |s.threads| == |s1.threads| && s1.threads == s.threads[t := s1.threads[t]]
    && Settled(s1) + InHand(s1.threads[t]) == Settled(s) + InHand(s.threads[t]) + made
    && (AllRequests(s.issued) ==> AllRequests(s1.issued))
    && |s1.refused| + |s1.issued| + One(Preparing(s1.threads[t]))
       == |s.refused| + |s.issued| + One(Preparing(s.threads[t])) + |made|
    && |s.issued| - |s.results| + One(HasRequest(s1.threads[t]))
       == |s1.issued| - |s1.results| + One(HasRequest(s.threads[t]))
  }

  /** What is added at one thread is added to all. */
  lemma Exchanged(a: multiset<Call>, a1: multiset<Call>, m: multiset<Call>, all: multiset<Call>,
                  all1: multiset<Call>, h: multiset<Call>, h1: multiset<Call>)
    requires a1 + h1 == a + h + m && all1 + h == all + h1
    ensures a1 + all1 == a + all + m
  {
    forall c: Call ensures (a1 + all1)[c] == (a + all + m)[c] {
      assert (a1 + h1)[c] == (a + h + m)[c] && (all1 + h)[c] == (all + h1)[c];
    }
  }

  lemma MovesBalance(s: State, s1: State, t: nat, made: multiset<Call>, started: multiset<Call>)
    requires Balanced(s, started) && Moves(s, s1, t, made)
    ensures Balanced(s1, started + made)
  {
    hide Settled, AllRequests, AllInHand, InHand, Count;
    CountUpdate(s.threads, t, s1.threads[t], Preparing);
    CountUpdate(s.threads, t, s1.threads[t], HasRequest);
    InHandUpdate(s.threads, t, s1.threads[t]);
    Exchanged(Settled(s), Settled(s1), made, AllInHand(s.threads), AllInHand(s1.threads),
              InHand(s.threads[t]), InHand(s1.threads[t]));
  }

  // ---------------------------------------------------------------- each step is such a move

  /** A step that neither refuses a call nor builds a request nor returns. */
  lemma PcMoves(s: State, s1: State, t: nat, made: multiset<Call>)
    requires t < |s.threads| == |s1.threads| && s1.threads == s.threads[t := s1.threads[t]]
    requires s1.refused == s.refused && s1.issued == s.issued && s1.results == s.results && s1.nextId == s.nextId
    requires HasRequest(s1.threads[t]) == HasRequest(s.threads[t])
    requires InHand(s1.threads[t]) == InHand(s.threads[t]) + made
    requires One(Preparing(s1.threads[t])) == One(Preparing(s.threads[t])) + |made|
    ensures Moves(s, s1, t, made)
  {
    hide InHand, AllRequests;
    assert Settled(s1) == Settled(s);
  }

  lemma SetPcMoves(s: State, t: nat, pc: Pc)
    requires t < |s.threads|
    requires Preparing(pc) == Preparing(s.threads[t]) && HasRequest(pc) == HasRequest(s.threads[t])
    requires InHand(pc) == InHand(s.threads[t])
    ensures Moves(s, SetPc(s, t, pc), t, multiset{})
  {
    hide Moves;
    PcMoves(s, SetPc(s, t, pc), t, multiset{});
  }

  lemma RefuseMoves(s: State, t: nat, call: Call)
    requires t < |s.threads| && Preparing(s.threads[t]) && s.threads[t].call == call
    ensures Moves(s, Refuse(s, t, call), t, multiset{})
  {
    hide AllRequests;
    var s1 := Refuse(s, t, call);
    assert multiset(s1.refused) == multiset(s.refused) + multiset{call};
  }

  lemma FinishMoves(s: State, t: nat, r: Envelope, o: Outcome)
    requires t < |s.threads| && HasRequest(s.threads[t]) && r.requestId !in s.results
    ensures Moves(s, Finish(s, t, r, o), t, multiset{})
  {
    hide AllRequests;
    assert Settled(Finish(s, t, r, o)) == Settled(s);
  }

  lemma DisconnectedMoves(s: State, t: nat, r: Envelope, cause: Cause)
    requires t < |s.threads| && HasRequest(s.threads[t])
    ensures Moves(s, Disconnected(s, t, r, cause), t, multiset{})
  {
    hide Moves;
    PcMoves(s, Disconnected(s, t, r, cause), t, multiset{});
  }

  lemma StartSendMoves(cfg: Config, s: State, t: nat, r: Envelope, retry: bool)
    requires t < |s.threads| && HasRequest(s.threads[t]) && s.codec.Some? && s.codec.value < |s.conns|
    ensures Moves(s, StartSend(cfg, s, t, r, retry), t, multiset{})
  {
    hide Moves, Begin;
    if Legal(cfg.wire.enc(r)) {
      PcMoves(s, StartSend(cfg, s, t, r, retry), t, multiset{});
    } else {
      DisconnectedMoves(s, t, r, SendCause(retry, FrameTooLarge));
    }
  }

  /** The request of a call is built and takes the next id. */
  lemma IssueSettles(s: State, call: Call)
    requires s.nextId !in s.issued
    ensures var s1 := Issue(s, NewRequest(s, call));
            && Settled(s1) == Settled(s) + multiset{call} && |s1.issued| == |s.issued| + 1
            && (AllRequests(s.issued) ==> AllRequests(s1.issued))
  {
    AskedBefore(s.issued, s.nextId, NewRequest(s, call), s.nextId);
  }

  /** Where the request goes then does not enter into the account. */
  lemma StartSendSettles(cfg: Config, s: State, t: nat, r: Envelope)
    requires t < |s.threads| && s.codec.Some? && s.codec.value < |s.conns|
    ensures var s1 := StartSend(cfg, s, t, r, false);
            && s1.refused == s.refused && s1.issued == s.issued && s1.results == s.results && s1.nextId == s.nextId
            && |s1.threads| == |s.threads| && s1.threads == s.threads[t := s1.threads[t]]
            && HasRequest(s1.threads[t]) && !Preparing(s1.threads[t])
  {
  }

  lemma BeginCallMoves(cfg: Config, s: State, t: nat, call: Call)
    requires t < |s.threads| && Preparing(s.threads[t]) && s.threads[t].call == call
    requires CanBegin(s) && s.nextId !in s.issued
    ensures Moves(s, BeginCall(cfg, s, t, call), t, multiset{})
  {
    hide StartSend, NewRequest, AllRequests;
    var r := NewRequest(s, call);
    IssueSettles(s, call);
    StartSendSettles(cfg, Issue(s, r), t, r);
    hide Asked;
  }

  lemma EnterMoves(cfg: Config, s: State, t: nat, call: Call)
    requires Free(s, t) && s.threads[t] == Entering(call) && s.nextId !in s.issued
    ensures Moves(s, EnterStep(cfg, s, t, call), t, multiset{})
  {
    if s.codec.None? {
      if cfg.reconnect.Some? && Attempts(cfg) > 0 {
        SetPcMoves(s, t, FirstBackoff(call, 0));
      } else {
        RefuseMoves(s, t, call);
      }
    } else if CanBegin(s) {
      BeginCallMoves(cfg, s, t, call);
    }
  }

  lemma FirstWakeMoves(cfg: Config, s: State, t: nat, call: Call, attempt: nat, accepted: bool)
    requires Free(s, t) && s.threads[t] == FirstBackoff(call, attempt) && s.nextId !in s.issued
    ensures Moves(s, FirstWake(cfg, s, t, call, attempt, accepted), t, multiset{})
  {
    if s.codec.Some? || !accepted {
      if attempt + 1 < Attempts(cfg) {
        SetPcMoves(s, t, FirstBackoff(call, attempt + 1));
      } else {
        RefuseMoves(s, t, call);
      }
    } else if CanBegin(OpenConn(s)) {
      BeginCallMoves(cfg, OpenConn(s), t, call);
    }
  }

  lemma RetryWakeMoves(cfg: Config, s: State, t: nat, r: Envelope, attempt: nat, err: Error, accepted: bool)
    requires Free(s, t) && s.threads[t] == RetryBackoff(r, attempt, err) && r.requestId !in s.results
    ensures Moves(s, RetryWake(cfg, s, t, r, attempt, err, accepted), t, multiset{})
  {
    if s.codec.Some? || !accepted {
      if attempt + 1 < Attempts(cfg) {
        SetPcMoves(s, t, RetryBackoff(r, attempt + 1, err));
      } else {
        FinishMoves(s, t, r, SendError(err));
      }
    } else {
      StartSendMoves(cfg, OpenConn(s), t, r, true);
    }
  }

  lemma SentMoves(cfg: Config, s: State, t: nat, n: nat)
    requires CanSend(cfg, s, t, n)
    ensures Moves(s, Sent(cfg, s, t, n), t, multiset{})
  {
    hide Moves, Accept;
    PcMoves(s, Sent(cfg, s, t, n), t, multiset{});
  }

  /** What a connection carries does not enter into the account. */
  lemma AfterConn(s: State, c: nat, k: Conn, s2: State, t: nat)
    requires c < |s.conns| && Moves(SetConn(s, c, k), s2, t, multiset{})
    ensures Moves(s, s2, t, multiset{})
  {
  }

  lemma RecvMoves(cfg: Config, s: State, t: nat, n: nat)
    requires OnConn(s, t) && s.threads[t].Receiving? && s.threads[t].request.requestId !in s.results
    ensures Moves(s, RecvStep(cfg, s, t, n), t, multiset{})
  {
    var Receiving(r, part) := s.threads[t];
    var c := s.codec.value;
    var k := s.conns[c];
    if 1 <= n <= Need(part) && n <= |k.down| {
      var s1, part1 := SetConn(s, c, ClientRead(k, n)), part + k.down[..n];
      match ParseOne(part1) {
        case Incomplete => SetPcMoves(s1, t, Receiving(r, part1));
        case Oversize(_) => DisconnectedMoves(s1, t, r, RecvFailed(FrameTooLarge));
        case Complete(payload, _) => ReadMoves(cfg, s1, t, r, payload);
      }
      AfterConn(s, c, ClientRead(k, n), RecvStep(cfg, s, t, n), t);
    }
  }

  lemma ReadMoves(cfg: Config, s: State, t: nat, r: Envelope, payload: bytes)
    requires t < |s.threads| && HasRequest(s.threads[t]) && r.requestId !in s.results
    ensures Moves(s, match cfg.wire.dec(payload)
                     case None => Disconnected(s, t, r, RecvFailed(SerializationError))
                     case Some(response) =>
                       Finish(s, t, r, if response.requestId != r.requestId then Mismatch(response)
                                       else Success(response)),
                  t, multiset{})
  {
    match cfg.wire.dec(payload)
    case None => DisconnectedMoves(s, t, r, RecvFailed(SerializationError));
    case Some(response) =>
      FinishMoves(s, t, r, if response.requestId != r.requestId then Mismatch(response) else Success(response));
  }

  lemma NotifiedMoves(cfg: Config, s: State, t: nat, r: Envelope, cause: Cause)
    requires Free(s, t) && s.threads[t] == Notifying(r, cause) && r.requestId !in s.results
    ensures Moves(s, NotifiedStep(cfg, s, t, r, cause), t, multiset{})
  {
    hide Moves;
    match cause
    case FirstSend(err) =>
      if Attempts(cfg) > 0 {
        SetPcMoves(s, t, RetryBackoff(r, 0, err));
      } else {
        FinishMoves(s, t, r, SendError(err));
      }
    case RetrySend(err) => FinishMoves(s, t, r, SendError(err));
    case RecvFailed(err) => FinishMoves(s, t, r, RecvError(err));
  }

  lemma PreparingMoves(cfg: Config, s: State, step: Step)
    requires ByThread(s, step) && Preparing(s.threads[step.t]) && s.nextId !in s.issued
    ensures Moves(s, ThreadStep(cfg, s, step), step.t, multiset{})
  {
    hide Moves, EnterStep, FirstWake, RetryWake, Sent, RecvStep, NotifiedStep, Disconnected, DropHandles;
    var t := step.t;
    SetPcMoves(s, t, s.threads[t]);
    assert SetPc(s, t, s.threads[t]) == s;
    match (step, s.threads[t])
    case (Enter(_), Entering(call)) => if Free(s, t) { EnterMoves(cfg, s, t, call); }
    case (Wake(_, accepted), FirstBackoff(call, i)) =>
      if Free(s, t) { FirstWakeMoves(cfg, s, t, call, i, accepted); }
    case _ =>
  }

  lemma SendingMoves(cfg: Config, s: State, step: Step)
    requires ByThread(s, step) && s.threads[step.t].Sending?
    ensures Moves(s, ThreadStep(cfg, s, step), step.t, multiset{})
  {
    var t := step.t;
    match (step, s.threads[t])
    case (Send(_, n), Sending(_, _, _)) => if CanSend(cfg, s, t, n) { SentMoves(cfg, s, t, n); }
    case (SendFails(_, errno), Sending(r, retry, _)) =>
      DisconnectedMoves(s, t, r, SendCause(retry, System(errno)));
    case _ =>
  }

  lemma ReceivingMoves(cfg: Config, s: State, step: Step)
    requires ByThread(s, step) && s.threads[step.t].Receiving?
    requires s.threads[step.t].request.requestId !in s.results
    ensures Moves(s, ThreadStep(cfg, s, step), step.t, multiset{})
  {
    var t := step.t;
    match (step, s.threads[t])
    case (Recv(_, n), Receiving(_, _)) => if OnConn(s, t) { RecvMoves(cfg, s, t, n); }
    case (RecvFails(_, fault), Receiving(r, _)) => DisconnectedMoves(s, t, r, RecvFailed(FaultError(fault)));
    case _ =>
  }

  lemma PausedMoves(cfg: Config, s: State, step: Step)
    requires ByThread(s, step) && (s.threads[step.t].Notifying? || s.threads[step.t].RetryBackoff?)
    requires s.threads[step.t].request.requestId !in s.results
    ensures Moves(s, ThreadStep(cfg, s, step), step.t, multiset{})
  {
    var t := step.t;
    match (step, s.threads[t])
    case (Notified(_), Notifying(r, cause)) => if Free(s, t) { NotifiedMoves(cfg, s, t, r, cause); }
    case (Wake(_, accepted), RetryBackoff(r, i, err)) =>
      if Free(s, t) { RetryWakeMoves(cfg, s, t, r, i, err, accepted); }
    case _ =>
  }

  /** What an idle thread does leaves the account alone, but for the call it starts. */
  lemma IdleStep(cfg: Config, s: State, step: Step)
    requires ByThread(s, step) && s.threads[step.t].Idle?
    ensures var s1, t := ThreadStep(cfg, s, step), step.t;
            && s1.threads == s.threads[t := if step.StartCall? then Entering(step.call) else Idle]
            && s1.refused == s.refused && s1.issued == s.issued && s1.results == s.results && s1.nextId == s.nextId
  {
    hide GiveUp;
    assert s.threads[step.t := Idle] == s.threads;
    match step
    case StartCall(_, _) =>
    case Connect(_, _) =>
    case Disconnect(_) =>
    case _ =>
  }

  lemma IdleMoves(cfg: Config, s: State, step: Step)
    requires ByThread(s, step) && s.threads[step.t].Idle?
    ensures Moves(s, ThreadStep(cfg, s, step), step.t, Made(s, step))
  {
    IdleStep(cfg, s, step);
    hide Moves, ThreadStep;
    PcMoves(s, ThreadStep(cfg, s, step), step.t, Made(s, step));
  }

  lemma ThreadStepMoves(cfg: Config, s: State, step: Step)
    requires Issued(s) && Holders(s) && ByThread(s, step)
    ensures Moves(s, ThreadStep(cfg, s, step), step.t, Made(s, step))
  {
    var pc := s.threads[step.t];
    assert HasRequest(pc) ==> Mine(s, step.t, pc.request);
    if pc.Idle? {
      IdleMoves(cfg, s, step);
    } else if Preparing(pc) {
      PreparingMoves(cfg, s, step);
    } else if pc.Sending? {
      SendingMoves(cfg, s, step);
    } else if pc.Receiving? {
      ReceivingMoves(cfg, s, step);
    } else {
      PausedMoves(cfg, s, step);
    }
  }

  lemma ServerUnmoved(cfg: Config, s: State, step: Step)
    requires step.ServerRead? || step.ServerDispatch? || step.ServerWrite? || step.ServerStops?
    ensures var s1 := ServerStep(cfg, s, step);
            s1.threads == s.threads && s1.issued == s.issued && s1.results == s.results && s1.refused == s.refused
  {
  }

  lemma StepBalance(cfg: Config, s: State, step: Step, started: multiset<Call>)
    requires Issued(s) && Holders(s) && Balanced(s, started)
    ensures Balanced(Apply(cfg, s, step), started + Made(s, step))
  {
    if step.ServerRead? || step.ServerDispatch? || step.ServerWrite? || step.ServerStops? {
      ServerUnmoved(cfg, s, step);
    } else if step.t < |s.threads| {
      ThreadStepMoves(cfg, s, step);
      MovesBalance(s, ThreadStep(cfg, s, step), step.t, Made(s, step), started);
    }
  }

  lemma {:induction false} RunBalance(cfg: Config, threads: nat, steps: seq<Step>)
    requires Faithful(cfg.wire)
    ensures Balanced(Run(cfg, threads, steps), Started(cfg, Init(threads), steps))
    decreases |steps|
  {
    if steps == [] {
      CountNone(Init(threads).threads, Preparing);
      CountNone(Init(threads).threads, HasRequest);
      NoneInHand(Init(threads).threads);
      NothingAsked();
    } else {
      var init := steps[..|steps| - 1];
      RunBalance(cfg, threads, init);
      Reachable(cfg, threads, init);
      StepBalance(cfg, Run(cfg, threads, init), steps[|steps| - 1], Started(cfg, Init(threads), init));
    }
  }

  lemma AllReturned(s: State, started: multiset<Call>)
    requires Balanced(s, started)
    ensures (forall t :: 0 <= t < |s.threads| ==> s.threads[t].Idle?) ==> |started| == |s.refused| + |s.results|
  {
    hide Settled, AllInHand, AllRequests;
    if forall t :: 0 <= t < |s.threads| ==> s.threads[t].Idle? {
      CountNone(s.threads, Preparing);
      CountNone(s.threads, HasRequest);
    }
  }

  // ---------------------------------------------------------------- the main results

  /** Conservation of calls, after every run. The calls made are, one by one, those refused, those for
      which a request was built and those still preparing; and the ids given are those with an outcome
      and those some thread works on. So every call returns once at most, and when all threads are
      idle every call has returned. */
  lemma NoCallIsLost(cfg: Config, threads: nat, steps: seq<Step>)
    requires Faithful(cfg.wire)
    ensures var s, started := Run(cfg, threads, steps), Started(cfg, Init(threads), steps);
            && started == multiset(s.refused) + Asked(s.issued, s.nextId) + AllInHand(s.threads)
            && |started| == |s.refused| + |s.issued| + Count(s.threads, Preparing)
            && |s.issued| == |s.results| + Count(s.threads, HasRequest)
            && ((forall t :: 0 <= t < |s.threads| ==> s.threads[t].Idle?) ==>
                  |started| == |s.refused| + |s.results|)
  {
    RunBalance(cfg, threads, steps);
    hide Run, Started, Count, AllInHand, Asked, AllRequests;
    AllReturned(Run(cfg, threads, steps), Started(cfg, Init(threads), steps));
  }

  /** Every request ever built asks for the service, the method and the payload that a caller passed
      to `call`, is marked as a request, and carries nothing else. */
  lemma RequestsCarryCalls(cfg: Config, threads: nat, steps: seq<Step>, x: nat)
    requires Faithful(cfg.wire) && x in Run(cfg, threads, steps).issued
    ensures var r := Run(cfg, threads, steps).issued[x];
            && r.kind == REQUEST && r.requestId == x && r.status == OK && r.errorMessage == [] && r.metadata == map[]
            && exists i :: && 0 <= i < |steps| && steps[i].StartCall?
                           && r.serviceName == steps[i].call.service && r.methodName == steps[i].call.name
                           && r.payload == steps[i].call.payload
  {
    var s := Run(cfg, threads, steps);
    RunBalance(cfg, threads, steps);
    Reachable(cfg, threads, steps);
    hide Inv;
    AskedHas(s.issued, x, s.nextId);
    var i := StartedBy(cfg, Init(threads), steps, CallOf(s.issued[x]));
    assert steps[i].call == CallOf(s.issued[x]);
  }
}
