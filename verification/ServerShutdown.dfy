/** Whether `stop` can return by the server's own steps, whatever the peers do.

    `stop` relies on closes to wake the threads it joins. Where a close does, it can always return;
    where it does not, a single thread that is blocked on an idle peer holds it up for ever. */
module ServerShutdown {
  import opened ServerLifecycle

  /** Steps that no peer and no caller has to take. */
  predicate ServerOnly(step: Step) {
    !step.Start? && !step.AcceptReturns? && !step.AcceptError? && !step.CallReturns? && !step.PeerEnds?
  }

  predicate AllServerOnly(steps: seq<Step>) {
    forall i :: 0 <= i < |steps| ==> ServerOnly(steps[i])
  }

  /** A thread that `stop` will join is blocked in a system call. */
  ghost predicate Stuck(s: State) {
    s.acceptor.InAccept? || exists c :: Is(s, c, Blocked)
  }

  ghost predicate ReturnsBy(cfg: Config, s: State, steps: seq<Step>) {
    AllServerOnly(steps) && RunFrom(cfg, s, steps).stopper.NotStopping?
  }

  // ---------------------------------------------------------------- a blocked thread stays blocked

  lemma StuckStays(cfg: Config, s: State, step: Step)
    requires Inv(cfg, s) && !cfg.wakes && !s.stopper.NotStopping? && Stuck(s) && ServerOnly(step)
    ensures Stuck(Apply(cfg, s, step)) && !Apply(cfg, s, step).stopper.NotStopping?
  {
    var s1 := Apply(cfg, s, step);
    if !s.acceptor.InAccept? {
      var c :| Is(s, c, Blocked);
      assert Alive(s, c);
      assert Is(s1, c, Blocked);
    }
  }

  lemma {:induction false} StuckForEver(cfg: Config, s: State, steps: seq<Step>)
    requires Inv(cfg, s) && !cfg.wakes && !s.stopper.NotStopping? && Stuck(s) && AllServerOnly(steps)
    ensures !RunFrom(cfg, s, steps).stopper.NotStopping?
    decreases |steps|
  {
    if steps != [] {
      assert ServerOnly(steps[0]);
      StuckStays(cfg, s, steps[0]);
      StepKeeps(cfg, s, steps[0]);
      StuckForEver(cfg, Apply(cfg, s, steps[0]), steps[1..]);
    }
  }

  // ---------------------------------------------------------------- every step brings the end closer

  function PhaseRank(p: Stopper): nat {
    match p
    case NotStopping => 0
    case Joining(_) => 1
    case BeforeCollect => 2
    case Closing(_) => 3
    case BeforeSnapshot => 4
    case JoiningAccept => 5
    case ClosingTransport => 6
  }

  function AcceptorRank(a: Acceptor): nat {
    match a
    case Checking(_) => 4
    case Inserting(_) => 3
    case Testing => 2
    case Accepting => 2
    case InAccept => 1
    case _ => 0
  }

  /** What is left of the list that `stop` is working through. */
  function Left(s: State): nat {
    match s.stopper
    case Joining(rest) => |rest|
    case Closing(rest) => |rest|
    case _ => 0
  }

  function HandlerRank(h: Handler): nat {
    match h
    case Running => 3
    case Blocked => 2
    case Leaving => 1
    case Finished => 0
  }

  /** How far the handlers below `n` are from their ends, all together. */
  function HandlersLeft(handlers: map<nat, Handler>, n: nat): nat {
    if n == 0 then 0
    else HandlersLeft(handlers, n - 1) + (if n - 1 in handlers then HandlerRank(handlers[n - 1]) else 0)
  }

  lemma {:induction false} HandlersUpdate(handlers: map<nat, Handler>, n: nat, c: nat, h: Handler)
    requires c in handlers
    ensures HandlersLeft(handlers[c := h], n) + (if c < n then HandlerRank(handlers[c]) else 0)
         == HandlersLeft(handlers, n) + (if c < n then HandlerRank(h) else 0)
    decreases n
  {
    if n > 0 {
      HandlersUpdate(handlers, n - 1, c, h);
    }
  }

  /** `s1` is closer to the return of `stop`, in a well-founded order. */
  ghost predicate Closer(s1: State, s: State) {
    || PhaseRank(s1.stopper) < PhaseRank(s.stopper)
    || (PhaseRank(s1.stopper) == PhaseRank(s.stopper) && CloserWithin(s1, s))
  }

  ghost predicate CloserWithin(s1: State, s: State) {
    var h1, h := HandlersLeft(s1.handlers, s1.accepted), HandlersLeft(s.handlers, s.accepted);
    || AcceptorRank(s1.acceptor) < AcceptorRank(s.acceptor)
    || (AcceptorRank(s1.acceptor) == AcceptorRank(s.acceptor)
        && (Left(s1) < Left(s) || (Left(s1) == Left(s) && h1 < h)))
  }

  lemma HandlerGetsCloser(s: State, c: nat, h: Handler)
    requires c in s.handlers && c < s.accepted && HandlerRank(h) < HandlerRank(s.handlers[c])
    ensures Closer(SetHandler(s, c, h), s)
  {
    HandlersUpdate(s.handlers, s.accepted, c, h);
  }

  lemma HandlerStepHelps(cfg: Config, s: State, step: Step)
    requires Numbered(s) && OfHandler(step) && ServerOnly(step) && HandlerStep(cfg, s, step) != s
    ensures Closer(HandlerStep(cfg, s, step), s)
  {
    match step
    case CallBlocks(c) => HandlerGetsCloser(s, c, Blocked);
    case CallFails(c) => HandlerGetsCloser(s, c, Leaving);
    case Woken(c) => HandlerGetsCloser(s, c, Leaving);
    case RemoveConnection(c) => HandlerGetsCloser(s, c, Finished);
  }

  /** Without a peer no thread ever goes back, whatever the schedule. */
  lemma EveryStepHelps(cfg: Config, s: State, step: Step)
    requires Inv(cfg, s) && !s.stopper.NotStopping? && ServerOnly(step) && Apply(cfg, s, step) != s
    ensures Closer(Apply(cfg, s, step), s)
  {
    if OfHandler(step) {
      HandlerStepHelps(cfg, s, step);
    }
  }

  // ---------------------------------------------------------------- and there is a next step

  /** The next step of the accept thread, after the transport was closed. */
  function AcceptorNext(s: State): Step {
    match s.acceptor
    case Testing => TestRunning
    case Accepting => AcceptRefused
    case InAccept => AcceptWoken
    case Checking(_) => Check
    case Inserting(_) => Insert
    case _ => JoinAcceptor
  }

  /** The next step of the handler that is joined next. */
  function HandlerNext(s: State, c: nat): Step {
    if Is(s, c, Running) then CallFails(c)
    else if Is(s, c, Blocked) then Woken(c)
    else if Is(s, c, Leaving) then RemoveConnection(c)
    else JoinNext
  }

  function NextStep(s: State): Step {
    match s.stopper
    case NotStopping => TestRunning
    case ClosingTransport => CloseTransport
    case JoiningAccept => AcceptorNext(s)
    case BeforeSnapshot => TakeSnapshot
    case Closing(_) => CloseNext
    case BeforeCollect => CollectThreads
    case Joining(rest) => if rest == [] then StopReturns else HandlerNext(s, rest[0])
  }

  lemma JoiningEnabled(cfg: Config, s: State)
    requires Inv(cfg, s) && s.stopper.Joining? && (cfg.wakes || !Stuck(s))
    ensures Apply(cfg, s, NextStep(s)) != s
  {
    if s.stopper.rest != [] {
      var c := s.stopper.rest[0];
      assert c in s.stopper.rest;
      assert Alive(s, c) ==> c in s.closed;
      assert Is(s, c, Blocked) ==> cfg.wakes;
      assert c in s.handlers;
    }
  }

  /** Where no thread is stuck, the server itself can always go on. */
  lemma Enabled(cfg: Config, s: State)
    requires Inv(cfg, s) && !s.stopper.NotStopping? && (cfg.wakes || !Stuck(s))
    ensures ServerOnly(NextStep(s)) && Apply(cfg, s, NextStep(s)) != s
  {
    if s.stopper.Joining? {
      JoiningEnabled(cfg, s);
    }
  }

  lemma NobodyBlocks(cfg: Config, s: State, step: Step)
    requires !step.CallBlocks? && !step.AcceptBlocks?
    ensures Apply(cfg, s, step).acceptor.InAccept? ==> s.acceptor.InAccept?
    ensures forall c :: Is(Apply(cfg, s, step), c, Blocked) ==> Is(s, c, Blocked)
  {
  }

  /** Nobody begins to wait on the way. */
  lemma StaysUnstuck(cfg: Config, s: State)
    requires !Stuck(s)
    ensures !Stuck(Apply(cfg, s, NextStep(s)))
  {
    NobodyBlocks(cfg, s, NextStep(s));
  }

  lemma {:induction false} CanReturn(cfg: Config, s: State) returns (steps: seq<Step>)
    requires Inv(cfg, s) && (cfg.wakes || !Stuck(s))
    ensures ReturnsBy(cfg, s, steps)
    decreases PhaseRank(s.stopper), AcceptorRank(s.acceptor), Left(s), HandlersLeft(s.handlers, s.accepted)
  {
    if s.stopper.NotStopping? {
      steps := [];
    } else {
      var next := NextStep(s);
      Enabled(cfg, s);
      EveryStepHelps(cfg, s, next);
      StepKeeps(cfg, s, next);
      if !cfg.wakes {
        StaysUnstuck(cfg, s);
      }
      var more := CanReturn(cfg, Apply(cfg, s, next));
      steps := [next] + more;
      assert steps[1..] == more;
      assert forall i :: 1 <= i < |steps| ==> steps[i] == more[i - 1];
    }
  }

  // ---------------------------------------------------------------- any schedule

  /** The state after the first `n` steps of a schedule. */
  function At(cfg: Config, s: State, schedule: nat -> Step, n: nat): State {
    if n == 0 then s else Apply(cfg, At(cfg, s, schedule, n - 1), schedule(n - 1))
  }

  /** Each step is the server's own, and takes effect until `stop` has returned. */
  ghost predicate Goes(cfg: Config, s: State, schedule: nat -> Step) {
    forall n: nat ::
      && ServerOnly(schedule(n))
      && (At(cfg, s, schedule, n).stopper.NotStopping? || At(cfg, s, schedule, n + 1) != At(cfg, s, schedule, n))
  }

  lemma {:induction false} ReturnsFrom(cfg: Config, s: State, schedule: nat -> Step, n: nat) returns (k: nat)
    requires Goes(cfg, s, schedule) && Inv(cfg, At(cfg, s, schedule, n))
    ensures At(cfg, s, schedule, k).stopper.NotStopping?
    decreases PhaseRank(At(cfg, s, schedule, n).stopper), AcceptorRank(At(cfg, s, schedule, n).acceptor),
              Left(At(cfg, s, schedule, n)),
              HandlersLeft(At(cfg, s, schedule, n).handlers, At(cfg, s, schedule, n).accepted)
  {
    var now := At(cfg, s, schedule, n);
    if now.stopper.NotStopping? {
      k := n;
    } else {
      assert At(cfg, s, schedule, n + 1) == Apply(cfg, now, schedule(n));
      EveryStepHelps(cfg, now, schedule(n));
      StepKeeps(cfg, now, schedule(n));
      k := ReturnsFrom(cfg, s, schedule, n + 1);
    }
  }

  // ---------------------------------------------------------------- the main results

  /** From every reachable state of a `stop`, the server's own steps let it return if and only if
      closes wake blocked threads or no thread is blocked. */
  lemma StopReturnsExactly(cfg: Config, before: seq<Step>)
    requires !Run(cfg, before).stopper.NotStopping?
    ensures (exists steps :: ReturnsBy(cfg, Run(cfg, before), steps)) <==> cfg.wakes || !Stuck(Run(cfg, before))
  {
    var s := Run(cfg, before);
    Reachable(cfg, before);
    if cfg.wakes || !Stuck(s) {
      var steps := CanReturn(cfg, s);
      assert ReturnsBy(cfg, s, steps);
    } else {
      forall steps | AllServerOnly(steps) ensures !RunFrom(cfg, s, steps).stopper.NotStopping? {
        StuckForEver(cfg, s, steps);
      }
    }
  }

  /** Where closes wake, no schedule keeps `stop` from returning: as long as it has not returned some
      step of the server's own is enabled, and every schedule of such steps comes to its return. */
  lemma EveryScheduleReturns(cfg: Config, before: seq<Step>, schedule: nat -> Step)
    requires cfg.wakes && !Run(cfg, before).stopper.NotStopping?
    ensures exists step :: ServerOnly(step) && Apply(cfg, Run(cfg, before), step) != Run(cfg, before)
    ensures Goes(cfg, Run(cfg, before), schedule) ==>
              exists n: nat :: At(cfg, Run(cfg, before), schedule, n).stopper.NotStopping?
  {
    var s := Run(cfg, before);
    Reachable(cfg, before);
    Enabled(cfg, s);
    if Goes(cfg, s, schedule) {
      var n := ReturnsFrom(cfg, s, schedule, 0);
    }
  }

  lemma {:induction false} RunSnoc(cfg: Config, s: State, steps: seq<Step>, step: Step)
    ensures RunFrom(cfg, s, steps + [step]) == Apply(cfg, RunFrom(cfg, s, steps), step)
    decreases |steps|
  {
    if steps == [] {
      assert steps + [step] == [step] && [step][1..] == [];
      assert RunFrom(cfg, s, [step]) == RunFrom(cfg, Apply(cfg, s, step), []);
    } else {
      assert (steps + [step])[1..] == steps[1..] + [step];
      RunSnoc(cfg, Apply(cfg, s, steps[0]), steps[1..], step);
    }
  }

  /** A server that is about to serve its first client. */
  lemma FirstClient(cfg: Config) returns (steps: seq<Step>)
    ensures Run(cfg, steps) == INITIAL.(running := true, listening := true, acceptor := Checking(0), accepted := 1)
  {
    RunSnoc(cfg, INITIAL, [], Start);
    RunSnoc(cfg, INITIAL, [] + [Start], TestRunning);
    RunSnoc(cfg, INITIAL, [] + [Start] + [TestRunning], AcceptBlocks);
    RunSnoc(cfg, INITIAL, [] + [Start] + [TestRunning] + [AcceptBlocks], AcceptReturns);
    steps := [] + [Start] + [TestRunning] + [AcceptBlocks] + [AcceptReturns];
  }

  lemma IdleClient(cfg: Config) returns (steps: seq<Step>)
    requires cfg.max > 0
    ensures Is(Run(cfg, steps), 0, Blocked) && Run(cfg, steps).running
  {
    var first := FirstClient(cfg);
    RunSnoc(cfg, INITIAL, first, Check);
    RunSnoc(cfg, INITIAL, first + [Check], Insert);
    RunSnoc(cfg, INITIAL, first + [Check] + [Insert], CallBlocks(0));
    steps := first + [Check] + [Insert] + [CallBlocks(0)];
  }

  /** The bad case is real: one idle client, and a `stop` that never returns by itself. */
  lemma IdleClientHoldsStop(cfg: Config) returns (before: seq<Step>)
    requires cfg.max > 0 && !cfg.wakes
    ensures !Run(cfg, before).stopper.NotStopping?
    ensures forall steps :: !ReturnsBy(cfg, Run(cfg, before), steps)
  {
    var idle := IdleClient(cfg);
    RunSnoc(cfg, INITIAL, idle, Stop);
    before := idle + [Stop];
    Reachable(cfg, idle);
    assert Is(Run(cfg, before), 0, Blocked);
    StopReturnsExactly(cfg, before);
  }
}
