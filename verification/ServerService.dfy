/** The C++ server stays in service: what can end its accept loop and its handlers while it runs, and
    that it then takes the next client. */
module ServerService {
  import opened ServerLifecycle
  import opened ServerShutdown

  lemma RunLast(cfg: Config, steps: seq<Step>)
    requires steps != []
    ensures Run(cfg, steps) == Apply(cfg, Run(cfg, steps[..|steps| - 1]), steps[|steps| - 1])
  {
    var n := |steps| - 1;
    RunSnoc(cfg, INITIAL, steps[..n], steps[n]);
    assert steps == steps[..n] + [steps[n]];
  }

  // ---------------------------------------------------------------- what ends a thread

  /** While the server runs, only an error of `accept` ends the accept loop; a client that is rejected
      does not. */
  lemma {:induction false} OnlyErrorsEndAccepting(cfg: Config, steps: seq<Step>)
    ensures var s := Run(cfg, steps); s.running && s.acceptor.Exited? ==> AcceptError in steps
    decreases |steps|
  {
    if steps != [] {
      var init, step := steps[..|steps| - 1], steps[|steps| - 1];
      OnlyErrorsEndAccepting(cfg, init);
      Reachable(cfg, init);
      RunLast(cfg, steps);
      assert forall x :: x in init ==> x in steps;
      AcceptingGoesOn(cfg, Run(cfg, init), step);
    }
  }

  lemma AcceptingGoesOn(cfg: Config, s: State, step: Step)
    requires Inv(cfg, s)
    ensures var s1 := Apply(cfg, s, step);
            s1.running && s1.acceptor.Exited? ==> step.AcceptError? || (s.running && s.acceptor.Exited?)
  {
  }

  /** Connection `c` was served and is no longer. */
  predicate Over(s: State, c: nat) {
    c in s.handlers && (s.handlers[c].Leaving? || s.handlers[c].Finished?)
  }

  /** A handler leaves its loop only because of its peer, or because the server has closed the
      connection. */
  lemma {:induction false} HandlersEndForAReason(cfg: Config, steps: seq<Step>, c: nat)
    ensures var s := Run(cfg, steps); Over(s, c) ==> PeerEnds(c) in steps || c in s.closed
    decreases |steps|
  {
    if steps != [] {
      var init, step := steps[..|steps| - 1], steps[|steps| - 1];
      HandlersEndForAReason(cfg, init, c);
      RunLast(cfg, steps);
      assert forall x :: x in init ==> x in steps;
      LeavesForAReason(cfg, Run(cfg, init), step, c);
    }
  }

  lemma LeavesForAReason(cfg: Config, s: State, step: Step, c: nat)
    ensures var s1 := Apply(cfg, s, step);
            && (Over(s1, c) ==> Over(s, c) || step == PeerEnds(c) || c in s1.closed)
            && s.closed <= s1.closed
  {
  }

  /** The server closes a connection only at the cap, or to stop. */
  lemma {:induction false} ClosedForAReason(cfg: Config, steps: seq<Step>, c: nat)
    ensures var s := Run(cfg, steps); c in s.closed ==> c in s.rejected || Stop in steps
    decreases |steps|
  {
    if steps != [] {
      var init, step := steps[..|steps| - 1], steps[|steps| - 1];
      ClosedForAReason(cfg, init, c);
      StoppingHasStopped(cfg, init);
      RunLast(cfg, steps);
      assert forall x :: x in init ==> x in steps;
    }
  }

  lemma {:induction false} StoppingHasStopped(cfg: Config, steps: seq<Step>)
    ensures !Run(cfg, steps).stopper.NotStopping? ==> Stop in steps
    decreases |steps|
  {
    if steps != [] {
      var init := steps[..|steps| - 1];
      StoppingHasStopped(cfg, init);
      RunLast(cfg, steps);
      assert forall x :: x in init ==> x in steps;
    }
  }

  // ---------------------------------------------------------------- the next client

  /** The accept thread is back in accept(). */
  function Listening(s: State): State {
    s.(acceptor := InAccept)
  }

  lemma OneMore(cfg: Config, s: State, step: Step)
    ensures RunFrom(cfg, s, [step]) == Apply(cfg, s, step)
  {
    assert RunFrom(cfg, s, [step]) == RunFrom(cfg, Apply(cfg, s, step), [step][1..]);
  }

  lemma {:induction false} RunAppend(cfg: Config, s: State, a: seq<Step>, b: seq<Step>)
    ensures RunFrom(cfg, s, a + b) == RunFrom(cfg, RunFrom(cfg, s, a), b)
    decreases |a|
  {
    if a == [] {
      assert a + b == b;
    } else {
      RunAppend(cfg, Apply(cfg, s, a[0]), a[1..], b);
      assert (a + b)[1..] == a[1..] + b;
    }
  }

  lemma FromTesting(cfg: Config, s: State) returns (steps: seq<Step>)
    requires s.running && s.listening && s.acceptor.Testing?
    ensures AllServerOnly(steps) && RunFrom(cfg, s, steps) == Listening(s)
  {
    var s1 := s.(acceptor := Accepting);
    OneMore(cfg, s, TestRunning);
    OneMore(cfg, s1, AcceptBlocks);
    RunAppend(cfg, s, [TestRunning], [AcceptBlocks]);
    steps := [TestRunning] + [AcceptBlocks];
  }

  /** A client has connected: what becomes of it. */
  function Taken(cfg: Config, s: State): State {
    var c := s.accepted;
    var s1 := s.(acceptor := InAccept, accepted := c + 1);
    if |s.active| < cfg.max then
      s1.(active := s.active + [c], threads := s.threads + [c], handlers := s.handlers[c := Running])
    else
      s1.(closed := s.closed + {c}, rejected := s.rejected[c := |s.active|])
  }

  /** In accept(), the server takes one client and is in accept() again. */
  lemma TakesOne(cfg: Config, s: State) returns (steps: seq<Step>)
    requires s.running && s.listening && s.acceptor.InAccept?
    ensures AcceptReturns in steps && RunFrom(cfg, s, steps) == Taken(cfg, s)
  {
    var s1 := Apply(cfg, s, AcceptReturns);
    var s2 := Apply(cfg, s1, Check);
    OneMore(cfg, s, AcceptReturns);
    OneMore(cfg, s1, Check);
    RunAppend(cfg, s, [AcceptReturns], [Check]);
    steps := [AcceptReturns] + [Check];
    if |s.active| < cfg.max {
      OneMore(cfg, s2, Insert);
      RunAppend(cfg, s, steps, [Insert]);
      steps := steps + [Insert];
    }
    var more := FromTesting(cfg, RunFrom(cfg, s, steps));
    RunAppend(cfg, s, steps, more);
    steps := steps + more;
  }

  /** The accept thread can finish with the client in hand and come back to accept(); its clients so
      far stay. */
  lemma ComesBack(cfg: Config, s: State) returns (steps: seq<Step>)
    requires Inv(cfg, s) && s.running && !s.acceptor.Exited?
    ensures var s1 := RunFrom(cfg, s, steps);
            && s1.running && s1.listening && s1.acceptor.InAccept? && s1.accepted == s.accepted
            && s.active <= s1.active && s.closed <= s1.closed
    ensures AllServerOnly(steps)
  {
    match s.acceptor
    case Testing => steps := FromTesting(cfg, s);
    case Accepting =>
      steps := [AcceptBlocks];
      OneMore(cfg, s, AcceptBlocks);
    case InAccept => steps := [];
    case Checking(c) =>
      OneMore(cfg, s, Check);
      var s1 := Apply(cfg, s, Check);
      StepKeeps(cfg, s, Check);
      var more := ComesBackFrom(cfg, s1);
      RunAppend(cfg, s, [Check], more);
      steps := [Check] + more;
    case Inserting(c) => steps := ComesBackFrom(cfg, s);
  }

  lemma ComesBackFrom(cfg: Config, s: State) returns (steps: seq<Step>)
    requires s.running && s.listening && (s.acceptor.Testing? || s.acceptor.Inserting?)
    ensures var s1 := RunFrom(cfg, s, steps);
            && s1.running && s1.listening && s1.acceptor.InAccept? && s1.accepted == s.accepted
            && s.active <= s1.active && s.closed <= s1.closed
    ensures AllServerOnly(steps)
  {
    if s.acceptor.Testing? {
      steps := FromTesting(cfg, s);
    } else {
      OneMore(cfg, s, Insert);
      var more := FromTesting(cfg, Apply(cfg, s, Insert));
      RunAppend(cfg, s, [Insert], more);
      steps := [Insert] + more;
    }
  }

  lemma RunOn(cfg: Config, before: seq<Step>, steps: seq<Step>)
    ensures Run(cfg, before + steps) == RunFrom(cfg, Run(cfg, before), steps)
  {
    RunAppend(cfg, INITIAL, before, steps);
  }

  /** As long as the server runs and `accept` has not failed, it comes back to accept(), by its own
      steps and without losing a client, and takes the next client: it serves it exactly if fewer than
      `max` connections are active, and closes it otherwise; and it is in accept() again. */
  lemma TakesNextClient(cfg: Config, before: seq<Step>) returns (ready: seq<Step>, next: seq<Step>)
    requires Run(cfg, before).running && !Run(cfg, before).acceptor.Exited?
    ensures AllServerOnly(ready) && AcceptReturns in next
    ensures Run(cfg, before).active <= Run(cfg, before + ready).active
    ensures var s, s1 := Run(cfg, before + ready), Run(cfg, before + ready + next);
            var c := s.accepted;
            && s.acceptor.InAccept? && s1.acceptor.InAccept? && s1.accepted == c + 1
            && if |s.active| < cfg.max then
                 s1.active == s.active + [c] && Is(s1, c, Running) && s1.closed == s.closed
               else
                 s1.active == s.active && s1.handlers == s.handlers && s1.closed == s.closed + {c}
  {
    Reachable(cfg, before);
    ready := ComesBack(cfg, Run(cfg, before));
    RunOn(cfg, before, ready);
    next := TakesOne(cfg, Run(cfg, before + ready));
    RunOn(cfg, before + ready, next);
  }

  lemma {:induction false} EraseShortens(s: seq<nat>, c: nat)
    requires c in s
    ensures |Erase(s, c)| == |s| - 1
    decreases |s|
  {
    if s[0] != c {
      EraseShortens(s[1..], c);
    }
  }

  lemma Leaves(cfg: Config, s: State, c: nat)
    requires Inv(cfg, s) && c in s.active && Is(s, c, Leaving)
    ensures var s1 := RunFrom(cfg, s, [RemoveConnection(c)]);
            && Is(s1, c, Finished) && |s1.active| == |s.active| - 1
            && (forall d :: d in s1.active <==> d in s.active && d != c)
  {
    OneMore(cfg, s, RemoveConnection(c));
    EraseRemoves(s.active, c);
    EraseShortens(s.active, c);
  }

  /** A client that goes away frees its place, at once if its handler was in recv or send: every other
      connection stays, and there is room for one more. */
  lemma LeavingFreesAPlace(cfg: Config, before: seq<Step>, c: nat) returns (steps: seq<Step>)
    requires c in Run(cfg, before).active
    ensures forall i :: 0 <= i < |steps| ==> steps[i] == PeerEnds(c) || steps[i] == RemoveConnection(c)
    ensures var s, s1 := Run(cfg, before), Run(cfg, before + steps);
            && Is(s1, c, Finished) && |s1.active| == |s.active| - 1 < cfg.max
            && (forall d :: d in s1.active <==> d in s.active && d != c)
  {
    var s := Run(cfg, before);
    Reachable(cfg, before);
    assert Alive(s, c);
    if Is(s, c, Leaving) {
      Leaves(cfg, s, c);
      steps := [RemoveConnection(c)];
    } else {
      var s1 := SetHandler(s, c, Leaving);
      OneMore(cfg, s, PeerEnds(c));
      StepKeeps(cfg, s, PeerEnds(c));
      Leaves(cfg, s1, c);
      RunAppend(cfg, s, [PeerEnds(c)], [RemoveConnection(c)]);
      steps := [PeerEnds(c)] + [RemoveConnection(c)];
    }
    RunOn(cfg, before, steps);
  }

  /** A client that was idle is served again when it sends or reads. */
  lemma IdleClientResumes(cfg: Config, before: seq<Step>, c: nat)
    requires Is(Run(cfg, before), c, Blocked)
    ensures Is(Run(cfg, before + [CallReturns(c)]), c, Running)
  {
    RunOn(cfg, before, [CallReturns(c)]);
    OneMore(cfg, Run(cfg, before), CallReturns(c));
  }
}
