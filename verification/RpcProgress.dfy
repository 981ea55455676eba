/** No caller is stuck: from every reachable state some run brings every call to its end, whatever
    the threads are doing, even if the server never answers and the peer never accepts again. */
module RpcProgress {
  import opened Errors
  import opened Protobuf
  import opened CppCodec
  import opened RpcRun
  import opened RpcBase
  import opened RpcSteps
  import opened RpcTheorems
  import opened RpcAccount
  import opened RpcWitness

  /** These steps start no call. */
  predicate NoCalls(steps: seq<Step>) {
    forall i :: 0 <= i < |steps| ==> !steps[i].StartCall?
  }

  /** Thread `t` has returned, the mutex is free, and the other threads stand where they stood. */
  ghost predicate Returned(s: State, s1: State, t: nat) {
    && t < |s.threads| && s1.threads == s.threads[t := Idle] && s1.owner.None? && s1.nextId <= s.nextId + 1
  }

  /** Every attempt to connect is refused. */
  lemma {:induction false} FirstsFail(cfg: Config, s: State, t: nat, call: Call, attempt: nat)
    returns (steps: seq<Step>)
    requires Free(s, t) && s.threads[t] == FirstBackoff(call, attempt)
    ensures RunFrom(cfg, s, steps) == Refuse(s, t, call) && NoCalls(steps)
    decreases Attempts(cfg) - attempt
  {
    OneStep(cfg, s, Wake(t, false));
    steps := [Wake(t, false)];
    if attempt + 1 < Attempts(cfg) {
      var s1 := SetPc(s, t, FirstBackoff(call, attempt + 1));
      assert Apply(cfg, s, Wake(t, false)) == s1;
      var more := FirstsFail(cfg, s1, t, call, attempt + 1);
      RunAppend(cfg, s, steps, more);
      steps := steps + more;
      SetPcTwice(s, t, FirstBackoff(call, attempt + 1), Idle);
    }
  }

  lemma NotifyingReturns(cfg: Config, s: State, t: nat) returns (steps: seq<Step>)
    requires Free(s, t) && s.threads[t].Notifying?
    ensures Returned(s, RunFrom(cfg, s, steps), t) && NoCalls(steps)
    ensures RunFrom(cfg, s, steps).nextId == s.nextId
  {
    var Notifying(r, cause) := s.threads[t];
    if cause.FirstSend? {
      steps := SendErrorReturns(cfg, s, t, r, cause.err);
    } else {
      OneStep(cfg, s, Notified(t));
      steps := [Notified(t)];
    }
  }

  /** The holder's send or receive fails: the mutex is free. */
  lemma LetsGo(cfg: Config, s: State, t: nat) returns (step: Step)
    requires t < |s.threads| && Holds(s.threads[t])
    ensures !step.StartCall?
    ensures var s1 := RunFrom(cfg, s, [step]);
            && s1.owner.None? && s1.nextId == s.nextId && |s1.threads| == |s.threads|
            && s1.threads == s.threads[t := s1.threads[t]] && s1.threads[t].Notifying?
  {
    step := if s.threads[t].Sending? then SendFails(t, 0) else RecvFails(t, Eof);
    OneStep(cfg, s, step);
  }

  lemma HoldingReturns(cfg: Config, s: State, t: nat) returns (steps: seq<Step>)
    requires t < |s.threads| && Holds(s.threads[t])
    ensures Returned(s, RunFrom(cfg, s, steps), t) && NoCalls(steps)
    ensures RunFrom(cfg, s, steps).nextId == s.nextId
  {
    var step := LetsGo(cfg, s, t);
    var s1 := RunFrom(cfg, s, [step]);
    var more := NotifyingReturns(cfg, s1, t);
    RunAppend(cfg, s, [step], more);
    steps := [step] + more;
    assert s.threads[t := s1.threads[t]][t := Idle] == s.threads[t := Idle];
  }

  /** Some connection is there, so the call begins: with a request that can be sent or not. */
  lemma BegunReturns(cfg: Config, s: State, t: nat, call: Call) returns (steps: seq<Step>)
    requires Free(s, t) && CanBegin(s)
    ensures Returned(s, RunFrom(cfg, BeginCall(cfg, s, t, call), steps), t) && NoCalls(steps)
  {
    var s1 := BeginCall(cfg, s, t, call);
    assert s1.nextId == s.nextId + 1 && s1.threads == s.threads[t := s1.threads[t]];
    if Holds(s1.threads[t]) {
      steps := HoldingReturns(cfg, s1, t);
    } else {
      steps := NotifyingReturns(cfg, s1, t);
    }
    assert s.threads[t := s1.threads[t]][t := Idle] == s.threads[t := Idle];
  }

  lemma EnteringReturns(cfg: Config, s: State, t: nat) returns (steps: seq<Step>)
    requires Free(s, t) && s.threads[t].Entering? && s.nextId < TWO_64
    requires s.codec.Some? ==> s.codec.value < |s.conns|
    ensures Returned(s, RunFrom(cfg, s, steps), t) && NoCalls(steps)
  {
    hide BeginCall;
    var call := s.threads[t].call;
    OneStep(cfg, s, Enter(t));
    steps := [Enter(t)];
    if s.codec.Some? {
      var more := BegunReturns(cfg, s, t, call);
      RunAppend(cfg, s, steps, more);
      steps := steps + more;
    } else if Attempts(cfg) > 0 {
      var s1 := SetPc(s, t, FirstBackoff(call, 0));
      assert Apply(cfg, s, Enter(t)) == s1;
      var more := FirstsFail(cfg, s1, t, call, 0);
      RunAppend(cfg, s, steps, more);
      steps := steps + more;
      SetPcTwice(s, t, FirstBackoff(call, 0), Idle);
    }
  }

  /** Wherever a thread stands while the mutex is free, its call can return. */
  lemma FreeReturns(cfg: Config, s: State, t: nat) returns (steps: seq<Step>)
    requires Free(s, t) && s.nextId < TWO_64 && (s.codec.Some? ==> s.codec.value < |s.conns|)
    ensures Returned(s, RunFrom(cfg, s, steps), t) && NoCalls(steps)
  {
    match s.threads[t]
    case Idle =>
      steps := [];
      SetPcTwice(s, t, Idle, Idle);
    case Entering(_) => steps := EnteringReturns(cfg, s, t);
    case FirstBackoff(call, attempt) => steps := FirstsFail(cfg, s, t, call, attempt);
    case RetryBackoff(r, attempt, err) => steps := RetriesFail(cfg, s, t, r, attempt, err);
    case Notifying(_, _) => steps := NotifyingReturns(cfg, s, t);
    case _ => steps := HoldingReturns(cfg, s, t);
  }

  /** The mutex can become free, without a step of a thread that does not hold it. */
  lemma Unlocks(cfg: Config, s: State) returns (steps: seq<Step>)
    requires Locking(s)
    ensures var s1 := RunFrom(cfg, s, steps);
            && s1.owner.None? && s1.nextId == s.nextId && |s1.threads| == |s.threads|
            && forall u :: 0 <= u < |s.threads| && !Holds(s.threads[u]) ==> s1.threads[u] == s.threads[u]
    ensures NoCalls(steps)
  {
    if s.owner.None? {
      steps := [];
    } else {
      var step := LetsGo(cfg, s, s.owner.value);
      steps := [step];
    }
  }

  /** The first `n` threads can return, one after the other. */
  lemma {:induction false} ThreadsReturn(cfg: Config, s: State, n: nat) returns (steps: seq<Step>)
    requires Faithful(cfg.wire) && Inv(cfg, s) && n <= |s.threads| && s.nextId + n <= TWO_64
    ensures var s1 := RunFrom(cfg, s, steps);
            && |s1.threads| == |s.threads| && s1.nextId <= s.nextId + n
            && forall u :: 0 <= u < n ==> s1.threads[u].Idle?
    ensures NoCalls(steps)
  {
    if n == 0 {
      steps := [];
    } else {
      var before := ThreadsReturn(cfg, s, n - 1);
      var s1 := RunFrom(cfg, s, before);
      RunKeeps(cfg, s, before);
      var free := Unlocks(cfg, s1);
      var s2 := RunFrom(cfg, s1, free);
      RunKeeps(cfg, s1, free);
      var last := FreeReturns(cfg, s2, n - 1);
      RunAppend(cfg, s, before, free);
      RunAppend(cfg, s, before + free, last);
      steps := before + free + last;
    }
  }

  lemma {:induction false} StartedSame(cfg: Config, s: State, steps: seq<Step>, more: seq<Step>)
    requires NoCalls(more)
    ensures Started(cfg, s, steps + more) == Started(cfg, s, steps)
    decreases |more|
  {
    if more == [] {
      assert steps + more == steps;
    } else {
      var n := |more| - 1;
      StartedSame(cfg, s, steps, more[..n]);
      assert (steps + more)[..|steps + more| - 1] == steps + more[..n];
    }
  }

  /** Every run can go on to a state in which all threads have returned, no call having been made
      since: then each call made was refused or has its outcome. (There must be ids left for the calls
      that are still to take one.) */
  lemma EveryCallCanReturn(cfg: Config, threads: nat, steps: seq<Step>) returns (more: seq<Step>)
    requires Faithful(cfg.wire)
    requires Run(cfg, threads, steps).nextId + |Run(cfg, threads, steps).threads| <= TWO_64
    ensures var s := Run(cfg, threads, steps + more);
            && (forall t :: 0 <= t < |s.threads| ==> s.threads[t].Idle?)
            && |s.threads| == |Run(cfg, threads, steps).threads|
            && |s.refused| + |s.results| == |Started(cfg, Init(threads), steps)|
  {
    var s := Run(cfg, threads, steps);
    Reachable(cfg, threads, steps);
    hide Inv, Started;
    more := ThreadsReturn(cfg, s, |s.threads|);
    RunAppend(cfg, Init(threads), steps, more);
    NoCallIsLost(cfg, threads, steps + more);
    StartedSame(cfg, Init(threads), steps, more);
  }
}
