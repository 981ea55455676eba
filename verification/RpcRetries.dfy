/** A retried request is the first on its connection.

    This is why ids increase on every connection although a retry writes an id that is older than ids
    used since: the thread that retries has opened the connection itself and still holds the lock. */
module RpcRetries {
  import opened Bytes
  import opened Errors
  import opened Envelopes
  import opened CppCodec
  import opened RpcRun
  import opened RpcBase
  import opened RpcSteps

  predicate Retrying(pc: Pc) {
    pc.Sending? && pc.retry
  }

  /** The request of `pc`, if it is being sent again, is all that was begun on the connection. */
  predicate FirstOn(s: State, pc: Pc) {
    Retrying(pc) ==>
      s.codec.Some? && s.codec.value < |s.conns| && s.conns[s.codec.value].begun == [pc.request]
  }

  ghost predicate RetriesFirst(s: State) {
    forall t :: 0 <= t < |s.threads| ==> FirstOn(s, s.threads[t])
  }

  /** No request begins and the client keeps its connection. */
  ghost predicate SameBegun(s: State, s1: State) {
    && s1.codec == s.codec && |s.conns| == |s1.conns|
    && forall c :: 0 <= c < |s.conns| ==> s1.conns[c].begun == s.conns[c].begun
  }

  /** Thread `t` moves on, and either it has the lock or nothing is begun. */
  lemma ThreadMoves(s: State, s1: State, t: nat)
    requires Locking(s) && RetriesFirst(s) && t < |s.threads| == |s1.threads|
    requires forall u :: 0 <= u < |s.threads| && u != t ==> s1.threads[u] == s.threads[u]
    requires s.owner.None? || s.owner == Some(t) || SameBegun(s, s1)
    requires FirstOn(s1, s1.threads[t])
    ensures RetriesFirst(s1)
  {
    forall u | 0 <= u < |s1.threads| ensures FirstOn(s1, s1.threads[u]) {
      if u != t {
        assert FirstOn(s, s.threads[u]);
        assert Holds(s.threads[u]) ==> s.owner == Some(u);
      }
    }
  }

  lemma ServerMoves(cfg: Config, s: State, step: Step)
    requires RetriesFirst(s)
    requires step.ServerRead? || step.ServerDispatch? || step.ServerWrite? || step.ServerStops?
    ensures RetriesFirst(ServerStep(cfg, s, step))
  {
    var s1 := ServerStep(cfg, s, step);
    assert SameBegun(s, s1) && s1.threads == s.threads;
    forall u | 0 <= u < |s1.threads| ensures FirstOn(s1, s1.threads[u]) {
      assert FirstOn(s, s.threads[u]);
    }
  }

  /** A thread other than `t` is as it was, and `t` sends again only what is first. */
  ghost predicate Alone(s: State, s1: State, t: nat) {
    && t < |s.threads| == |s1.threads|
    && (forall u :: 0 <= u < |s.threads| && u != t ==> s1.threads[u] == s.threads[u])
    && FirstOn(s1, s1.threads[t])
  }

  lemma FirstWakeAlone(cfg: Config, s: State, t: nat, call: Call, attempt: nat, accepted: bool)
    requires Free(s, t) && !Retrying(s.threads[t])
    ensures Alone(s, FirstWake(cfg, s, t, call, attempt, accepted), t)
  {
  }

  lemma RetryWakeAlone(cfg: Config, s: State, t: nat, r: Envelope, attempt: nat, err: Error, accepted: bool)
    requires Free(s, t) && !Retrying(s.threads[t])
    ensures Alone(s, RetryWake(cfg, s, t, r, attempt, err, accepted), t)
  {
  }

  lemma RecvAlone(cfg: Config, s: State, t: nat, n: nat)
    requires OnConn(s, t) && s.threads[t].Receiving?
    ensures Alone(s, RecvStep(cfg, s, t, n), t)
  {
  }

  lemma SentAlone(cfg: Config, s: State, t: nat, n: nat)
    requires CanSend(cfg, s, t, n) && FirstOn(s, s.threads[t])
    ensures Alone(s, Sent(cfg, s, t, n), t)
  {
  }

  lemma EnterAlone(cfg: Config, s: State, t: nat, call: Call)
    requires Free(s, t) && !Retrying(s.threads[t])
    ensures Alone(s, EnterStep(cfg, s, t, call), t)
  {
  }

  lemma NotifiedAlone(cfg: Config, s: State, t: nat, r: Envelope, cause: Cause)
    requires Free(s, t)
    ensures Alone(s, NotifiedStep(cfg, s, t, r, cause), t)
  {
  }

  lemma DisconnectedAlone(s: State, t: nat, r: Envelope, cause: Cause)
    requires t < |s.threads|
    ensures Alone(s, Disconnected(s, t, r, cause), t)
  {
  }

  lemma ThreadAlone(cfg: Config, s: State, step: Step)
    requires ByThread(s, step) && FirstOn(s, s.threads[step.t])
    ensures Alone(s, ThreadStep(cfg, s, step), step.t)
  {
    hide RecvStep, Sent, FirstWake, RetryWake, EnterStep, NotifiedStep, Disconnected;
    var t := step.t;
    match (step, s.threads[t])
    case (Enter(_), Entering(call)) => if Free(s, t) { EnterAlone(cfg, s, t, call); }
    case (Notified(_), Notifying(r, cause)) => if Free(s, t) { NotifiedAlone(cfg, s, t, r, cause); }
    case (SendFails(_, errno), Sending(r, retry, _)) =>
      DisconnectedAlone(s, t, r, SendCause(retry, System(errno)));
    case (RecvFails(_, fault), Receiving(r, _)) => DisconnectedAlone(s, t, r, RecvFailed(FaultError(fault)));
    case (Wake(_, accepted), FirstBackoff(call, i)) =>
      if Free(s, t) { FirstWakeAlone(cfg, s, t, call, i, accepted); }
    case (Wake(_, accepted), RetryBackoff(r, i, err)) =>
      if Free(s, t) { RetryWakeAlone(cfg, s, t, r, i, err, accepted); }
    case (Send(_, n), Sending(_, _, _)) => if CanSend(cfg, s, t, n) { SentAlone(cfg, s, t, n); }
    case (Recv(_, n), Receiving(_, _)) => if OnConn(s, t) { RecvAlone(cfg, s, t, n); }
    case _ =>
  }

  /** While another thread has the lock, nothing is begun and the connection stays. */
  lemma LockedOut(cfg: Config, s: State, step: Step)
    requires Locking(s) && ByThread(s, step) && s.owner.Some? && s.owner != Some(step.t)
    ensures SameBegun(s, ThreadStep(cfg, s, step))
  {
    assert !Holds(s.threads[step.t]);
  }

  lemma StepKeepsFirst(cfg: Config, s: State, step: Step)
    requires Inv(cfg, s) && RetriesFirst(s)
    ensures RetriesFirst(Apply(cfg, s, step))
  {
    hide ThreadStep, ServerStep, RetriesFirst;
    if step.ServerRead? || step.ServerDispatch? || step.ServerWrite? || step.ServerStops? {
      ServerMoves(cfg, s, step);
    } else if step.t < |s.threads| {
      ThreadKeepsFirst(cfg, s, step);
    } else {
      Idles(cfg, s, step);
    }
  }

  lemma Idles(cfg: Config, s: State, step: Step)
    requires !step.ServerRead? && !step.ServerDispatch? && !step.ServerWrite? && !step.ServerStops?
    requires step.t >= |s.threads|
    ensures ThreadStep(cfg, s, step) == s
  {
  }

  lemma ThreadKeepsFirst(cfg: Config, s: State, step: Step)
    requires Locking(s) && RetriesFirst(s) && ByThread(s, step)
    ensures RetriesFirst(ThreadStep(cfg, s, step))
  {
    hide ThreadStep;
    assert FirstOn(s, s.threads[step.t]);
    ThreadAlone(cfg, s, step);
    if s.owner.Some? && s.owner != Some(step.t) {
      LockedOut(cfg, s, step);
    }
    ThreadMoves(s, ThreadStep(cfg, s, step), step.t);
  }

  lemma {:induction false} RunKeepsFirst(cfg: Config, threads: nat, steps: seq<Step>)
    requires Faithful(cfg.wire)
    ensures RetriesFirst(Run(cfg, threads, steps))
    decreases |steps|
  {
    if steps != [] {
      var init := steps[..|steps| - 1];
      RunKeepsFirst(cfg, threads, init);
      Reachable(cfg, threads, init);
      StepKeepsFirst(cfg, Run(cfg, threads, init), steps[|steps| - 1]);
    }
  }

  /** In every reachable state, the connection on which a request is being sent again carries no
      request before it. */
  lemma RetryIsFirst(cfg: Config, threads: nat, steps: seq<Step>, t: nat)
    requires Faithful(cfg.wire) && t < |Run(cfg, threads, steps).threads|
    requires Retrying(Run(cfg, threads, steps).threads[t])
    ensures var s := Run(cfg, threads, steps);
            && s.codec.Some? && s.codec.value < |s.conns|
            && s.conns[s.codec.value].begun == [s.threads[t].request]
  {
    RunKeepsFirst(cfg, threads, steps);
    assert FirstOn(Run(cfg, threads, steps), Run(cfg, threads, steps).threads[t]);
  }
}
