/** Connecting again: how often it is tried, what it makes possible, and that no caller is stuck.

    `attempt_reconnect` sleeps before each attempt with the lock released. An attempt fails when the
    peer refuses, and also when another thread has connected during the sleep. */
module RpcReconnect {
  import opened Bytes
  import opened Errors
  import opened Frames
  import opened Envelopes
  import opened Protobuf
  import opened Dispatcher
  import opened CppCodec
  import opened RpcConn
  import opened RpcRun
  import opened RpcSteps
  import opened RpcTheorems
  import opened RpcWitness

  /** Thread `t` wakes up again and again; `accepted` says of each time whether the peer accepts. */
  function Wakes(t: nat, accepted: seq<bool>): seq<Step> {
    seq(|accepted|, i requires 0 <= i < |accepted| => Wake(t, accepted[i]))
  }

  /** None of these attempts connects the client. */
  predicate AllFail(s: State, accepted: seq<bool>) {
    s.codec.Some? || forall i :: 0 <= i < |accepted| ==> !accepted[i]
  }

  lemma WakesLast(t: nat, accepted: seq<bool>)
    requires accepted != []
    ensures var n := |accepted| - 1;
            && |Wakes(t, accepted)| == n + 1
            && Wakes(t, accepted)[..n] == Wakes(t, accepted[..n]) && Wakes(t, accepted)[n] == Wake(t, accepted[n])
  {
  }

  lemma NoWakes(t: nat, accepted: seq<bool>)
    requires accepted == []
    ensures Wakes(t, accepted) == []
  {
  }

  // ---------------------------------------------------------------- how often it is tried

  /** Where a call is after so many failed attempts to connect. */
  function FirstAfter(cfg: Config, s: State, t: nat, call: Call, attempt: nat): State
    requires t < |s.threads|
  {
    if attempt < Attempts(cfg) then SetPc(s, t, FirstBackoff(call, attempt)) else Refuse(s, t, call)
  }

  lemma {:induction false} FirstSleeps(cfg: Config, s: State, t: nat, call: Call, attempt: nat, accepted: seq<bool>)
    requires Free(s, t) && s.threads[t] == FirstBackoff(call, attempt)
    requires attempt < Attempts(cfg) && attempt + |accepted| <= Attempts(cfg) && AllFail(s, accepted)
    ensures RunFrom(cfg, s, Wakes(t, accepted)) == FirstAfter(cfg, s, t, call, attempt + |accepted|)
    decreases |accepted|
  {
    hide Attempts, Apply, Wakes;
    SetPcTwice(s, t, Idle, Idle);
    if accepted == [] {
      NoWakes(t, accepted);
    } else {
      var n := |accepted| - 1;
      WakesLast(t, accepted);
      FirstSleeps(cfg, s, t, call, attempt, accepted[..n]);
      var s1 := SetPc(s, t, FirstBackoff(call, attempt + n));
      FirstFails(cfg, s1, t, call, attempt + n, accepted[n]);
      SetPcTwice(s, t, FirstBackoff(call, attempt + n), FirstBackoff(call, attempt + n + 1));
      SetPcTwice(s, t, FirstBackoff(call, attempt + n), Idle);
    }
  }

  lemma FirstFails(cfg: Config, s: State, t: nat, call: Call, attempt: nat, accepted: bool)
    requires Free(s, t) && s.threads[t] == FirstBackoff(call, attempt) && (s.codec.Some? || !accepted)
    ensures Apply(cfg, s, Wake(t, accepted)) == FirstAfter(cfg, s, t, call, attempt + 1)
  {
  }

  /** Where a call is whose request could not be sent, after so many failed attempts. */
  function RetryAfter(cfg: Config, s: State, t: nat, r: Envelope, attempt: nat, err: Error): State
    requires t < |s.threads|
  {
    if attempt < Attempts(cfg) then SetPc(s, t, RetryBackoff(r, attempt, err)) else Finish(s, t, r, SendError(err))
  }

  lemma {:induction false} RetrySleeps(cfg: Config, s: State, t: nat, r: Envelope, attempt: nat, err: Error,
                                       accepted: seq<bool>)
    requires Free(s, t) && s.threads[t] == RetryBackoff(r, attempt, err)
    requires attempt < Attempts(cfg) && attempt + |accepted| <= Attempts(cfg) && AllFail(s, accepted)
    ensures RunFrom(cfg, s, Wakes(t, accepted)) == RetryAfter(cfg, s, t, r, attempt + |accepted|, err)
    decreases |accepted|
  {
    hide Attempts, Apply, Wakes;
    SetPcTwice(s, t, Idle, Idle);
    if accepted == [] {
      NoWakes(t, accepted);
    } else {
      var n := |accepted| - 1;
      WakesLast(t, accepted);
      RetrySleeps(cfg, s, t, r, attempt, err, accepted[..n]);
      var s1 := SetPc(s, t, RetryBackoff(r, attempt + n, err));
      RetryFails(cfg, s1, t, r, attempt + n, err, accepted[n]);
      SetPcTwice(s, t, RetryBackoff(r, attempt + n, err), RetryBackoff(r, attempt + n + 1, err));
      SetPcTwice(s, t, RetryBackoff(r, attempt + n, err), Idle);
    }
  }

  lemma RetryFails(cfg: Config, s: State, t: nat, r: Envelope, attempt: nat, err: Error, accepted: bool)
    requires Free(s, t) && s.threads[t] == RetryBackoff(r, attempt, err) && (s.codec.Some? || !accepted)
    ensures Apply(cfg, s, Wake(t, accepted)) == RetryAfter(cfg, s, t, r, attempt + 1, err)
  {
  }

  /** `max_attempts` as documented: a negative number means as many as an int can count. */
  predicate MaxAttempts(cfg: Config, limit: nat) {
    match cfg.reconnect
    case None => limit == 0
    case Some(n) => (n >= 0 && limit == n) || (n < 0 && limit == 0x7FFF_FFFF)
  }

  /** A call made while disconnected, with reconnecting configured, starts to sleep. */
  lemma StartsToSleep(cfg: Config, s: State, t: nat, call: Call)
    requires Free(s, t) && s.threads[t].Idle? && s.codec.None? && Attempts(cfg) > 0
    ensures RunFrom(cfg, s, [StartCall(t, call), Enter(t)]) == SetPc(s, t, FirstBackoff(call, 0))
  {
    TwoSteps(cfg, s, StartCall(t, call), Enter(t));
    SetPcTwice(s, t, Entering(call), FirstBackoff(call, 0));
  }

  /** A call made while disconnected is refused after exactly `max_attempts` failed attempts, at once
      if there is none to make, and until then nothing else has changed. */
  lemma RefusedExactly(cfg: Config, s: State, t: nat, call: Call, limit: nat, accepted: seq<bool>)
    requires Free(s, t) && s.threads[t].Idle? && s.codec.None? && MaxAttempts(cfg, limit)
    requires |accepted| <= limit && forall i :: 0 <= i < |accepted| ==> !accepted[i]
    ensures var s1 := RunFrom(cfg, s, [StartCall(t, call), Enter(t)] + Wakes(t, accepted));
            if |accepted| == limit then s1 == s.(refused := s.refused + [call])
            else s1 == s.(threads := s.threads[t := FirstBackoff(call, |accepted|)])
  {
    RunAppend(cfg, s, [StartCall(t, call), Enter(t)], Wakes(t, accepted));
    if limit == 0 {
      TwoSteps(cfg, s, StartCall(t, call), Enter(t));
      SetPcTwice(s, t, Entering(call), Idle);
      assert Wakes(t, accepted) == [];
    } else {
      StartsToSleep(cfg, s, t, call);
      var s1 := SetPc(s, t, FirstBackoff(call, 0));
      FirstSleeps(cfg, s1, t, call, 0, accepted);
      SetPcTwice(s, t, FirstBackoff(call, 0), FirstBackoff(call, |accepted|));
      SetPcTwice(s, t, FirstBackoff(call, 0), Idle);
    }
  }

  /** A call asleep while another thread connects is refused all the same, although the client is
      connected: each of its remaining attempts fails, even if the peer would accept. */
  lemma OvertakenCallIsRefused(cfg: Config, s: State, t: nat, call: Call, attempt: nat, accepted: seq<bool>)
    requires Free(s, t) && s.threads[t] == FirstBackoff(call, attempt) && s.codec.Some?
    requires attempt < Attempts(cfg) && attempt + |accepted| == Attempts(cfg)
    ensures RunFrom(cfg, s, Wakes(t, accepted))
         == s.(refused := s.refused + [call], threads := s.threads[t := Idle])
  {
    FirstSleeps(cfg, s, t, call, attempt, accepted);
  }

  /** In the same way the retry of a request is given up, with the error of the first send. */
  lemma OvertakenRetryIsGivenUp(cfg: Config, s: State, t: nat, r: Envelope, attempt: nat, err: Error,
                                accepted: seq<bool>)
    requires Free(s, t) && s.threads[t] == RetryBackoff(r, attempt, err) && s.codec.Some?
    requires attempt < Attempts(cfg) && attempt + |accepted| == Attempts(cfg)
    ensures RunFrom(cfg, s, Wakes(t, accepted))
         == s.(results := s.results[r.requestId := SendError(err)], threads := s.threads[t := Idle])
  {
    RetrySleeps(cfg, s, t, r, attempt, err, accepted);
  }

  // ---------------------------------------------------------------- what it makes possible

  /** `connect` makes a disconnected client ready for calls. */
  lemma ConnectMakesReady(cfg: Config, s: State, t: nat)
    requires Inv(cfg, s) && Free(s, t) && s.threads[t].Idle? && s.codec.None? && s.nextId < TWO_64
    ensures Ready(cfg, RunFrom(cfg, s, [Connect(t, true)]), t)
  {
    hide Inv, Apply, OpenConn;
    OneStep(cfg, s, Connect(t, true));
    Connects(cfg, s, t);
    OpenInv(cfg, s);
  }

  lemma Connects(cfg: Config, s: State, t: nat)
    requires Free(s, t) && s.threads[t].Idle? && s.codec.None? && s.nextId < TWO_64
    ensures Apply(cfg, s, Connect(t, true)) == OpenConn(s)
    ensures var s1 := OpenConn(s);
            Free(s1, t) && s1.threads[t].Idle? && CanBegin(s1) && s1.conns[s1.codec.value].handler.Reading?
  {
  }

  /** `disconnect` closes the connection, whose descriptor is released, and leaves the client ready
      to connect; no other connection changes. */
  lemma DisconnectReleases(cfg: Config, s: State, t: nat)
    requires Inv(cfg, s) && Free(s, t) && s.threads[t].Idle? && s.codec.Some?
    ensures var s1, c := RunFrom(cfg, s, [Disconnect(t)]), s.codec.value;
            && c < |s.conns| == |s1.conns| && s1.codec.None? && s1.conns[c].end == End(false, true, Some(Requested))
            && s1 == s.(transport := None, framed := None, codec := None, conns := s.conns[c := s1.conns[c]])
  {
    OneStep(cfg, s, Disconnect(t));
    assert ConnOk(cfg.wire, s.conns[s.codec.value]);
  }

  /** On a new connection the request is the first thing to be written. */
  lemma SendsOnNew(cfg: Config, s: State, t: nat, r: Envelope, retry: bool)
    requires t < |s.threads| && Legal(cfg.wire.enc(r))
    ensures var s1 := StartSend(cfg, OpenConn(s), t, r, retry);
            && AboutToSend(s1, t, r, retry) && s1.codec == Some(|s.conns|) && s1.issued == s.issued
            && |s1.conns| == |s.conns| + 1 && s1.conns[|s.conns|].served == []
  {
  }

  lemma WakesAndBegins(cfg: Config, s: State, t: nat, call: Call, attempt: nat)
    requires Free(s, t) && s.threads[t] == FirstBackoff(call, attempt) && s.codec.None? && s.nextId < TWO_64
    requires Legal(cfg.wire.enc(NewRequest(s, call)))
    ensures var r := NewRequest(s, call);
            RunFrom(cfg, s, [Wake(t, true)]) == StartSend(cfg, OpenConn(Issue(s, r)), t, r, false)
  {
    OneStep(cfg, s, Wake(t, true));
    assert Apply(cfg, s, Wake(t, true)) == BeginCall(cfg, OpenConn(s), t, call);
  }

  /** A call made while disconnected can succeed, after any number of failed attempts below
      `max_attempts`: the first that is accepted carries its request, on a new connection. */
  lemma CallCanReconnect(cfg: Config, s: State, t: nat, call: Call, h: HandlerResult, limit: nat, fails: nat)
    returns (steps: seq<Step>)
    requires Faithful(cfg.wire) && Inv(cfg, s) && MaxAttempts(cfg, limit) && fails < limit
    requires Free(s, t) && s.threads[t].Idle? && s.codec.None? && s.nextId < TWO_64
    requires Fits(cfg.wire, NewRequest(s, call)) && Fits(cfg.wire, Dispatch(cfg.services, NewRequest(s, call), h))
    ensures [StartCall(t, call), Enter(t)] + Wakes(t, seq(fails, _ => false)) + [Wake(t, true)] <= steps
    ensures var s1 := RunFrom(cfg, s, steps);
            && Succeeded(cfg, s1, s.nextId, call, h)
            && |s.conns| < |s1.conns| && |s1.conns[|s.conns|].served| == 1
  {
    DispatchAnswers(cfg.services, NewRequest(s, call), h);
    hide Inv, Succeeded, Dispatch, Apply, StartSend, Wakes;
    var r, accepted := NewRequest(s, call), seq(fails, _ => false);
    var sleeps := [StartCall(t, call), Enter(t)] + Wakes(t, accepted);
    RefusedExactly(cfg, s, t, call, limit, accepted);
    var s1 := SetPc(s, t, FirstBackoff(call, fails));
    WakesAndBegins(cfg, s1, t, call, fails);
    RunAppend(cfg, s, sleeps, [Wake(t, true)]);
    SendsOnNew(cfg, Issue(s1, r), t, r, false);
    var s2 := RunFrom(cfg, s, sleeps + [Wake(t, true)]);
    var rest := Completes(cfg, s2, t, r, false, h);
    RunAppend(cfg, s, sleeps + [Wake(t, true)], rest);
    steps := sleeps + [Wake(t, true)] + rest;
    RunKeeps(cfg, s, steps);
    AnswersSucceed(cfg, RunFrom(cfg, s, steps), s2, call, r, h);
  }

  lemma WakesAndResends(cfg: Config, s: State, t: nat, r: Envelope, attempt: nat, err: Error)
    requires Free(s, t) && s.threads[t] == RetryBackoff(r, attempt, err) && s.codec.None?
    ensures RunFrom(cfg, s, [Wake(t, true)]) == StartSend(cfg, OpenConn(s), t, r, true)
  {
    OneStep(cfg, s, Wake(t, true));
  }

  /** After the callback the thread sleeps through any number of failed attempts below the limit. */
  lemma SleepsAfterFailure(cfg: Config, s: State, t: nat, r: Envelope, err: Error, limit: nat, fails: nat)
    returns (steps: seq<Step>)
    requires Free(s, t) && s.threads[t] == Notifying(r, FirstSend(err))
    requires MaxAttempts(cfg, limit) && fails < limit
    ensures steps == [Notified(t)] + Wakes(t, seq(fails, _ => false))
    ensures RunFrom(cfg, s, steps) == SetPc(s, t, RetryBackoff(r, fails, err))
  {
    var accepted := seq(fails, _ => false);
    var s1 := SetPc(s, t, RetryBackoff(r, 0, err));
    OneStep(cfg, s, Notified(t));
    assert Apply(cfg, s, Notified(t)) == s1;
    RetrySleeps(cfg, s1, t, r, 0, err, accepted);
    RunAppend(cfg, s, [Notified(t)], Wakes(t, accepted));
    SetPcTwice(s, t, RetryBackoff(r, 0, err), RetryBackoff(r, fails, err));
    steps := [Notified(t)] + Wakes(t, accepted);
  }

  /** A call whose first send fails can succeed. Any number of failed attempts below `max_attempts`
      later the thread reconnects, sends the same request again on the new connection, and returns
      what its one dispatch made of it. */
  lemma RetryCanSucceed(cfg: Config, s: State, t: nat, call: Call, h: HandlerResult, errno: nat, limit: nat, fails: nat)
    returns (steps: seq<Step>)
    requires Faithful(cfg.wire) && Ready(cfg, s, t) && MaxAttempts(cfg, limit) && fails < limit
    requires Fits(cfg.wire, NewRequest(s, call)) && Fits(cfg.wire, Dispatch(cfg.services, NewRequest(s, call), h))
    ensures SendFails(t, errno) in steps
    ensures var s1 := RunFrom(cfg, s, steps);
            && Succeeded(cfg, s1, s.nextId, call, h)
            && |s.conns| < |s1.conns| && |s1.conns[|s.conns|].served| == 1
  {
    var r := NewRequest(s, call);
    var failed := FirstSendFails(cfg, s, t, call, errno);
    hide Ready, Inv, Succeeded, Dispatch, Apply, StartSend, Wakes;
    var s1 := RunFrom(cfg, s, failed);
    var sleeps := SleepsAfterFailure(cfg, s1, t, r, System(errno), limit, fails);
    RunAppend(cfg, s, failed, sleeps);
    var s2 := SetPc(s1, t, RetryBackoff(r, fails, System(errno)));
    WakesAndResends(cfg, s2, t, r, fails, System(errno));
    RunAppend(cfg, s, failed + sleeps, [Wake(t, true)]);
    SendsOnNew(cfg, s2, t, r, true);
    var s3 := RunFrom(cfg, s, failed + sleeps + [Wake(t, true)]);
    var rest := Completes(cfg, s3, t, r, true, h);
    RunAppend(cfg, s, failed + sleeps + [Wake(t, true)], rest);
    steps := failed + sleeps + [Wake(t, true)] + rest;
    ReadyInv(cfg, s, t);
    RunKeeps(cfg, s, steps);
    AnswersSucceed(cfg, RunFrom(cfg, s, steps), s3, call, r, h);
  }

  lemma ReadyInv(cfg: Config, s: State, t: nat)
    requires Ready(cfg, s, t)
    ensures Inv(cfg, s)
  {
  }
}
