/** What the client promises its callers, over every run: any number of threads, any interleaving,
    any splitting of the byte streams and any failures. */
module RpcTheorems {
  import opened Bytes
  import opened Errors
  import opened Envelopes
  import opened Dispatcher
  import opened CppCodec
  import Exchanges
  import opened RpcConn
  import opened RpcRun
  import opened RpcBase
  import opened RpcIds
  import opened RpcSteps

  // ---------------------------------------------------------------- how often a request is dispatched

  function CountServed(served: seq<Exchange>, x: nat): nat {
    if served == [] then 0
    else
      var n := |served| - 1;
      CountServed(served[..n], x) + (if served[n].request.requestId == x then 1 else 0)
  }

  /** How many times, over all connections, a handler was given the request of id `x`. */
  function Dispatches(conns: seq<Conn>, x: nat): nat {
    if conns == [] then 0
    else
      var n := |conns| - 1;
      Dispatches(conns[..n], x) + CountServed(conns[n].served, x)
  }

  ghost predicate Serves(served: seq<Exchange>, x: nat) {
    exists i :: 0 <= i < |served| && served[i].request.requestId == x
  }

  lemma {:induction false} CountZero(served: seq<Exchange>, x: nat)
    ensures CountServed(served, x) == 0 <==> !Serves(served, x)
    decreases |served|
  {
    if served != [] {
      var n := |served| - 1;
      CountZero(served[..n], x);
      if Serves(served, x) && served[n].request.requestId != x {
        var i :| 0 <= i < |served| && served[i].request.requestId == x;
        assert served[..n][i].request.requestId == x;
      }
      if Serves(served[..n], x) {
        var i :| 0 <= i < n && served[..n][i].request.requestId == x;
        assert served[i].request.requestId == x;
      }
    }
  }

  ghost predicate Distinct(served: seq<Exchange>) {
    forall i, j :: 0 <= i < j < |served| ==> served[i].request.requestId != served[j].request.requestId
  }

  lemma {:induction false} CountOne(served: seq<Exchange>, x: nat)
    requires Distinct(served)
    ensures CountServed(served, x) <= 1
    decreases |served|
  {
    if served != [] {
      var n := |served| - 1;
      CountOne(served[..n], x);
      if served[n].request.requestId == x {
        CountZero(served[..n], x);
      }
    }
  }

  /** At most one connection serves `x`. */
  ghost predicate OneServes(conns: seq<Conn>, x: nat) {
    forall c, d :: 0 <= c < |conns| && 0 <= d < |conns| && Serves(conns[c].served, x) && Serves(conns[d].served, x)
      ==> c == d
  }

  lemma {:induction false} DispatchesZero(conns: seq<Conn>, x: nat)
    ensures Dispatches(conns, x) == 0 <==> forall c :: 0 <= c < |conns| ==> !Serves(conns[c].served, x)
    decreases |conns|
  {
    if conns != [] {
      var n := |conns| - 1;
      DispatchesZero(conns[..n], x);
      CountZero(conns[n].served, x);
      assert forall c :: 0 <= c < n ==> conns[..n][c] == conns[c];
    }
  }

  lemma {:induction false} DispatchesOne(conns: seq<Conn>, x: nat)
    requires OneServes(conns, x) && forall c :: 0 <= c < |conns| ==> Distinct(conns[c].served)
    ensures Dispatches(conns, x) <= 1
    decreases |conns|
  {
    if conns != [] {
      var n := |conns| - 1;
      DispatchesOne(conns[..n], x);
      CountOne(conns[n].served, x);
      CountZero(conns[n].served, x);
      DispatchesZero(conns[..n], x);
      assert forall c :: 0 <= c < n ==> conns[..n][c] == conns[c];
    }
  }

  lemma ServedDistinct(cfg: Config, k: Conn)
    requires ConnOk(cfg.wire, k)
    ensures Distinct(k.served)
  {
    forall i, j | 0 <= i < j < |k.served| ensures k.served[i].request.requestId != k.served[j].request.requestId {
      WholeBegun(cfg, k, i);
      WholeBegun(cfg, k, j);
    }
  }

  /** What is dispatched was accepted whole. */
  lemma ServedWhole(cfg: Config, k: Conn, x: nat)
    requires ConnOk(cfg.wire, k) && Serves(k.served, x)
    ensures exists i :: 0 <= i < |k.whole| && k.whole[i].requestId == x
  {
    var i :| 0 <= i < |k.served| && k.served[i].request.requestId == x;
    assert k.whole[i] == k.served[i].request;
  }

  lemma AtMostOne(cfg: Config, s: State, x: nat)
    requires Inv(cfg, s)
    ensures Dispatches(s.conns, x) <= 1
    ensures NotWhole(s.conns, x) ==> Dispatches(s.conns, x) == 0
  {
    forall c | 0 <= c < |s.conns| ensures Distinct(s.conns[c].served) {
      ServedDistinct(cfg, s.conns[c]);
    }
    forall c, d | 0 <= c < |s.conns| && 0 <= d < |s.conns|
                  && Serves(s.conns[c].served, x) && Serves(s.conns[d].served, x)
      ensures c == d
    {
      ServedWhole(cfg, s.conns[c], x);
      ServedWhole(cfg, s.conns[d], x);
    }
    DispatchesOne(s.conns, x);
    if NotWhole(s.conns, x) {
      forall c | 0 <= c < |s.conns| ensures !Serves(s.conns[c].served, x) {
        if Serves(s.conns[c].served, x) {
          ServedWhole(cfg, s.conns[c], x);
        }
      }
      DispatchesZero(s.conns, x);
    }
  }

  lemma AnsweredIsDispatched(cfg: Config, s: State, x: nat, response: Envelope)
    requires Inv(cfg, s) && Answered(s, x, response)
    ensures Dispatches(s.conns, x) == 1
    ensures IsDispatch(cfg, Exchanges.Exchange(s.issued[x], response))
  {
    var c, i :| 0 <= c < |s.conns| && 0 <= i < |s.conns[c].served|
                && s.conns[c].served[i] == Exchanges.Exchange(s.issued[x], response);
    assert IsDispatch(cfg, s.conns[c].served[i]);
    assert Serves(s.conns[c].served, x);
    DispatchesZero(s.conns, x);
    AtMostOne(cfg, s, x);
  }

  // ---------------------------------------------------------------- main results

  /** The exact table of outcomes of the call with id `x`. (After a receive error the request may
      have been dispatched or not.) */
  ghost predicate OutcomeFits(cfg: Config, s: State, x: nat) {
    && Dispatches(s.conns, x) <= 1
    && (x in s.results ==>
          match s.results[x]
          case Success(response) =>
            && Dispatches(s.conns, x) == 1
            && Answered(s, x, response) && IsDispatch(cfg, Exchanges.Exchange(s.issued[x], response))
          case SendError(_) => Dispatches(s.conns, x) == 0
          case RecvError(_) => true
          case Mismatch(_) => false)
    && (x !in s.issued ==> Dispatches(s.conns, x) == 0)
  }

  /** At most once. A request is never dispatched twice. If `call` returned a response, its request
      was dispatched exactly once and the response is what that dispatch made of it; if it returned a send error the
      request was not dispatched, whatever was retried; the branch for a mismatched id is never
      taken. */
  lemma OutcomeTable(cfg: Config, threads: nat, steps: seq<Step>, x: nat)
    requires Faithful(cfg.wire)
    ensures OutcomeFits(cfg, Run(cfg, threads, steps), x)
  {
    var s := Run(cfg, threads, steps);
    Reachable(cfg, threads, steps);
    AtMostOne(cfg, s, x);
    if x in s.results {
      assert OutcomeOk(s, x, s.results[x]);
      if s.results[x].Success? {
        AnsweredIsDispatched(cfg, s, x, s.results[x].response);
      }
    }
    if x !in s.issued {
      forall c, i | 0 <= c < |s.conns| && 0 <= i < |s.conns[c].whole| ensures s.conns[c].whole[i].requestId != x {
        WholeBegun(cfg, s.conns[c], i);
      }
    }
  }

  lemma StartSendResults(cfg: Config, s: State, t: nat, r: Envelope, retry: bool)
    requires t < |s.threads| && s.codec.Some? && s.codec.value < |s.conns|
    ensures StartSend(cfg, s, t, r, retry).results == s.results
  {
  }

  lemma EnterResults(cfg: Config, s: State, t: nat, call: Call)
    requires Free(s, t)
    ensures EnterStep(cfg, s, t, call).results == s.results
  {
    if CanBegin(s) {
      StartSendResults(cfg, Issue(s, NewRequest(s, call)), t, NewRequest(s, call), false);
    }
  }

  lemma FirstWakeResults(cfg: Config, s: State, t: nat, call: Call, attempt: nat, accepted: bool)
    requires Free(s, t)
    ensures FirstWake(cfg, s, t, call, attempt, accepted).results == s.results
  {
    var s1 := OpenConn(s);
    if CanBegin(s1) {
      StartSendResults(cfg, Issue(s1, NewRequest(s1, call)), t, NewRequest(s1, call), false);
    }
  }

  lemma RetryWakeResults(cfg: Config, s: State, t: nat, r: Envelope, attempt: nat, err: Error, accepted: bool, x: nat)
    requires Free(s, t) && x in s.results && r.requestId != x
    ensures var s1 := RetryWake(cfg, s, t, r, attempt, err, accepted); x in s1.results && s1.results[x] == s.results[x]
  {
    StartSendResults(cfg, OpenConn(s), t, r, true);
  }

  lemma RecvResults(cfg: Config, s: State, t: nat, n: nat, x: nat)
    requires OnConn(s, t) && s.threads[t].Receiving? && x in s.results && s.threads[t].request.requestId != x
    ensures var s1 := RecvStep(cfg, s, t, n); x in s1.results && s1.results[x] == s.results[x]
  {
  }

  lemma ServerResults(cfg: Config, s: State, step: Step)
    requires step.ServerRead? || step.ServerDispatch? || step.ServerWrite? || step.ServerStops?
    ensures ServerStep(cfg, s, step).results == s.results
  {
  }

  /** What a call has returned stays returned. */
  lemma StepKeepsResults(cfg: Config, s: State, step: Step, x: nat)
    requires Holders(s) && x in s.results
    ensures x in Apply(cfg, s, step).results && Apply(cfg, s, step).results[x] == s.results[x]
  {
    hide EnterStep, FirstWake, RetryWake, RecvStep, ServerStep;
    if step.ServerRead? || step.ServerDispatch? || step.ServerWrite? || step.ServerStops? {
      ServerResults(cfg, s, step);
    }
    if !step.ServerRead? && !step.ServerDispatch? && !step.ServerWrite? && !step.ServerStops? && step.t < |s.threads| {
      var t := step.t;
      assert HasRequest(s.threads[t]) ==> Mine(s, t, s.threads[t].request);
      match (step, s.threads[t])
      case (Enter(_), Entering(call)) => if Free(s, t) { EnterResults(cfg, s, t, call); }
      case (Wake(_, accepted), FirstBackoff(call, i)) =>
        if Free(s, t) { FirstWakeResults(cfg, s, t, call, i, accepted); }
      case (Wake(_, accepted), RetryBackoff(r, i, err)) =>
        if Free(s, t) { RetryWakeResults(cfg, s, t, r, i, err, accepted, x); }
      case (Recv(_, n), Receiving(_, _)) => if OnConn(s, t) { RecvResults(cfg, s, t, n, x); }
      case _ =>
    }
  }

  lemma {:induction false} RunKeepsResults(cfg: Config, s: State, steps: seq<Step>, x: nat)
    requires Faithful(cfg.wire) && Inv(cfg, s) && x in s.results
    ensures x in RunFrom(cfg, s, steps).results && RunFrom(cfg, s, steps).results[x] == s.results[x]
    decreases |steps|
  {
    if steps != [] {
      var init := steps[..|steps| - 1];
      RunKeepsResults(cfg, s, init, x);
      RunKeeps(cfg, s, init);
      StepKeepsResults(cfg, RunFrom(cfg, s, init), steps[|steps| - 1], x);
    }
  }

  lemma {:induction false} RunAppend(cfg: Config, s: State, a: seq<Step>, b: seq<Step>)
    ensures RunFrom(cfg, s, a + b) == RunFrom(cfg, RunFrom(cfg, s, a), b)
    decreases |b|
  {
    hide Apply;
    if b == [] {
      assert a + b == a;
    } else {
      var n := |b| - 1;
      RunAppend(cfg, s, a, b[..n]);
      assert (a + b)[..|a + b| - 1] == a + b[..n];
    }
  }

  /** A send error is final: the request is not dispatched later either, however the run goes on. */
  lemma SendErrorIsFinal(cfg: Config, threads: nat, steps: seq<Step>, later: seq<Step>, x: nat)
    requires Faithful(cfg.wire)
    requires x in Run(cfg, threads, steps).results && Run(cfg, threads, steps).results[x].SendError?
    ensures Dispatches(Run(cfg, threads, steps + later).conns, x) == 0
  {
    var s := Run(cfg, threads, steps);
    Reachable(cfg, threads, steps);
    RunAppend(cfg, Init(threads), steps, later);
    RunKeepsResults(cfg, s, later, x);
    OutcomeTable(cfg, threads, steps + later, x);
  }

  /** Quiescence: when the mutex is free and the client is connected, its connection carries no
      unanswered request and no unread byte, in either direction. */
  lemma Quiescence(cfg: Config, threads: nat, steps: seq<Step>)
    requires Faithful(cfg.wire)
    ensures var s := Run(cfg, threads, steps);
            s.owner.None? && s.codec.Some? ==>
              s.codec.value < |s.conns| && Quiet(s.conns[s.codec.value])
  {
    Reachable(cfg, threads, steps);
  }

  /** Handle consistency and mutual exclusion: the three handles agree and name the only connection
      that counts as connected, whose descriptor is not released, and at most one thread is sending
      or receiving. */
  lemma HandlesAgree(cfg: Config, threads: nat, steps: seq<Step>)
    requires Faithful(cfg.wire)
    ensures var s := Run(cfg, threads, steps);
            && s.transport == s.framed == s.codec
            && (forall c :: 0 <= c < |s.conns| ==> (s.conns[c].end.connected <==> s.codec == Some(c)))
            && (s.codec.Some? ==> s.codec.value < |s.conns| && !s.conns[s.codec.value].end.released)
            && (forall t, u | 0 <= t < |s.threads| && 0 <= u < |s.threads| ::
                  Holds(s.threads[t]) && Holds(s.threads[u]) ==> t == u)
            && (forall t :: 0 <= t < |s.threads| && Holds(s.threads[t]) ==> s.codec.Some?)
  {
    Reachable(cfg, threads, steps);
    var s := Run(cfg, threads, steps);
    assert Locking(s);
    if s.codec.Some? {
      assert ConnOk(cfg.wire, s.conns[s.codec.value]);
    }
  }

  /** A connection that the client has given up was closed, its descriptor released, if and only if
      the cause was not a failed system call or EOF: after one of those the descriptor stays open. */
  lemma ReleasedExactly(cfg: Config, threads: nat, steps: seq<Step>, c: nat)
    requires Faithful(cfg.wire) && c < |Run(cfg, threads, steps).conns|
    requires Run(cfg, threads, steps).codec != Some(c)
    ensures var e := Run(cfg, threads, steps).conns[c].end;
            e.loss.Some? && (e.released <==> !ByTransport(e.loss.value))
  {
    Reachable(cfg, threads, steps);
    assert ConnOk(cfg.wire, Run(cfg, threads, steps).conns[c]);
  }

  /** Request ids increase strictly in the order in which requests are written on each connection,
      even though a retry writes an older id after newer ones were written elsewhere; every request
      written is the one its call built; and ids are unique per call: no two threads work on the same
      id, and no thread works on one that has an outcome. */
  lemma IdsIncrease(cfg: Config, threads: nat, steps: seq<Step>, c: nat)
    requires Faithful(cfg.wire) && c < |Run(cfg, threads, steps).conns|
    ensures var s := Run(cfg, threads, steps);
            && Increasing(s.conns[c].begun)
            && (forall i :: 0 <= i < |s.conns[c].begun| ==>
                  s.conns[c].begun[i].requestId in s.issued
                  && s.issued[s.conns[c].begun[i].requestId] == s.conns[c].begun[i])
            && (forall x :: x in s.issued ==> 1 <= x < s.nextId && s.issued[x].requestId == x)
            && (forall t :: 0 <= t < |s.threads| && HasRequest(s.threads[t]) ==> Mine(s, t, s.threads[t].request))
  {
    Reachable(cfg, threads, steps);
  }

  /** On every connection the server dispatches the requests in the order they were written, is at
      most one behind, and answers each with its own id. */
  lemma ServedInOrder(cfg: Config, threads: nat, steps: seq<Step>, c: nat)
    requires Faithful(cfg.wire) && c < |Run(cfg, threads, steps).conns|
    ensures var k := Run(cfg, threads, steps).conns[c];
            && |k.served| <= |k.whole| <= |k.served| + 1
            && (forall i :: 0 <= i < |k.served| ==>
                  k.served[i].request == k.whole[i] && k.served[i].response.requestId == k.whole[i].requestId)
  {
    Reachable(cfg, threads, steps);
    var s := Run(cfg, threads, steps);
    var k := s.conns[c];
    forall i | 0 <= i < |k.served|
      ensures k.served[i].request == k.whole[i] && k.served[i].response.requestId == k.whole[i].requestId
    {
      assert IsDispatch(cfg, s.conns[c].served[i]);
      WholeBegun(cfg, k, i);
      DispatchSendable(cfg, k.served[i]);
    }
  }

  /** All of this holds of the protobuf codec. */
  lemma OutcomeTableForProtobuf(services: Services, reconnect: Option<int>, threads: nat, steps: seq<Step>, x: nat)
    ensures var cfg := Config(CODEC, services, reconnect);
            OutcomeFits(cfg, Run(cfg, threads, steps), x)
  {
    CodecFaithful();
    OutcomeTable(Config(CODEC, services, reconnect), threads, steps, x);
  }
}
