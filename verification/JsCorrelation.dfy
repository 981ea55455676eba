/** What the TypeScript client's calls return: while no read of a connection has gone astray, each call
    gets the response to its own request, although the client only compares ids. */
module JsCorrelation {
  import opened Bytes
  import opened Frames
  import opened JsClient

  predicate ReadsFrom(pc: Pc, c: nat) {
    pc.Receiving? && pc.c == c
  }

  /** On a connection that is not astray every response was taken but that of the call that waits. */
  ghost predicate Settles(s: Client) {
    forall c :: 0 <= c < |s.sockets| && s.sockets[c].connected && !s.sockets[c].astray
                && (forall k :: 0 <= k < |s.calls| ==> !ReadsFrom(s.calls[k], c)) ==>
      s.sockets[c].taken == |s.sockets[c].frames|
  }

  /** The next response is the one the call waits for. */
  ghost predicate AwaitsOwn(s: Client, pc: Pc) {
    pc.Receiving? ==>
      && pc.c < |s.sockets|
      && var sock := s.sockets[pc.c];
         !sock.astray ==>
           sock.taken + 1 == |sock.frames| <= |sock.begun| && sock.begun[sock.taken].id == pc.id
  }

  ghost predicate Awaits(s: Client) {
    forall k :: 0 <= k < |s.calls| ==> AwaitsOwn(s, s.calls[k])
  }

  /** The response returned is that to the request of this id; only astray connections have others. */
  ghost predicate OutcomeOk(s: Client, id: nat, o: Outcome) {
    match o
    case Returned(c, i) => c < |s.sockets| && i < |s.sockets[c].begun| && s.sockets[c].begun[i].id == id
    case Mismatch(_, _) => false
    case Unknown(c) => c < |s.sockets| && s.sockets[c].astray
    case Threw => true
  }

  ghost predicate Outcomes(s: Client) {
    forall id :: id in s.outcomes ==> OutcomeOk(s, id, s.outcomes[id])
  }

  ghost predicate Correlated(s: Client) {
    Settles(s) && Awaits(s) && Outcomes(s)
  }

  /** Sockets are only added, requests on them only begun, and what is astray stays so. */
  ghost predicate Grown(s: Client, s1: Client) {
    && |s.sockets| <= |s1.sockets|
    && forall c :: 0 <= c < |s.sockets| ==>
         && s.sockets[c].begun <= s1.sockets[c].begun
         && (s.sockets[c].astray ==> s1.sockets[c].astray)
  }

  lemma OutcomesKeep(s: Client, s1: Client)
    requires Outcomes(s) && Grown(s, s1) && s1.outcomes == s.outcomes
    ensures Outcomes(s1)
  {
    forall id | id in s1.outcomes ensures OutcomeOk(s1, id, s1.outcomes[id]) {
      assert OutcomeOk(s, id, s.outcomes[id]);
    }
  }

  /** The reads of a socket are as they were, and it has not come to life again. */
  ghost predicate SameReads(a: Socket, b: Socket) {
    && b.taken == a.taken && b.astray == a.astray && b.frames == a.frames && a.begun <= b.begun
    && (b.connected ==> a.connected)
  }

  /** A step that reads nothing, and in which no call starts or stops to read. */
  lemma NothingRead(s: Client, s1: Client)
    requires Correlated(s) && s1.outcomes == s.outcomes
    requires |s.sockets| <= |s1.sockets| && |s.calls| <= |s1.calls|
    requires forall c :: 0 <= c < |s.sockets| ==> SameReads(s.sockets[c], s1.sockets[c])
    requires forall c :: |s.sockets| <= c < |s1.sockets| ==> s1.sockets[c].taken == |s1.sockets[c].frames| == 0
    requires forall k :: 0 <= k < |s.calls| && s.calls[k].Receiving? ==> s1.calls[k] == s.calls[k]
    requires forall k :: 0 <= k < |s1.calls| && s1.calls[k].Receiving? ==> k < |s.calls| && s1.calls[k] == s.calls[k]
    ensures Correlated(s1)
  {
    OutcomesKeep(s, s1);
    forall k | 0 <= k < |s1.calls| ensures AwaitsOwn(s1, s1.calls[k]) {
      if s1.calls[k].Receiving? {
        assert AwaitsOwn(s, s.calls[k]);
      }
    }
    forall c | 0 <= c < |s1.sockets| && s1.sockets[c].connected && !s1.sockets[c].astray
               && (forall k :: 0 <= k < |s1.calls| ==> !ReadsFrom(s1.calls[k], c))
      ensures s1.sockets[c].taken == |s1.sockets[c].frames|
    {
      if c < |s.sockets| {
        forall k | 0 <= k < |s.calls| ensures !ReadsFrom(s.calls[k], c) {
          if s.calls[k].Receiving? {
            assert !ReadsFrom(s1.calls[k], c);
          }
        }
      }
    }
  }

  // ---------------------------------------------------------------- steps that read, or begin to

  /** No other call is in flight, so none reads. */
  lemma OnlyReader(s: Client, k: nat)
    requires Inv(s) && k < |s.calls| && InFlight(s.calls[k])
    ensures forall j :: 0 <= j < |s.calls| && j != k ==> !s.calls[j].Receiving?
  {
    forall j | 0 <= j < |s.calls| && j != k ensures !s.calls[j].Receiving? {
      assert InFlight(s.calls[j]) ==> j == k;
    }
  }

  lemma SendLastCorrelates(s: Client, k: nat)
    requires Inv(s) && Correlated(s) && Writing(s, k) && !s.sockets[s.calls[k].c].dead
    ensures Correlated(SendLast(s, k))
  {
    var Sending(id, c, payload, i) := s.calls[k];
    var s1 := SendLast(s, k);
    WriterKnown(s, k);
    OnlyReader(s, k);
    OutcomesKeep(s, s1);
    assert s.sockets[c].connected && !ReadsFrom(s.calls[k], c);
    assert forall j :: 0 <= j < |s.calls| ==> !ReadsFrom(s.calls[j], c);
    assert !s.sockets[c].astray ==> s.sockets[c].taken == |s.sockets[c].frames|;
    assert AwaitsOwn(s1, s1.calls[k]);
    SettlesBut(s, s1, k, c);
  }

  /** Only socket `c` has changed, and call `k` reads from it or it is astray. */
  lemma SettlesBut(s: Client, s1: Client, k: nat, c: nat)
    requires Settles(s) && k < |s.calls| == |s1.calls| && c < |s.sockets| == |s1.sockets|
    requires forall j :: 0 <= j < |s.calls| && j != k ==> s1.calls[j] == s.calls[j] && !s.calls[j].Receiving?
    requires forall d :: 0 <= d < |s.sockets| && d != c ==> s1.sockets[d] == s.sockets[d]
    requires ReadsFrom(s1.calls[k], c) || s1.sockets[c].astray || s1.sockets[c].taken == |s1.sockets[c].frames|
             || !s1.sockets[c].connected
    requires s.calls[k].Receiving? ==> s.calls[k].c == c
    ensures Settles(s1)
  {
    forall d | 0 <= d < |s1.sockets| && s1.sockets[d].connected && !s1.sockets[d].astray
               && (forall j :: 0 <= j < |s1.calls| ==> !ReadsFrom(s1.calls[j], d))
      ensures s1.sockets[d].taken == |s1.sockets[d].frames|
    {
      if d != c {
        assert forall j :: 0 <= j < |s.calls| ==> !ReadsFrom(s.calls[j], d);
      } else {
        assert !ReadsFrom(s1.calls[k], c);
      }
    }
  }

  /** A call that waited is over. */
  lemma CallEnds(s: Client, s1: Client, k: nat, o: Outcome)
    requires Inv(s) && Correlated(s) && Awaiting(s, k)
    requires var c := s.calls[k].c;
             && |s1.sockets| == |s.sockets| && s1.calls == s.calls[k := Settled]
             && (forall d :: 0 <= d < |s.sockets| && d != c ==> s1.sockets[d] == s.sockets[d])
             && s1.sockets[c].begun == s.sockets[c].begun && (s.sockets[c].astray ==> s1.sockets[c].astray)
             && (s1.sockets[c].astray || s1.sockets[c].taken == |s1.sockets[c].frames| || !s1.sockets[c].connected)
    requires s1.outcomes == s.outcomes[s.calls[k].id := o] && OutcomeOk(s1, s.calls[k].id, o)
    ensures Correlated(s1)
  {
    OnlyReader(s, k);
    SettlesBut(s, s1, k, s.calls[k].c);
    forall id | id in s1.outcomes ensures OutcomeOk(s1, id, s1.outcomes[id]) {
      if id != s.calls[k].id {
        assert OutcomeOk(s, id, s.outcomes[id]);
      }
    }
  }

  lemma TakeCorrelates(s: Client, k: nat)
    requires Inv(s) && Correlated(s) && Awaiting(s, k) && !s.sockets[s.calls[k].c].astray
    ensures Correlated(TakeResponse(s, k))
  {
    assert AwaitsOwn(s, s.calls[k]);
    var Receiving(_, c) := s.calls[k];
    CallEnds(s, TakeResponse(s, k), k, Returned(c, s.sockets[c].taken));
  }

  lemma LeaveCorrelates(s: Client, k: nat, o: Outcome)
    requires Inv(s) && Correlated(s) && Awaiting(s, k) && (o == Threw || o == Unknown(s.calls[k].c))
    ensures Correlated(Leave(s, k, o))
  {
    CallEnds(s, Leave(s, k, o), k, o);
  }

  lemma RejectedCorrelates(s: Client, k: nat)
    requires Inv(s) && Correlated(s) && Awaiting(s, k) && !s.sockets[s.calls[k].c].connected
    ensures Correlated(Release(s, k, s.calls[k].id, Threw))
  {
    CallEnds(s, Release(s, k, s.calls[k].id, Threw), k, Threw);
  }

  /** The error of a send is thrown on: nothing was read. */
  lemma ThrowCorrelates(s: Client, k: nat)
    requires Correlated(s) && k < |s.calls| && s.calls[k].Failing?
    ensures Correlated(Release(s, k, s.calls[k].id, Threw))
  {
    var s1 := Release(s, k, s.calls[k].id, Threw);
    NothingRead(s, s1.(outcomes := s.outcomes));
    forall id | id in s1.outcomes ensures OutcomeOk(s1, id, s1.outcomes[id]) {
      if id != s.calls[k].id {
        assert OutcomeOk(s, id, s.outcomes[id]);
      }
    }
  }

  lemma PartCorrelates(s: Client, k: nat, n: nat)
    requires Correlated(s) && Writing(s, k) && s.calls[k].done + n < |Frame(s.calls[k].payload)|
    ensures Correlated(SendPart(s, k, n))
  {
    NothingRead(s, SendPart(s, k, n));
  }

  lemma AbandonCorrelates(s: Client, k: nat)
    requires Correlated(s) && k < |s.calls| && s.calls[k].Sending?
    ensures Correlated(Abandon(s, k))
  {
    NothingRead(s, Abandon(s, k));
  }

  lemma AcceptedCorrelates(s: Client, k: nat, n: nat)
    requires Inv(s) && Correlated(s) && k < |s.calls| && s.calls[k].Sending?
    ensures Correlated(Apply(s, Accepted(k, n)))
  {
    hide Correlated, SendPart, SendLast, Abandon;
    var Sending(_, c, payload, i) := s.calls[k];
    WriterKnown(s, k);
    var f := Frame(payload);
    if i == 4 < |f| && !s.sockets[c].connected {
      AbandonCorrelates(s, k);
    } else if !s.sockets[c].dead && n >= 1 && i + n <= SendLimit(f, i) {
      if i + n < |f| {
        PartCorrelates(s, k, n);
      } else {
        SendLastCorrelates(s, k);
      }
    }
  }

  lemma EnterCorrelates(s: Client, k: nat, payload: bytes)
    requires Correlated(s) && k < |s.calls| && !s.calls[k].Receiving?
    ensures Correlated(Enter(s, k, payload))
  {
    NothingRead(s, Enter(s, k, payload));
  }

  lemma CallCorrelates(s: Client, payload: bytes)
    requires Correlated(s)
    ensures Correlated(Apply(s, Call(payload)))
  {
    var s1, s2 := s.(calls := s.calls + [Settled]), s.(calls := s.calls + [Waiting]);
    NothingRead(s, s1);
    NothingRead(s, s2);
    EnterCorrelates(s1, |s.calls|, payload);
  }

  lemma EventCorrelates(s: Client, step: Step)
    requires Correlated(s)
    requires step.WriteFails? || step.Connected? || step.Closed? || step.Disconnect? || step.GiveUp?
    ensures Correlated(Apply(s, step))
  {
    hide Correlated;
    NothingRead(s, Apply(s, step));
  }

  lemma StepCorrelates(s: Client, step: Step)
    requires Inv(s) && Correlated(s)
    ensures Correlated(Apply(s, step))
  {
    hide Correlated, Inv, Enter, TakeResponse, Leave;
    match step
    case Call(payload) => CallCorrelates(s, payload);
    case Resume(k, payload) => if k < |s.calls| && s.calls[k].Waiting? { EnterCorrelates(s, k, payload); }
    case Accepted(k, n) => if k < |s.calls| && s.calls[k].Sending? { AcceptedCorrelates(s, k, n); }
    case Response(k) => if Awaiting(s, k) && !s.sockets[s.calls[k].c].astray { TakeCorrelates(s, k); }
    case AstrayResponse(k) => if Awaiting(s, k) { LeaveCorrelates(s, k, Unknown(s.calls[k].c)); }
    case BadResponse(k) => if Awaiting(s, k) { LeaveCorrelates(s, k, Threw); }
    case RecvRejected(k) =>
      if Awaiting(s, k) && !s.sockets[s.calls[k].c].connected { RejectedCorrelates(s, k); }
    case Timeout(k) => if Awaiting(s, k) { LeaveCorrelates(s, k, Threw); }
    case SendRejected(k) => if k < |s.calls| && s.calls[k].Failing? { ThrowCorrelates(s, k); }
    case _ => EventCorrelates(s, step);
  }

  lemma {:induction false} RunCorrelates(reconnectOpts: bool, steps: seq<Step>)
    ensures Correlated(Run(reconnectOpts, steps))
    decreases |steps|
  {
    if steps != [] {
      RunCorrelates(reconnectOpts, steps[..|steps| - 1]);
      RunKeeps(reconnectOpts, steps[..|steps| - 1]);
      StepCorrelates(Run(reconnectOpts, steps[..|steps| - 1]), steps[|steps| - 1]);
    }
  }

  // ---------------------------------------------------------------- the main results

  /** After every run: a call that returned has the response to the request of its own id, and the
      id-mismatch branch is taken on no connection that is not astray. */
  lemma ResponsesAreOwn(reconnectOpts: bool, steps: seq<Step>, id: nat)
    requires id in Run(reconnectOpts, steps).outcomes
    ensures var s := Run(reconnectOpts, steps);
            match s.outcomes[id]
            case Returned(c, i) => c < |s.sockets| && i < |s.sockets[c].begun| && s.sockets[c].begun[i].id == id
            case Mismatch(_, _) => false
            case Unknown(c) => c < |s.sockets| && s.sockets[c].astray
            case Threw => true
  {
    RunCorrelates(reconnectOpts, steps);
    assert OutcomeOk(Run(reconnectOpts, steps), id, Run(reconnectOpts, steps).outcomes[id]);
  }

  /** Nothing else lets a read go astray: no call timed out and no response was bad. */
  ghost predicate Straight(steps: seq<Step>) {
    forall i :: 0 <= i < |steps| ==> !steps[i].Timeout? && !steps[i].BadResponse?
  }

  lemma {:induction false} NoneAstray(reconnectOpts: bool, steps: seq<Step>)
    requires Straight(steps)
    ensures forall c :: 0 <= c < |Run(reconnectOpts, steps).sockets| ==> !Run(reconnectOpts, steps).sockets[c].astray
    decreases |steps|
  {
    if steps != [] {
      var step := steps[|steps| - 1];
      assert !step.Timeout? && !step.BadResponse?;
      NoneAstray(reconnectOpts, steps[..|steps| - 1]);
      StaysStraight(Run(reconnectOpts, steps[..|steps| - 1]), step);
    }
  }

  lemma StaysStraight(s: Client, step: Step)
    requires forall c :: 0 <= c < |s.sockets| ==> !s.sockets[c].astray
    requires !step.Timeout? && !step.BadResponse?
    ensures forall c :: 0 <= c < |Apply(s, step).sockets| ==> !Apply(s, step).sockets[c].astray
  {
  }

  /** In a run without a timeout and a bad response every call that got a response got its own, and no
      call found a mismatched id. */
  lemma EveryResponseIsOwn(reconnectOpts: bool, steps: seq<Step>, id: nat)
    requires Straight(steps) && id in Run(reconnectOpts, steps).outcomes
    ensures var s := Run(reconnectOpts, steps);
            match s.outcomes[id]
            case Returned(c, i) => c < |s.sockets| && i < |s.sockets[c].begun| && s.sockets[c].begun[i].id == id
            case Threw => true
            case _ => false
  {
    ResponsesAreOwn(reconnectOpts, steps, id);
    NoneAstray(reconnectOpts, steps);
  }
}
