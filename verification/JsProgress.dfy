/** What the TypeScript client does get done: which calls take an id, that such a call can return its own
    response, also after waiting for a reconnect, and that every call can come to its end. */
module JsProgress {
  import opened Bytes
  import opened Frames
  import opened JsClient
  import opened JsCorrelation

  // ---------------------------------------------------------------- what else every run keeps

  /** The client holds a codec only while its socket counts as connected. */
  predicate CodecLive(s: Client) {
    s.codec.Some? ==> s.codec.value < |s.sockets| && s.sockets[s.codec.value].connected
  }

  /** The ids given out are those with an outcome and that of the call in flight. */
  ghost predicate IdsAccounted(s: Client) {
    && 1 <= s.nextRequestId
    && (forall id :: id in s.outcomes ==> 1 <= id < s.nextRequestId)
    && (forall k :: 0 <= k < |s.calls| && InFlight(s.calls[k]) ==>
          1 <= s.calls[k].id < s.nextRequestId && s.calls[k].id !in s.outcomes)
    && (forall id | 1 <= id < s.nextRequestId && id !in s.outcomes ::
          exists k :: 0 <= k < |s.calls| && HasId(s.calls[k], id))
  }

  predicate HasId(pc: Pc, id: nat) {
    InFlight(pc) && pc.id == id
  }

  lemma StepKeepsCodec(s: Client, step: Step)
    requires CodecLive(s)
    ensures CodecLive(Apply(s, step))
  {
  }

  /** Call `k` moves on, from and to a stage with the same id, or with none; no id is given out. */
  lemma SameIds(s: Client, s1: Client, k: nat)
    requires IdsAccounted(s) && s1.nextRequestId == s.nextRequestId && s1.outcomes == s.outcomes
    requires k < |s.calls| == |s1.calls|
    requires forall j :: 0 <= j < |s.calls| && j != k ==> s1.calls[j] == s.calls[j]
    requires InFlight(s1.calls[k]) == InFlight(s.calls[k])
    requires InFlight(s.calls[k]) ==> s1.calls[k].id == s.calls[k].id
    ensures IdsAccounted(s1)
  {
    forall id | 1 <= id < s1.nextRequestId && id !in s1.outcomes
      ensures exists j :: 0 <= j < |s1.calls| && HasId(s1.calls[j], id)
    {
      var j :| 0 <= j < |s.calls| && HasId(s.calls[j], id);
      assert HasId(s1.calls[j], id);
    }
  }

  /** No call moves. */
  lemma SameCalls(s: Client, s1: Client)
    requires IdsAccounted(s) && s1.nextRequestId == s.nextRequestId && s1.outcomes == s.outcomes
    requires s1.calls == s.calls
    ensures IdsAccounted(s1)
  {
  }

  lemma AddedIds(s: Client, pc: Pc)
    requires IdsAccounted(s) && !InFlight(pc)
    ensures IdsAccounted(s.(calls := s.calls + [pc]))
  {
    var s1 := s.(calls := s.calls + [pc]);
    forall id | 1 <= id < s1.nextRequestId && id !in s1.outcomes
      ensures exists j :: 0 <= j < |s1.calls| && HasId(s1.calls[j], id)
    {
      var j :| 0 <= j < |s.calls| && HasId(s.calls[j], id);
      assert HasId(s1.calls[j], id);
    }
  }

  /** A call takes the next id. */
  lemma TakesIds(s: Client, s1: Client, k: nat)
    requires IdsAccounted(s) && k < |s.calls| && !InFlight(s.calls[k])
    requires s1.outcomes == s.outcomes && s1.nextRequestId == s.nextRequestId + 1
    requires |s1.calls| == |s.calls| && s1.calls == s.calls[k := s1.calls[k]] && HasId(s1.calls[k], s.nextRequestId)
    ensures IdsAccounted(s1)
  {
    forall id | 1 <= id < s1.nextRequestId && id !in s1.outcomes
      ensures exists j :: 0 <= j < |s1.calls| && HasId(s1.calls[j], id)
    {
      if id == s.nextRequestId {
        assert HasId(s1.calls[k], id);
      } else {
        var j :| 0 <= j < |s.calls| && HasId(s.calls[j], id);
        assert HasId(s1.calls[j], id);
      }
    }
  }

  lemma EnterIds(s: Client, k: nat, payload: bytes)
    requires IdsAccounted(s) && k < |s.calls| && !InFlight(s.calls[k])
    ensures IdsAccounted(Enter(s, k, payload))
  {
    hide IdsAccounted;
    if Enter(s, k, payload).nextRequestId == s.nextRequestId {
      SameIds(s, Refuse(s, k), k);
    } else {
      TakesIds(s, Enter(s, k, payload), k);
    }
  }

  /** The call that is in flight settles with its id. */
  lemma ReleasedIds(s: Client, s1: Client, k: nat)
    requires SingleFlight(s) && IdsAccounted(s) && k < |s.calls| && InFlight(s.calls[k])
    requires s1.calls == s.calls[k := Settled] && s1.nextRequestId == s.nextRequestId
    requires s.calls[k].id in s1.outcomes && s1.outcomes - {s.calls[k].id} == s.outcomes
    ensures IdsAccounted(s1)
  {
    forall id ensures id in s1.outcomes <==> id in s.outcomes || id == s.calls[k].id {
      if id != s.calls[k].id {
        assert id in s1.outcomes <==> id in s1.outcomes - {s.calls[k].id};
      }
    }
    forall id | 1 <= id < s1.nextRequestId ensures id in s1.outcomes {
      if id !in s.outcomes {
        var j :| 0 <= j < |s.calls| && HasId(s.calls[j], id);
        assert j == k;
      }
    }
  }

  lemma ReleaseIds(s: Client, k: nat, o: Outcome)
    requires SingleFlight(s) && IdsAccounted(s) && k < |s.calls| && InFlight(s.calls[k])
    ensures IdsAccounted(Release(s, k, s.calls[k].id, o))
  {
    ReleasedIds(s, Release(s, k, s.calls[k].id, o), k);
  }

  lemma LeaveIds(s: Client, k: nat, o: Outcome)
    requires SingleFlight(s) && IdsAccounted(s) && Awaiting(s, k)
    ensures IdsAccounted(Leave(s, k, o))
  {
    ReleasedIds(s, Leave(s, k, o), k);
  }

  lemma TakeIds(s: Client, k: nat)
    requires SingleFlight(s) && IdsAccounted(s) && Awaiting(s, k)
    ensures IdsAccounted(TakeResponse(s, k))
  {
    if TakeResponse(s, k) != s {
      ReleasedIds(s, TakeResponse(s, k), k);
    }
  }

  lemma AcceptedIds(s: Client, k: nat, n: nat)
    requires IdsAccounted(s) && k < |s.calls| && s.calls[k].Sending?
    ensures IdsAccounted(Apply(s, Accepted(k, n)))
  {
    hide IdsAccounted, Take;
    SameIds(s, Apply(s, Accepted(k, n)), k);
  }

  lemma CallIds(s: Client, payload: bytes)
    requires IdsAccounted(s)
    ensures IdsAccounted(Apply(s, Call(payload)))
  {
    hide IdsAccounted, Enter;
    AddedIds(s, Settled);
    AddedIds(s, Waiting);
    EnterIds(s.(calls := s.calls + [Settled]), |s.calls|, payload);
  }

  lemma StepKeepsIds(s: Client, step: Step)
    requires SingleFlight(s) && IdsAccounted(s)
    ensures IdsAccounted(Apply(s, step))
  {
    hide IdsAccounted, SingleFlight, Enter, TakeResponse, Leave, Release;
    match step
    case Call(payload) => CallIds(s, payload);
    case Resume(k, payload) => if k < |s.calls| && s.calls[k].Waiting? { EnterIds(s, k, payload); }
    case Accepted(k, n) => if k < |s.calls| && s.calls[k].Sending? { AcceptedIds(s, k, n); }
    case WriteFails(k) => if k < |s.calls| && s.calls[k].Sending? { SameIds(s, Apply(s, step), k); }
    case Response(k) => if Awaiting(s, k) { TakeIds(s, k); }
    case AstrayResponse(k) => if Awaiting(s, k) { LeaveIds(s, k, Unknown(s.calls[k].c)); }
    case BadResponse(k) => if Awaiting(s, k) { LeaveIds(s, k, Threw); }
    case RecvRejected(k) => if Awaiting(s, k) { ReleaseIds(s, k, Threw); }
    case Timeout(k) => if Awaiting(s, k) { LeaveIds(s, k, Threw); }
    case SendRejected(k) => if k < |s.calls| && s.calls[k].Failing? { ReleaseIds(s, k, Threw); }
    case _ => SameCalls(s, Apply(s, step));
  }

  /** Everything that is known after a run. */
  ghost predicate Reached(s: Client) {
    Inv(s) && Correlated(s) && CodecLive(s) && IdsAccounted(s)
  }

  lemma {:induction false} RunReached(reconnectOpts: bool, steps: seq<Step>)
    ensures Reached(Run(reconnectOpts, steps))
    decreases |steps|
  {
    RunKeeps(reconnectOpts, steps);
    RunCorrelates(reconnectOpts, steps);
    if steps != [] {
      var init, step := steps[..|steps| - 1], steps[|steps| - 1];
      RunReached(reconnectOpts, init);
      hide Inv, Correlated, CodecLive, IdsAccounted, Apply;
      FlightKnown(Run(reconnectOpts, init));
      StepKeepsCodec(Run(reconnectOpts, init), step);
      StepKeepsIds(Run(reconnectOpts, init), step);
    }
  }

  lemma FlightKnown(s: Client)
    requires Inv(s)
    ensures SingleFlight(s)
  {
  }

  /** No id is lost and none is used twice: after every run, the ids given out are those with an outcome
      and, if a call is in flight, its own, which has none. */
  lemma NoIdIsLost(reconnectOpts: bool, steps: seq<Step>, id: nat)
    ensures var s := Run(reconnectOpts, steps);
            && (1 <= id < s.nextRequestId <==>
                  id in s.outcomes || exists k :: 0 <= k < |s.calls| && HasId(s.calls[k], id))
            && !(id in s.outcomes && exists k :: 0 <= k < |s.calls| && HasId(s.calls[k], id))
  {
    RunReached(reconnectOpts, steps);
  }

  // ---------------------------------------------------------------- which calls begin

  /** Some call is in flight. */
  ghost predicate Busy(s: Client) {
    exists k :: 0 <= k < |s.calls| && InFlight(s.calls[k])
  }

  /** Call `k` has not begun, and no other call has changed. */
  ghost predicate NotBegun(s: Client, s1: Client, k: nat) {
    && k < |s1.calls| && !InFlight(s1.calls[k])
    && s1 == s.(calls := s1.calls)
    && (forall j :: 0 <= j < |s.calls| && j != k ==> j < |s1.calls| && s1.calls[j] == s.calls[j])
  }

  /** Call `k` has taken the next id. If its request fits, its frame is begun on the client's connection,
      which still holds what was written to it before; otherwise it is about to throw. */
  ghost predicate HasBegun(s: Client, s1: Client, k: nat, payload: bytes) {
    && s.codec.Some? && s.codec.value < |s.sockets| && k < |s1.calls|
    && s1.nextRequestId == s.nextRequestId + 1 && s1.callInFlight && s1.codec == s.codec
    && s1.outcomes == s.outcomes && s1.reconnecting == s.reconnecting && s1.reconnectOpts == s.reconnectOpts
    && (forall j :: 0 <= j < |s.calls| && j != k ==> j < |s1.calls| && s1.calls[j] == s.calls[j])
    && var c, id := s.codec.value, s.nextRequestId;
       if Legal(payload) then
         && s1.calls[k] == Sending(id, c, payload, 0)
         && s1.sockets == s.sockets[c := s.sockets[c].(begun := s.sockets[c].begun + [Request(id, payload)])]
       else
         s1.calls[k] == Failing(id) && s1.sockets == s.sockets
  }

  /** What becomes of a call once it no longer waits: it begins exactly if the client is connected and
      no other call is in flight. */
  ghost predicate Decided(s: Client, s1: Client, k: nat, payload: bytes) {
    if s.codec.Some? && !Busy(s) then HasBegun(s, s1, k, payload)
    else NotBegun(s, s1, k) && s1.calls[k].Settled?
  }

  lemma EnterDecides(s: Client, k: nat, payload: bytes)
    requires SingleFlight(s) && CodecLive(s) && k < |s.calls|
    ensures Decided(s, Enter(s, k, payload), k, payload)
  {
  }

  lemma CallDecides(s: Client, payload: bytes)
    requires SingleFlight(s) && CodecLive(s) && !(s.codec.None? && s.reconnectOpts)
    ensures Decided(s, Apply(s, Call(payload)), |s.calls|, payload)
  {
    var s1, k := s.(calls := s.calls + [Settled]), |s.calls|;
    assert Busy(s1) == Busy(s) by {
      assert forall j :: 0 <= j < |s.calls| ==> s1.calls[j] == s.calls[j];
    }
    AddedFlight(s);
    hide SingleFlight, Enter;
    EnterDecides(s1, k, payload);
  }

  lemma AddedFlight(s: Client)
    requires SingleFlight(s)
    ensures SingleFlight(s.(calls := s.calls + [Settled]))
  {
    var s1 := s.(calls := s.calls + [Settled]);
    assert forall j :: 0 <= j < |s.calls| ==> s1.calls[j] == s.calls[j];
  }

  lemma RunSnoc(reconnectOpts: bool, steps: seq<Step>, step: Step)
    ensures Run(reconnectOpts, steps + [step]) == Apply(Run(reconnectOpts, steps), step)
  {
    hide Apply;
    assert (steps + [step])[..|steps|] == steps;
  }

  /** A call made after any run. It waits exactly if the client is not connected but configured to
      reconnect; otherwise it begins exactly if the client is connected and no call is in flight. */
  lemma CallBegins(reconnectOpts: bool, steps: seq<Step>, payload: bytes)
    ensures var s, s1 := Run(reconnectOpts, steps), Run(reconnectOpts, steps + [Call(payload)]);
            var k := |s.calls|;
            if s.codec.None? && s.reconnectOpts then NotBegun(s, s1, k) && s1.calls[k].Waiting?
            else Decided(s, s1, k, payload)
  {
    RunReached(reconnectOpts, steps);
    RunSnoc(reconnectOpts, steps, Call(payload));
    hide Run;
    var s := Run(reconnectOpts, steps);
    FlightKnown(s);
    if !(s.codec.None? && s.reconnectOpts) {
      CallDecides(s, payload);
    }
  }

  /** A call that waits goes on waiting exactly while the client is trying to reconnect; then it begins
      like any other call, if the client is connected and no call is in flight. */
  lemma WaitEnds(reconnectOpts: bool, steps: seq<Step>, k: nat, payload: bytes)
    requires k < |Run(reconnectOpts, steps).calls| && Run(reconnectOpts, steps).calls[k].Waiting?
    ensures var s, s1 := Run(reconnectOpts, steps), Run(reconnectOpts, steps + [Resume(k, payload)]);
            if s.codec.None? && s.reconnecting then s1 == s
            else Decided(s, s1, k, payload)
  {
    RunReached(reconnectOpts, steps);
    RunSnoc(reconnectOpts, steps, Resume(k, payload));
    hide Run;
    var s := Run(reconnectOpts, steps);
    FlightKnown(s);
    EnterDecides(s, k, payload);
  }

  // ---------------------------------------------------------------- such a call can return

  /** Call `k` is about to write on a connection that works. */
  ghost predicate AtStart(s: Client, k: nat, id: nat, c: nat, payload: bytes) {
    && Reached(s) && k < |s.calls| && s.calls[k] == Sending(id, c, payload, 0)
    && c < |s.sockets| && s.sockets[c].connected && !s.sockets[c].dead && !s.sockets[c].astray
  }

  /** Its frame has been accepted whole, and every earlier response was taken. */
  ghost predicate Asked(s: Client, k: nat, id: nat, c: nat, payload: bytes) {
    && Awaiting(s, k) && s.calls[k] == Receiving(id, c) && !s.sockets[c].astray
    && var sock := s.sockets[c];
       && sock.taken + 1 == |sock.frames| == |sock.begun| && sock.begun[sock.taken] == Request(id, payload)
  }

  lemma StartKnown(s: Client, k: nat, id: nat, c: nat, payload: bytes)
    requires AtStart(s, k, id, c, payload)
    ensures Legal(payload)
    ensures var sock := s.sockets[c];
            && sock.taken == |sock.frames| && |sock.begun| == sock.taken + 1
            && sock.begun[sock.taken] == Request(id, payload)
  {
    WriterKnown(s, k);
    OnlyReader(s, k);
    assert forall j :: 0 <= j < |s.calls| ==> !ReadsFrom(s.calls[j], c);
  }

  /** The rest of the frame is accepted. */
  lemma AcceptsLast(s: Client, k: nat)
    requires Writing(s, k) && s.sockets[s.calls[k].c].connected && !s.sockets[s.calls[k].c].dead
    requires s.calls[k].done >= 4 || s.calls[k].payload == []
    ensures Apply(s, Accepted(k, |Frame(s.calls[k].payload)| - s.calls[k].done)) == SendLast(s, k)
  {
  }

  lemma LastAsks(s: Client, k: nat)
    requires Writing(s, k)
    requires var sock, Sending(id, c, payload, _) := s.sockets[s.calls[k].c], s.calls[k];
             && !sock.astray && sock.taken == |sock.frames| && |sock.begun| == sock.taken + 1
             && sock.begun[sock.taken] == Request(id, payload)
    ensures Asked(SendLast(s, k), k, s.calls[k].id, s.calls[k].c, s.calls[k].payload)
  {
  }

  lemma AcceptsHeader(s: Client, k: nat)
    requires Writing(s, k) && s.calls[k].done == 0 && s.calls[k].payload != []
    requires !s.sockets[s.calls[k].c].dead
    ensures Apply(s, Accepted(k, 4)) == SendPart(s, k, 4)
  {
  }

  lemma HeaderSent(s: Client, k: nat)
    requires Writing(s, k) && s.calls[k].done == 0 && s.calls[k].payload != []
    ensures var s1, Sending(id, c, payload, _) := SendPart(s, k, 4), s.calls[k];
            && Writing(s1, k) && s1.calls[k] == Sending(id, c, payload, 4)
            && var a, b := s.sockets[c], s1.sockets[c];
               && b.connected == a.connected && b.dead == a.dead && b.astray == a.astray && b.taken == a.taken
               && b.frames == a.frames && b.begun == a.begun
  {
  }

  /** The socket takes the frame, in one or two pieces. */
  lemma WritesAll(reconnectOpts: bool, steps: seq<Step>, k: nat, id: nat, c: nat, payload: bytes)
    returns (writes: seq<Step>)
    requires AtStart(Run(reconnectOpts, steps), k, id, c, payload)
    ensures forall i :: 0 <= i < |writes| ==> writes[i].Accepted?
    ensures Asked(Run(reconnectOpts, steps + writes), k, id, c, payload)
  {
    var s, n := Run(reconnectOpts, steps), |payload|;
    StartKnown(s, k, id, c, payload);
    hide Run, Reached, Apply, Asked, SendPart, SendLast;
    if payload == [] {
      AcceptsLast(s, k);
      LastAsks(s, k);
      RunSnoc(reconnectOpts, steps, Accepted(k, 4));
      writes := [Accepted(k, 4)];
    } else {
      var s1 := SendPart(s, k, 4);
      AcceptsHeader(s, k);
      HeaderSent(s, k);
      RunSnoc(reconnectOpts, steps, Accepted(k, 4));
      AcceptsLast(s1, k);
      LastAsks(s1, k);
      RunSnoc(reconnectOpts, steps + [Accepted(k, 4)], Accepted(k, n));
      writes := [Accepted(k, 4), Accepted(k, n)];
      assert steps + [Accepted(k, 4)] + [Accepted(k, n)] == steps + writes;
    }
  }

  /** The call has returned the response to its own request, which carried `payload`. */
  ghost predicate ReturnedOwn(s: Client, k: nat, id: nat, c: nat, payload: bytes) {
    && k < |s.calls| && s.calls[k].Settled? && !s.callInFlight
    && id in s.outcomes && s.outcomes[id].Returned? && s.outcomes[id].c == c
    && c < |s.sockets| && s.outcomes[id].i < |s.sockets[c].begun|
    && s.sockets[c].begun[s.outcomes[id].i] == Request(id, payload)
  }

  lemma TakesOwn(s: Client, k: nat, id: nat, c: nat, payload: bytes)
    requires Asked(s, k, id, c, payload)
    ensures ReturnedOwn(Apply(s, Response(k)), k, id, c, payload)
  {
  }

  lemma Completes(reconnectOpts: bool, steps: seq<Step>, k: nat, id: nat, c: nat, payload: bytes)
    returns (more: seq<Step>)
    requires AtStart(Run(reconnectOpts, steps), k, id, c, payload)
    ensures Straight(more)
    ensures ReturnedOwn(Run(reconnectOpts, steps + more), k, id, c, payload)
  {
    hide Run, Apply, AtStart, Asked, ReturnedOwn;
    var writes := WritesAll(reconnectOpts, steps, k, id, c, payload);
    TakesOwn(Run(reconnectOpts, steps + writes), k, id, c, payload);
    RunSnoc(reconnectOpts, steps + writes, Response(k));
    more := writes + [Response(k)];
    assert steps + writes + [Response(k)] == steps + more;
  }

  lemma BegunAtStart(s: Client, s1: Client, k: nat, payload: bytes)
    requires CodecLive(s) && Reached(s1) && HasBegun(s, s1, k, payload) && Legal(payload)
    requires !s.sockets[s.codec.value].dead && !s.sockets[s.codec.value].astray
    ensures AtStart(s1, k, s.nextRequestId, s.codec.value, payload)
  {
    hide Reached;
  }

  /** From every reachable state in which the client is connected and no call is in flight, unless a
      read went astray on the connection or a write on it failed: a call whose request fits in a frame
      can return the response to that request. */
  lemma CallCanReturn(reconnectOpts: bool, steps: seq<Step>, payload: bytes) returns (more: seq<Step>)
    requires Legal(payload) && Run(reconnectOpts, steps).codec.Some? && !Busy(Run(reconnectOpts, steps))
    requires var s := Run(reconnectOpts, steps);
             s.codec.value < |s.sockets| ==> !s.sockets[s.codec.value].dead && !s.sockets[s.codec.value].astray
    ensures more != [] && more[0] == Call(payload) && Straight(more)
    ensures var s, s1 := Run(reconnectOpts, steps), Run(reconnectOpts, steps + more);
            ReturnedOwn(s1, |s.calls|, s.nextRequestId, s.codec.value, payload)
  {
    var s, calls := Run(reconnectOpts, steps), steps + [Call(payload)];
    CallBegins(reconnectOpts, steps, payload);
    RunReached(reconnectOpts, steps);
    RunReached(reconnectOpts, calls);
    hide Run, Inv, Correlated, IdsAccounted, HasBegun, Busy, ReturnedOwn;
    BegunAtStart(s, Run(reconnectOpts, calls), |s.calls|, payload);
    var rest := Completes(reconnectOpts, calls, |s.calls|, s.nextRequestId, s.codec.value, payload);
    more := [Call(payload)] + rest;
    assert calls + rest == steps + more;
  }

  /** A call that waits can still return: the client connects, and the call goes out on the new
      connection, whatever happened on those before. */
  lemma WaitingCallCanReturn(reconnectOpts: bool, steps: seq<Step>, k: nat, payload: bytes) returns (more: seq<Step>)
    requires k < |Run(reconnectOpts, steps).calls| && Run(reconnectOpts, steps).calls[k].Waiting?
    requires Legal(payload) && !Busy(Run(reconnectOpts, steps))
    ensures Straight(more)
    ensures var s, s1 := Run(reconnectOpts, steps), Run(reconnectOpts, steps + more);
            ReturnedOwn(s1, k, s.nextRequestId, |s.sockets|, payload)
  {
    var s := Run(reconnectOpts, steps);
    var up := steps + [Connected(true)];
    var calls := up + [Resume(k, payload)];
    var s1 := Run(reconnectOpts, up);
    RunSnoc(reconnectOpts, steps, Connected(true));
    NewConnection(s);
    RunReached(reconnectOpts, up);
    RunReached(reconnectOpts, calls);
    hide Run, Inv, Correlated, IdsAccounted, HasBegun, ReturnedOwn, Apply;
    WaitEnds(reconnectOpts, up, k, payload);
    BegunAtStart(s1, Run(reconnectOpts, calls), k, payload);
    var rest := Completes(reconnectOpts, calls, k, s.nextRequestId, |s.sockets|, payload);
    more := [Connected(true), Resume(k, payload)] + rest;
    assert calls + rest == steps + more;
  }

  lemma NewConnection(s: Client)
    ensures var s1 := Apply(s, Connected(true));
            && s1.codec == Some(|s.sockets|) && |s1.sockets| == |s.sockets| + 1 && s1.calls == s.calls
            && s1.nextRequestId == s.nextRequestId && !s1.sockets[|s.sockets|].dead && !s1.sockets[|s.sockets|].astray
  {
  }

  // ---------------------------------------------------------------- waiting for a reconnect

  /** The client has not connected, and its reconnect loop has not given up. */
  predicate StillTrying(later: seq<Step>) {
    forall i :: 0 <= i < |later| ==> !later[i].Connected? && !later[i].GiveUp?
  }

  predicate Reconnecting(s: Client) {
    s.codec.None? && s.reconnecting && s.reconnectOpts
  }

  lemma StepKeepsOptions(s: Client, step: Step)
    ensures Apply(s, step).reconnectOpts == s.reconnectOpts
  {
  }

  lemma {:induction false} KeepsOptions(reconnectOpts: bool, steps: seq<Step>)
    ensures Run(reconnectOpts, steps).reconnectOpts == reconnectOpts
  {
    hide Apply;
    if steps != [] {
      KeepsOptions(reconnectOpts, steps[..|steps| - 1]);
      StepKeepsOptions(Run(reconnectOpts, steps[..|steps| - 1]), steps[|steps| - 1]);
    }
  }

  lemma TriesOn(s: Client, step: Step)
    requires Reconnecting(s) && !step.Connected? && !step.GiveUp?
    ensures Reconnecting(Apply(s, step))
  {
  }

  lemma {:induction false} KeepsTrying(reconnectOpts: bool, steps: seq<Step>, later: seq<Step>)
    requires Reconnecting(Run(reconnectOpts, steps)) && StillTrying(later)
    ensures Reconnecting(Run(reconnectOpts, steps + later))
    decreases |later|
  {
    hide Run, Apply, Reconnecting;
    if later == [] {
      assert steps + later == steps;
    } else {
      var init, last := later[..|later| - 1], later[|later| - 1];
      KeepsTrying(reconnectOpts, steps, init);
      TriesOn(Run(reconnectOpts, steps + init), last);
      RunSnoc(reconnectOpts, steps + init, last);
      assert steps + init + [last] == steps + later;
    }
  }

  /** A call that waits after the loss of a connection is not refused before the reconnect loop gives up:
      from the close of a socket on, as long as the loop neither connects nor gives up, it waits. */
  lemma WaitsWhileReconnecting(steps: seq<Step>, c: nat, later: seq<Step>, k: nat, payload: bytes)
    requires c < |Run(true, steps).sockets| && StillTrying(later)
    requires var s := Run(true, steps + [Closed(c)] + later); k < |s.calls| && s.calls[k].Waiting?
    ensures var run := steps + [Closed(c)] + later;
            Run(true, run + [Resume(k, payload)]) == Run(true, run)
  {
    KeepsOptions(true, steps);
    RunSnoc(true, steps, Closed(c));
    hide Run;
    KeepsTrying(true, steps + [Closed(c)], later);
    WaitEnds(true, steps + [Closed(c)] + later, k, payload);
  }

  // ---------------------------------------------------------------- when the client is connected

  /** At step `i` a socket that the client had opened ends. */
  predicate Loses(reconnectOpts: bool, steps: seq<Step>, i: nat)
    requires i < |steps|
  {
    steps[i].Closed? && steps[i].c < |Run(reconnectOpts, steps[..i]).sockets|
  }

  /** At step `i` the client gets a connection, and keeps it. */
  predicate KeepsFrom(reconnectOpts: bool, steps: seq<Step>, i: nat)
    requires i < |steps|
  {
    steps[i].Connected? && forall j :: i < j < |steps| ==> !steps[j].Disconnect? && !Loses(reconnectOpts, steps, j)
  }

  /** At step `i` a connection is lost, and the reconnect loop has not come to an end since. */
  predicate TriesFrom(reconnectOpts: bool, steps: seq<Step>, i: nat)
    requires i < |steps|
  {
    && reconnectOpts && Loses(reconnectOpts, steps, i)
    && forall j :: i < j < |steps| ==> steps[j] != GiveUp && steps[j] != Connected(true)
  }

  /** What the last step does to the handles. */
  lemma StepHandles(s: Client, step: Step)
    ensures var s1 := Apply(s, step);
            && (s1.codec.Some? <==>
                  step.Connected?
                  || (s.codec.Some? && !step.Disconnect? && !(step.Closed? && step.c < |s.sockets|)))
            && (s1.reconnecting <==>
                  || (step.Closed? && step.c < |s.sockets| && s.reconnectOpts)
                  || (s.reconnecting && step != GiveUp && step != Connected(true)))
  {
  }

  lemma SamePrefix(reconnectOpts: bool, steps: seq<Step>, i: nat)
    requires i < |steps| - 1
    ensures Loses(reconnectOpts, steps[..|steps| - 1], i) == Loses(reconnectOpts, steps, i)
  {
    hide Run;
    assert steps[..|steps| - 1][..i] == steps[..i];
  }

  lemma KeepsLater(reconnectOpts: bool, steps: seq<Step>, i: nat)
    requires i < |steps| - 1
    ensures var n := |steps| - 1;
            KeepsFrom(reconnectOpts, steps, i) <==>
              && KeepsFrom(reconnectOpts, steps[..n], i)
              && !steps[n].Disconnect? && !Loses(reconnectOpts, steps, n)
  {
    var n := |steps| - 1;
    forall j | 0 <= j < n ensures Loses(reconnectOpts, steps[..n], j) == Loses(reconnectOpts, steps, j) {
      SamePrefix(reconnectOpts, steps, j);
    }
    hide Loses;
    assert forall j :: 0 <= j < n ==> steps[..n][j] == steps[j];
    if KeepsFrom(reconnectOpts, steps, i) {
      forall j | i < j < n ensures !steps[..n][j].Disconnect? && !Loses(reconnectOpts, steps[..n], j) {
        assert steps[j] == steps[..n][j];
      }
    }
  }

  lemma TriesLater(reconnectOpts: bool, steps: seq<Step>, i: nat)
    requires i < |steps| - 1
    ensures var n := |steps| - 1;
            TriesFrom(reconnectOpts, steps, i) <==>
              TriesFrom(reconnectOpts, steps[..n], i) && steps[n] != GiveUp && steps[n] != Connected(true)
  {
    var n := |steps| - 1;
    SamePrefix(reconnectOpts, steps, i);
    hide Loses;
    assert forall j :: 0 <= j < n ==> steps[..n][j] == steps[j];
    if TriesFrom(reconnectOpts, steps, i) {
      forall j | i < j < n ensures steps[..n][j] != GiveUp && steps[..n][j] != Connected(true) {
        assert steps[j] == steps[..n][j];
      }
    }
  }

  ghost predicate HasConnection(reconnectOpts: bool, steps: seq<Step>) {
    exists i :: 0 <= i < |steps| && KeepsFrom(reconnectOpts, steps, i)
  }

  ghost predicate IsTrying(reconnectOpts: bool, steps: seq<Step>) {
    exists i :: 0 <= i < |steps| && TriesFrom(reconnectOpts, steps, i)
  }

  lemma HasConnectionLast(reconnectOpts: bool, steps: seq<Step>)
    requires steps != []
    ensures var n := |steps| - 1;
            HasConnection(reconnectOpts, steps) <==>
              || steps[n].Connected?
              || (HasConnection(reconnectOpts, steps[..n]) && !steps[n].Disconnect? && !Loses(reconnectOpts, steps, n))
  {
    var n := |steps| - 1;
    forall i | 0 <= i < n
      ensures KeepsFrom(reconnectOpts, steps, i) <==>
                KeepsFrom(reconnectOpts, steps[..n], i) && !steps[n].Disconnect? && !Loses(reconnectOpts, steps, n)
    {
      KeepsLater(reconnectOpts, steps, i);
    }
    assert KeepsFrom(reconnectOpts, steps, n) <==> steps[n].Connected?;
    hide KeepsFrom, Loses;
  }

  lemma IsTryingLast(reconnectOpts: bool, steps: seq<Step>)
    requires steps != []
    ensures var n := |steps| - 1;
            IsTrying(reconnectOpts, steps) <==>
              || (reconnectOpts && Loses(reconnectOpts, steps, n))
              || (IsTrying(reconnectOpts, steps[..n]) && steps[n] != GiveUp && steps[n] != Connected(true))
  {
    var n := |steps| - 1;
    forall i | 0 <= i < n
      ensures TriesFrom(reconnectOpts, steps, i) <==>
                TriesFrom(reconnectOpts, steps[..n], i) && steps[n] != GiveUp && steps[n] != Connected(true)
    {
      TriesLater(reconnectOpts, steps, i);
    }
    assert TriesFrom(reconnectOpts, steps, n) <==> reconnectOpts && Loses(reconnectOpts, steps, n);
    hide TriesFrom, Loses;
  }

  /** The client has a codec exactly if it was not disconnected, and no socket has ended, since it last
      got a connection; and it is trying to reconnect exactly if a socket has ended since the reconnect
      loop last connected or gave up. */
  lemma {:induction false} ConnectedExactly(reconnectOpts: bool, steps: seq<Step>)
    ensures Run(reconnectOpts, steps).codec.Some? <==> HasConnection(reconnectOpts, steps)
    ensures Run(reconnectOpts, steps).reconnecting <==> IsTrying(reconnectOpts, steps)
  {
    if steps != [] {
      var n := |steps| - 1;
      ConnectedExactly(reconnectOpts, steps[..n]);
      KeepsOptions(reconnectOpts, steps[..n]);
      hide Apply, HasConnection, IsTrying;
      StepHandles(Run(reconnectOpts, steps[..n]), steps[n]);
      HasConnectionLast(reconnectOpts, steps);
      IsTryingLast(reconnectOpts, steps);
    }
  }

  // ---------------------------------------------------------------- every call can come to its end

  /** The call has thrown, and its id has the outcome. */
  ghost predicate HasThrown(s: Client, k: nat, id: nat) {
    && k < |s.calls| && s.calls[k].Settled? && !s.callInFlight
    && id in s.outcomes && s.outcomes[id] == Threw
  }

  lemma ThrowsOn(s: Client, k: nat)
    requires k < |s.calls| && s.calls[k].Failing?
    ensures HasThrown(Apply(s, SendRejected(k)), k, s.calls[k].id)
  {
  }

  lemma TimesOut(s: Client, k: nat)
    requires Awaiting(s, k)
    ensures var s1, s2, Receiving(id, c) := Apply(s, Timeout(k)), Apply(s, BadResponse(k)), s.calls[k];
            && HasThrown(s1, k, id) && HasThrown(s2, k, id)
            && s1.sockets == s2.sockets == s.sockets[c := s.sockets[c].(astray := true)]
  {
  }

  lemma FailsToWrite(s: Client, k: nat)
    requires k < |s.calls| && s.calls[k].Sending? && s.calls[k].c < |s.sockets|
    ensures var s1 := Apply(s, WriteFails(k)); k < |s1.calls| && s1.calls[k] == Failing(s.calls[k].id)
  {
  }

  /** The call in flight can throw: a failed write, or a timeout. */
  lemma FlightCanEnd(reconnectOpts: bool, steps: seq<Step>, k: nat) returns (more: seq<Step>)
    requires k < |Run(reconnectOpts, steps).calls| && InFlight(Run(reconnectOpts, steps).calls[k])
    ensures HasThrown(Run(reconnectOpts, steps + more), k, Run(reconnectOpts, steps).calls[k].id)
  {
    var s := Run(reconnectOpts, steps);
    RunReached(reconnectOpts, steps);
    FlightTarget(s, k);
    hide Run, Reached, Apply, HasThrown;
    if s.calls[k].Sending? {
      more := [WriteFails(k), SendRejected(k)];
      FailsToWrite(s, k);
      RunSnoc(reconnectOpts, steps, WriteFails(k));
      ThrowsOn(Run(reconnectOpts, steps + [WriteFails(k)]), k);
      RunSnoc(reconnectOpts, steps + [WriteFails(k)], SendRejected(k));
      assert steps + [WriteFails(k)] + [SendRejected(k)] == steps + more;
    } else if s.calls[k].Receiving? {
      more := [Timeout(k)];
      TimesOut(s, k);
      RunSnoc(reconnectOpts, steps, Timeout(k));
    } else {
      more := [SendRejected(k)];
      ThrowsOn(s, k);
      RunSnoc(reconnectOpts, steps, SendRejected(k));
    }
  }

  lemma OwnIsNext(s: Client, k: nat)
    requires Correlated(s) && Awaiting(s, k)
    ensures var Receiving(id, c) := s.calls[k];
            var sock := s.sockets[c];
            !sock.astray ==> sock.taken < |sock.frames| && sock.taken < |sock.begun| && sock.begun[sock.taken].id == id
  {
    assert AwaitsOwn(s, s.calls[k]);
  }

  lemma TakesNext(s: Client, k: nat)
    requires Awaiting(s, k) && !s.sockets[s.calls[k].c].astray
    requires var Receiving(id, c) := s.calls[k];
             var sock := s.sockets[c];
             sock.taken < |sock.frames| && sock.taken < |sock.begun| && sock.begun[sock.taken].id == id
    ensures var Receiving(id, c) := s.calls[k];
            ReturnedOwn(Apply(s, Response(k)), k, id, c, s.sockets[c].begun[s.sockets[c].taken].payload)
  {
  }

  lemma TakesAny(s: Client, k: nat)
    requires Awaiting(s, k) && s.sockets[s.calls[k].c].astray
    ensures var s1, Receiving(id, c) := Apply(s, AstrayResponse(k)), s.calls[k];
            && k < |s1.calls| && s1.calls[k].Settled? && !s1.callInFlight
            && id in s1.outcomes && s1.outcomes[id] == Unknown(c)
  {
  }

  lemma IsRejected(s: Client, k: nat)
    requires Awaiting(s, k) && !s.sockets[s.calls[k].c].connected
    ensures HasThrown(Apply(s, RecvRejected(k)), k, s.calls[k].id)
    ensures Apply(s, RecvRejected(k)).sockets == s.sockets
  {
  }

  /** A call that awaits its response ends in one of five ways: with the response to its own request;
      with some response, if a read went astray on its connection; or with an error, if it times out, if
      the response is bad, or if the connection has ended. A timeout and a bad response lead the
      connection astray, and nothing else does. */
  lemma AwaitingCallEnds(reconnectOpts: bool, steps: seq<Step>, k: nat)
    requires Awaiting(Run(reconnectOpts, steps), k)
    ensures var s := Run(reconnectOpts, steps);
            var c, id := s.calls[k].c, s.calls[k].id;
            var times, bad := Run(reconnectOpts, steps + [Timeout(k)]), Run(reconnectOpts, steps + [BadResponse(k)]);
            && HasThrown(times, k, id) && HasThrown(bad, k, id)
            && times.sockets == bad.sockets == s.sockets[c := s.sockets[c].(astray := true)]
    ensures var s, s1 := Run(reconnectOpts, steps), Run(reconnectOpts, steps + [Response(k)]);
            var c, id := s.calls[k].c, s.calls[k].id;
            !s.sockets[c].astray ==>
              && s.sockets[c].taken < |s.sockets[c].begun| && s.sockets[c].begun[s.sockets[c].taken].id == id
              && ReturnedOwn(s1, k, id, c, s.sockets[c].begun[s.sockets[c].taken].payload)
    ensures var s, s1 := Run(reconnectOpts, steps), Run(reconnectOpts, steps + [AstrayResponse(k)]);
            var c, id := s.calls[k].c, s.calls[k].id;
            s.sockets[c].astray ==>
              && k < |s1.calls| && s1.calls[k].Settled? && !s1.callInFlight
              && id in s1.outcomes && s1.outcomes[id] == Unknown(c)
    ensures var s, s1 := Run(reconnectOpts, steps), Run(reconnectOpts, steps + [RecvRejected(k)]);
            var c, id := s.calls[k].c, s.calls[k].id;
            !s.sockets[c].connected ==> HasThrown(s1, k, id) && s1.sockets == s.sockets
  {
    var s := Run(reconnectOpts, steps);
    RunReached(reconnectOpts, steps);
    hide Run, Apply, HasThrown, ReturnedOwn, Inv, CodecLive, IdsAccounted;
    OwnIsNext(s, k);
    TimesOut(s, k);
    if !s.sockets[s.calls[k].c].astray {
      TakesNext(s, k);
    } else {
      TakesAny(s, k);
    }
    if !s.sockets[s.calls[k].c].connected {
      IsRejected(s, k);
    }
    RunSnoc(reconnectOpts, steps, Timeout(k));
    RunSnoc(reconnectOpts, steps, BadResponse(k));
    RunSnoc(reconnectOpts, steps, Response(k));
    RunSnoc(reconnectOpts, steps, AstrayResponse(k));
    RunSnoc(reconnectOpts, steps, RecvRejected(k));
  }

  /** A call that writes to a socket: the socket takes any piece of the header, or of the payload; once it
      has ended it takes nothing, and the payload is not begun. */
  lemma SendingCallWrites(reconnectOpts: bool, steps: seq<Step>, k: nat, n: nat)
    requires Writing(Run(reconnectOpts, steps), k) && n >= 1
    ensures var s, s1 := Run(reconnectOpts, steps), Run(reconnectOpts, steps + [Accepted(k, n)]);
            var Sending(id, c, payload, done) := s.calls[k];
            var f, a := Frame(payload), s.sockets[c];
            && (a.connected && !a.dead && done + n <= (if done < 4 then 4 else |f|) ==>
                  && |s1.sockets| == |s.sockets| && s1.sockets == s.sockets[c := s1.sockets[c]]
                  && s1.sockets[c].written == a.written + f[done..done + n]
                  && s1.calls == s.calls[k := if done + n < |f| then Sending(id, c, payload, done + n)
                                              else Receiving(id, c)])
            && (!a.connected ==>
                  s1.sockets == s.sockets && (done == 4 && payload != [] ==> s1.calls == s.calls[k := Failing(id)]))
  {
    RunReached(reconnectOpts, steps);
    RunSnoc(reconnectOpts, steps, Accepted(k, n));
    hide Run;
    WriterKnown(Run(reconnectOpts, steps), k);
    hide Reached, Apply, Frame;
    WritesPiece(Run(reconnectOpts, steps), k, n);
  }

  lemma WritesPiece(s: Client, k: nat, n: nat)
    requires Writing(s, k) && n >= 1 && (!s.sockets[s.calls[k].c].connected ==> s.sockets[s.calls[k].c].dead)
    ensures var s1, Sending(id, c, payload, done) := Apply(s, Accepted(k, n)), s.calls[k];
            var f, a := Frame(payload), s.sockets[c];
            && (a.connected && !a.dead && done + n <= (if done < 4 then 4 else |f|) ==>
                  && |s1.sockets| == |s.sockets| && s1.sockets == s.sockets[c := s1.sockets[c]]
                  && s1.sockets[c].written == a.written + f[done..done + n]
                  && s1.calls == s.calls[k := if done + n < |f| then Sending(id, c, payload, done + n)
                                              else Receiving(id, c)])
            && (!a.connected ==>
                  s1.sockets == s.sockets && (done == 4 && payload != [] ==> s1.calls == s.calls[k := Failing(id)]))
  {
  }

  /** The call in flight uses a socket that is there. */
  lemma FlightTarget(s: Client, k: nat)
    requires Reached(s) && k < |s.calls|
    ensures s.calls[k].Sending? || s.calls[k].Receiving? ==> s.calls[k].c < |s.sockets|
  {
    assert WriterOk(s, s.calls[k]) && AwaitsOwn(s, s.calls[k]);
  }
}
