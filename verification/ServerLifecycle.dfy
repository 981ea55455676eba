/** The C++ server's threads: the accept loop, one handler per connection, and `stop`.

    Each step is one atomic access: a critical section of `connections_mutex_`, an access to the
    atomic `running_`, a close, or a blocking call that begins or returns. Any interleaving is a run;
    `start` and `stop` do not overlap. Connections are numbered in the order in which they are
    accepted. Whether the close of a descriptor wakes a thread that is blocked on it depends on the
    platform, and is a parameter. */
module ServerLifecycle {

  /** `max_connections`, and whether a close wakes the thread blocked on the descriptor. */
  datatype Config = Config(max: nat, wakes: bool)

  datatype Acceptor =
    | NoThread                    // not started, or joined
    | Testing                     // at `while (running_)`
    | Accepting                   // about to call accept()
    | InAccept                    // blocked in accept()
    | Checking(c: nat)            // before the first critical section
    | Inserting(c: nat)           // between the two critical sections
    | Exited

  /** In the loop; blocked in recv or send; before remove_connection; done. */
  datatype Handler = Running | Blocked | Leaving | Finished

  /** Where the `stop` call that won the exchange of `running_` stands. */
  datatype Stopper =
    | NotStopping
    | ClosingTransport
    | JoiningAccept
    | BeforeSnapshot
    | Closing(rest: seq<nat>)     // connections of the snapshot still to be closed
    | BeforeCollect
    | Joining(rest: seq<nat>)     // handler threads still to be joined

  datatype State = State(
    running: bool,
    listening: bool,              // the transport is open
    acceptor: Acceptor,
    accepted: nat,                // how many connections were ever accepted
    active: seq<nat>,             // active_connections_
    threads: seq<nat>,            // handler_threads_
    handlers: map<nat, Handler>,  // every handler thread ever spawned, by its connection
    closed: set<nat>,             // connections on which the server has called close
    rejected: map<nat, nat>,      // history: rejected connections, and how many were active then
    stopper: Stopper
  )

  const INITIAL := State(false, false, NoThread, 0, [], [], map[], {}, map[], NotStopping)

  datatype Step =
    | Start
    | Stop
    | TestRunning
    | AcceptBlocks
    | AcceptReturns               // a peer has connected
    | AcceptError                 // an error of the system, not caused by `stop`
    | AcceptRefused               // called after the transport was closed
    | AcceptWoken                 // by the close of the transport
    | Check
    | Insert
    | CallBlocks(c: nat)          // recv or send of an open connection does not return at once
    | CallReturns(c: nat)         // the peer has sent or read bytes
    | PeerEnds(c: nat)            // the loop ends for a reason of the peer: EOF, error, bad content
    | CallFails(c: nat)           // recv or send of a connection that the server has closed
    | Woken(c: nat)               // by the close of the connection
    | RemoveConnection(c: nat)
    | CloseTransport
    | JoinAcceptor
    | TakeSnapshot
    | CloseNext
    | CollectThreads
    | JoinNext
    | StopReturns

  /** `erase(find_if(...))`. */
  function Erase(s: seq<nat>, c: nat): (r: seq<nat>)
    ensures |r| <= |s|
    decreases |s|
  {
    if s == [] then [] else if s[0] == c then s[1..] else [s[0]] + Erase(s[1..], c)
  }

  predicate Is(s: State, c: nat, h: Handler) {
    c in s.handlers && s.handlers[c] == h
  }

  function SetHandler(s: State, c: nat, h: Handler): State {
    s.(handlers := s.handlers[c := h])
  }

  function AcceptorStep(cfg: Config, s: State, step: Step): State {
    match step
    case TestRunning =>
      if s.acceptor.Testing? then s.(acceptor := if s.running then Accepting else Exited) else s
    case AcceptBlocks =>
      if s.acceptor.Accepting? && s.listening then s.(acceptor := InAccept) else s
    case AcceptReturns =>
      if s.acceptor.InAccept? then s.(acceptor := Checking(s.accepted), accepted := s.accepted + 1) else s
    case AcceptError =>
      if s.acceptor.InAccept? then s.(acceptor := Exited) else s
    case AcceptRefused =>
      if s.acceptor.Accepting? && !s.listening then s.(acceptor := Exited) else s
    case AcceptWoken =>
      if s.acceptor.InAccept? && !s.listening && cfg.wakes then s.(acceptor := Exited) else s
    case Check =>
      if !s.acceptor.Checking? then s
      else if |s.active| >= cfg.max then
        var c := s.acceptor.c;
        s.(acceptor := Testing, closed := s.closed + {c}, rejected := s.rejected[c := |s.active|])
      else s.(acceptor := Inserting(s.acceptor.c))
    case Insert =>
      if !s.acceptor.Inserting? then s
      else
        var c := s.acceptor.c;
        s.(acceptor := Testing, active := s.active + [c], threads := s.threads + [c],
           handlers := s.handlers[c := Running])
    case _ => s
  }

  function HandlerStep(cfg: Config, s: State, step: Step): State {
    match step
    case CallBlocks(c) => if Is(s, c, Running) && c !in s.closed then SetHandler(s, c, Blocked) else s
    case CallReturns(c) => if Is(s, c, Blocked) then SetHandler(s, c, Running) else s
    case PeerEnds(c) => if Is(s, c, Running) || Is(s, c, Blocked) then SetHandler(s, c, Leaving) else s
    case CallFails(c) => if Is(s, c, Running) && c in s.closed then SetHandler(s, c, Leaving) else s
    case Woken(c) => if Is(s, c, Blocked) && c in s.closed && cfg.wakes then SetHandler(s, c, Leaving) else s
    case RemoveConnection(c) =>
      if Is(s, c, Leaving) then SetHandler(s, c, Finished).(active := Erase(s.active, c)) else s
    case _ => s
  }

  function StopperStep(s: State, step: Step): State {
    match step
    case Start =>
      if !s.running && s.stopper.NotStopping? then s.(running := true, listening := true, acceptor := Testing) else s
    case Stop =>
      if s.running && s.stopper.NotStopping? then s.(running := false, stopper := ClosingTransport) else s
    case CloseTransport =>
      if s.stopper.ClosingTransport? then s.(listening := false, stopper := JoiningAccept) else s
    case JoinAcceptor =>
      if s.stopper.JoiningAccept? && (s.acceptor.Exited? || s.acceptor.NoThread?)
      then s.(acceptor := NoThread, stopper := BeforeSnapshot) else s
    case TakeSnapshot =>
      if s.stopper.BeforeSnapshot? then s.(stopper := Closing(s.active)) else s
    case CloseNext =>
      if !s.stopper.Closing? then s
      else if s.stopper.rest == [] then s.(stopper := BeforeCollect)
      else s.(closed := s.closed + {s.stopper.rest[0]}, stopper := Closing(s.stopper.rest[1..]))
    case CollectThreads =>
      if s.stopper.BeforeCollect? then s.(threads := [], stopper := Joining(s.threads)) else s
    case JoinNext =>
      if s.stopper.Joining? && s.stopper.rest != [] && Is(s, s.stopper.rest[0], Finished)
      then s.(stopper := Joining(s.stopper.rest[1..])) else s
    case StopReturns =>
      if s.stopper == Joining([]) then s.(stopper := NotStopping) else s
    case _ => s
  }

  predicate OfAcceptor(step: Step) {
    || step.TestRunning? || step.AcceptBlocks? || step.AcceptReturns? || step.AcceptError?
    || step.AcceptRefused? || step.AcceptWoken? || step.Check? || step.Insert?
  }

  predicate OfHandler(step: Step) {
    || step.CallBlocks? || step.CallReturns? || step.PeerEnds? || step.CallFails? || step.Woken?
    || step.RemoveConnection?
  }

  function Apply(cfg: Config, s: State, step: Step): State {
    if OfAcceptor(step) then AcceptorStep(cfg, s, step)
    else if OfHandler(step) then HandlerStep(cfg, s, step)
    else StopperStep(s, step)
  }

  function RunFrom(cfg: Config, s: State, steps: seq<Step>): State
    decreases |steps|
  {
    if steps == [] then s else RunFrom(cfg, Apply(cfg, s, steps[0]), steps[1..])
  }

  function Run(cfg: Config, steps: seq<Step>): State {
    RunFrom(cfg, INITIAL, steps)
  }

  // ---------------------------------------------------------------- the invariant

  ghost predicate NoDuplicates(s: seq<nat>) {
    forall i, j :: 0 <= i < j < |s| ==> s[i] != s[j]
  }

  /** The handler of `c` has not removed its connection yet. */
  predicate Alive(s: State, c: nat) {
    c in s.handlers && !s.handlers[c].Finished?
  }

  /** Active connections correspond one to one to handlers that have not removed themselves. */
  ghost predicate Corresponds(s: State) {
    && NoDuplicates(s.active)
    && (forall c :: c in s.active <==> Alive(s, c))
  }

  /** The cap, and what makes it hold: between its two critical sections the accept loop is the only
      thread that could add a connection. */
  ghost predicate Capped(cfg: Config, s: State) {
    |s.active| <= cfg.max && (s.acceptor.Inserting? ==> |s.active| < cfg.max)
  }

  ghost predicate Numbered(s: State) {
    && (forall c :: c in s.handlers ==> c < s.accepted)
    && (s.acceptor.Checking? || s.acceptor.Inserting? ==> s.acceptor.c < s.accepted && s.acceptor.c !in s.handlers)
  }

  /** The acceptor still has to decide about connection `c`. */
  predicate InHand(s: State, c: nat) {
    (s.acceptor.Checking? || s.acceptor.Inserting?) && s.acceptor.c == c
  }

  /** Every connection ever accepted has a handler, or was rejected at the cap and closed, or is about
      to get one of the two. */
  ghost predicate Accounted(cfg: Config, s: State) {
    && (forall c :: 0 <= c < s.accepted ==> c in s.handlers || c in s.rejected || InHand(s, c))
    && (forall c :: c in s.rejected ==> c in s.closed && s.rejected[c] == cfg.max)
  }

  /** Every handler that may still run is in the list that `stop` will join. */
  ghost predicate Joinable(s: State) {
    forall c :: Alive(s, c) ==> c in (if s.stopper.Joining? then s.stopper.rest else s.threads)
  }

  ghost predicate Phases(s: State) {
    && (s.running ==> s.stopper.NotStopping? && s.listening && !s.acceptor.NoThread?)
    && (!s.running && s.stopper.NotStopping? ==> s.acceptor.NoThread? && s.active == [])
    && (!s.stopper.NotStopping? && !s.stopper.ClosingTransport? ==> !s.listening)
    && (!s.stopper.NotStopping? && !s.stopper.ClosingTransport? && !s.stopper.JoiningAccept? ==>
          s.acceptor.NoThread?)
    && (forall c :: c in s.threads ==> c in s.handlers)
    && (s.stopper.Joining? ==> s.threads == [] && forall c :: c in s.stopper.rest ==> c in s.handlers)
  }

  /** From the snapshot on, an active connection is closed or about to be. */
  ghost predicate Unblocked(s: State) {
    && (s.stopper.Closing? ==> forall c :: c in s.active ==> c in s.closed || c in s.stopper.rest)
    && (s.stopper.BeforeCollect? || s.stopper.Joining? ==> forall c :: c in s.active ==> c in s.closed)
  }

  ghost predicate Inv(cfg: Config, s: State) {
    && Corresponds(s) && Capped(cfg, s) && Numbered(s) && Accounted(cfg, s)
    && Joinable(s) && Phases(s) && Unblocked(s)
  }

  lemma {:induction false} EraseRemoves(s: seq<nat>, c: nat)
    requires NoDuplicates(s)
    ensures NoDuplicates(Erase(s, c))
    ensures forall d :: d in Erase(s, c) <==> d in s && d != c
    decreases |s|
  {
    if s != [] {
      var tail := s[1..];
      assert forall d :: d in s <==> d == s[0] || d in tail;
      forall j | 0 <= j < |tail| ensures tail[j] != s[0] {
        assert tail[j] == s[j + 1];
      }
      if s[0] != c {
        EraseRemoves(tail, c);
        var e := Erase(tail, c);
        forall j | 0 <= j < |e| ensures e[j] != s[0] {
          assert e[j] in e;
        }
      }
    }
  }

  lemma InsertKeeps(cfg: Config, s: State)
    requires Inv(cfg, s) && s.acceptor.Inserting?
    ensures Inv(cfg, Apply(cfg, s, Insert))
  {
    var c, s1 := s.acceptor.c, Apply(cfg, s, Insert);
    assert c !in s.active;
    forall d ensures d in s1.active <==> Alive(s1, d) {
      assert d in s1.active <==> d in s.active || d == c;
      assert d in s.active <==> Alive(s, d);
    }
    forall d | Alive(s1, d) ensures d in s1.threads {
      assert d == c || Alive(s, d);
    }
  }

  lemma RemoveKeeps(cfg: Config, s: State, c: nat)
    requires Inv(cfg, s) && Is(s, c, Leaving)
    ensures Inv(cfg, Apply(cfg, s, RemoveConnection(c)))
  {
    var s1 := Apply(cfg, s, RemoveConnection(c));
    EraseRemoves(s.active, c);
    forall d ensures Alive(s1, d) <==> Alive(s, d) && d != c {
    }
  }

  /** A handler that stays alive moves on. */
  lemma HandlerMoves(cfg: Config, s: State, c: nat, h: Handler)
    requires Inv(cfg, s) && Alive(s, c) && !h.Finished?
    ensures Inv(cfg, SetHandler(s, c, h))
  {
    var s1 := SetHandler(s, c, h);
    forall d ensures Alive(s1, d) <==> Alive(s, d) {
    }
  }

  lemma HandlerStepKeeps(cfg: Config, s: State, step: Step)
    requires Inv(cfg, s) && OfHandler(step)
    ensures Inv(cfg, HandlerStep(cfg, s, step))
  {
    match step
    case RemoveConnection(c) => if Is(s, c, Leaving) { RemoveKeeps(cfg, s, c); }
    case CallBlocks(c) => if Is(s, c, Running) { HandlerMoves(cfg, s, c, Blocked); }
    case CallReturns(c) => if Is(s, c, Blocked) { HandlerMoves(cfg, s, c, Running); }
    case PeerEnds(c) => if Alive(s, c) { HandlerMoves(cfg, s, c, Leaving); }
    case CallFails(c) => if Alive(s, c) { HandlerMoves(cfg, s, c, Leaving); }
    case Woken(c) => if Alive(s, c) { HandlerMoves(cfg, s, c, Leaving); }
  }

  lemma AcceptorStepKeeps(cfg: Config, s: State, step: Step)
    requires Inv(cfg, s) && OfAcceptor(step)
    ensures Inv(cfg, AcceptorStep(cfg, s, step))
  {
    if step.Insert? && s.acceptor.Inserting? {
      InsertKeeps(cfg, s);
    } else {
      var s1 := AcceptorStep(cfg, s, step);
      assert forall d :: Alive(s1, d) <==> Alive(s, d);
    }
  }

  lemma SameAlive(s: State, s1: State)
    requires s1.handlers == s.handlers
    ensures forall d :: Alive(s1, d) <==> Alive(s, d)
  {
  }

  lemma CloseNextKeeps(cfg: Config, s: State)
    requires Inv(cfg, s) && s.stopper.Closing?
    ensures Inv(cfg, StopperStep(s, CloseNext))
  {
    SameAlive(s, StopperStep(s, CloseNext));
    if s.stopper.rest != [] {
      assert forall c :: c in s.stopper.rest ==> c == s.stopper.rest[0] || c in s.stopper.rest[1..];
    }
  }

  lemma JoinNextKeeps(cfg: Config, s: State)
    requires Inv(cfg, s) && s.stopper.Joining? && s.stopper.rest != [] && Is(s, s.stopper.rest[0], Finished)
    ensures Inv(cfg, StopperStep(s, JoinNext))
  {
    SameAlive(s, StopperStep(s, JoinNext));
    assert forall c :: c in s.stopper.rest ==> c == s.stopper.rest[0] || c in s.stopper.rest[1..];
  }

  lemma SomeElement(s: seq<nat>)
    ensures s == [] || exists c :: c in s
  {
    if s != [] {
      assert s[0] in s;
    }
  }

  lemma StopReturnsKeeps(cfg: Config, s: State)
    requires Inv(cfg, s) && s.stopper == Joining([])
    ensures Inv(cfg, StopperStep(s, StopReturns))
  {
    SameAlive(s, StopperStep(s, StopReturns));
    SomeElement(s.active);
    assert forall c :: c in s.active <==> Alive(s, c);
  }

  lemma StopperStepKeeps(cfg: Config, s: State, step: Step)
    requires Inv(cfg, s) && !OfAcceptor(step) && !OfHandler(step)
    ensures Inv(cfg, StopperStep(s, step))
  {
    if step.CloseNext? {
      if s.stopper.Closing? { CloseNextKeeps(cfg, s); }
    } else if step.JoinNext? {
      if s.stopper.Joining? && s.stopper.rest != [] && Is(s, s.stopper.rest[0], Finished) { JoinNextKeeps(cfg, s); }
    } else if step.StopReturns? {
      if s.stopper == Joining([]) { StopReturnsKeeps(cfg, s); }
    } else {
      SameAlive(s, StopperStep(s, step));
    }
  }

  lemma StepKeeps(cfg: Config, s: State, step: Step)
    requires Inv(cfg, s)
    ensures Inv(cfg, Apply(cfg, s, step))
  {
    if OfAcceptor(step) {
      AcceptorStepKeeps(cfg, s, step);
    } else if OfHandler(step) {
      HandlerStepKeeps(cfg, s, step);
    } else {
      StopperStepKeeps(cfg, s, step);
    }
  }

  lemma {:induction false} RunKeeps(cfg: Config, s: State, steps: seq<Step>)
    requires Inv(cfg, s)
    ensures Inv(cfg, RunFrom(cfg, s, steps))
    decreases |steps|
  {
    if steps != [] {
      StepKeeps(cfg, s, steps[0]);
      RunKeeps(cfg, Apply(cfg, s, steps[0]), steps[1..]);
    }
  }

  lemma Reachable(cfg: Config, steps: seq<Step>)
    ensures Inv(cfg, Run(cfg, steps))
  {
    RunKeeps(cfg, INITIAL, steps);
  }

  // ---------------------------------------------------------------- safety

  /** The connection cap holds in every interleaving, although the check and the insertion are
      separate critical sections. */
  lemma ConnectionCap(cfg: Config, steps: seq<Step>)
    ensures |Run(cfg, steps).active| <= cfg.max
  {
    Reachable(cfg, steps);
  }

  /** A connection is active exactly as long as its handler has not removed it, and is listed once. */
  lemma ActiveIsAlive(cfg: Config, steps: seq<Step>, c: nat)
    ensures c in Run(cfg, steps).active <==> Alive(Run(cfg, steps), c)
    ensures NoDuplicates(Run(cfg, steps).active)
  {
    Reachable(cfg, steps);
  }

  /** No connection is dropped: each one accepted is served, or was closed at a moment when exactly
      `max` connections were active. */
  lemma ServedOrRejected(cfg: Config, steps: seq<Step>, c: nat)
    requires c < Run(cfg, steps).accepted && !InHand(Run(cfg, steps), c)
    ensures var s := Run(cfg, steps);
            c in s.handlers || (c in s.rejected && s.rejected[c] == cfg.max && c in s.closed)
  {
    Reachable(cfg, steps);
  }

  /** The snapshot misses nothing: once `stop` has taken it, every connection still active is closed
      or waits in the snapshot to be closed, and no connection can be added. */
  lemma SnapshotComplete(cfg: Config, steps: seq<Step>, next: Step)
    ensures var s := Run(cfg, steps);
            && (s.stopper.Closing? ==> forall c :: c in s.active ==> c in s.closed || c in s.stopper.rest)
            && (s.stopper.BeforeCollect? || s.stopper.Joining? ==> forall c :: c in s.active ==> c in s.closed)
            && (!s.stopper.NotStopping? && !s.stopper.ClosingTransport? && !s.stopper.JoiningAccept? ==>
                  forall c :: c in Apply(cfg, s, next).active ==> c in s.active)
  {
    var s := Run(cfg, steps);
    Reachable(cfg, steps);
    if next.RemoveConnection? {
      EraseRemoves(s.active, next.c);
    }
  }

  /** Shutdown drains: when the winning `stop` has returned, and until the next `start`, no handler
      runs, no connection is active and the accept loop is gone. */
  lemma StoppedIsDrained(cfg: Config, steps: seq<Step>)
    ensures var s := Run(cfg, steps);
            !s.running && s.stopper.NotStopping? ==>
              && s.active == [] && s.acceptor.NoThread?
              && (forall c :: c in s.handlers ==> s.handlers[c].Finished?)
  {
    var s := Run(cfg, steps);
    Reachable(cfg, steps);
    if !s.running && s.stopper.NotStopping? {
      forall c | c in s.handlers ensures s.handlers[c].Finished? {
        assert c in s.active <==> Alive(s, c);
      }
    }
  }
}
