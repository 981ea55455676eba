/** The critical sections of the C++ server as the methods they are, on the server's own fields.

    Each method is one step of `ServerLifecycle` and keeps its invariant, so what is proved there of
    every interleaving holds of a server that runs these bodies. The positions of the threads and the
    closed and rejected connections are history. */
module ServerCode {
  import opened Bytes
  import opened Errors
  import opened S = ServerLifecycle

  /** The entry that the search stops at is the one that is erased. */
  lemma {:induction false} EraseAt(s: seq<nat>, i: nat, c: nat)
    requires i <= |s| && c !in s[..i] && (i < |s| ==> s[i] == c)
    ensures Erase(s, c) == if i < |s| then s[..i] + s[i + 1..] else s
    decreases |s|
  {
    if i > 0 {
      assert s[0] in s[..i];
      assert s[1..][..i - 1] == s[..i][1..];
      EraseAt(s[1..], i - 1, c);
    }
  }

  /** Closing the connections of a snapshot one by one is a run of `CloseNext`. */
  lemma {:induction false} ClosesAll(cfg: Config, s: State, rest: seq<nat>)
    requires Inv(cfg, s) && s.stopper == Closing(rest)
    ensures Inv(cfg, s.(closed := s.closed + (set c | c in rest), stopper := BeforeCollect))
    decreases |rest|
  {
    var s1 := Apply(cfg, s, CloseNext);
    StepKeeps(cfg, s, CloseNext);
    if rest == [] {
      assert s.closed + (set c | c in rest) == s.closed;
    } else {
      ClosesAll(cfg, s1, rest[1..]);
      assert rest == [rest[0]] + rest[1..];
      assert s.closed + (set c | c in rest) == s1.closed + (set c | c in rest[1..]);
    }
  }

  class Server {
    const cfg: Config
    var running: bool
    var activeConnections: seq<nat>
    var handlerThreads: seq<nat>
    ghost var listening: bool
    ghost var acceptor: Acceptor
    ghost var accepted: nat
    ghost var handlers: map<nat, Handler>
    ghost var closed: set<nat>
    ghost var rejected: map<nat, nat>
    ghost var stopper: Stopper

    ghost function State(): State
      reads this
    {
      S.State(running, listening, acceptor, accepted, activeConnections, handlerThreads, handlers, closed,
              rejected, stopper)
    }

    ghost predicate Valid()
      reads this
    {
      Inv(cfg, State())
    }

    constructor (cfg: Config)
      ensures this.cfg == cfg && State() == INITIAL && Valid()
    {
      this.cfg := cfg;
      running, activeConnections, handlerThreads := false, [], [];
      listening, acceptor, accepted, handlers, closed, rejected := false, NoThread, 0, map[], {}, map[];
      stopper := NotStopping;
    }

    /** `start`; `failure` is the error of creating the transport (Internal) or of `listen`, if there is
        one. It succeeds exactly when the server is not running and the transport listens, changes
        nothing when it fails, and a server that starts has nothing left of an earlier run. */
    method TryStart(failure: Option<Error>) returns (err: Option<Error>)
      requires Valid() && stopper.NotStopping?
      modifies this`running, this`listening, this`acceptor
      ensures Valid()
      ensures err == if old(running) then Some(AlreadyConnected) else failure
      ensures State() == if err.None? then Apply(cfg, old(State()), Start) else old(State())
      ensures err.None? ==> running && listening && activeConnections == []
      ensures err.None? ==> forall c :: c in handlers ==> handlers[c].Finished?
    {
      StepKeeps(cfg, State(), Start);
      if running {
        return Some(AlreadyConnected);
      }
      if failure.Some? {
        return failure;
      }
      forall c | c in handlers ensures handlers[c].Finished? {
        assert c in activeConnections <==> Alive(State(), c);
      }
      running := true;
      listening := true;
      acceptor := Testing;
      err := None;
    }

    /** `running_.exchange(false)`: among callers that overlap, the one that finds the server running
        wins, and there is at most one, because a `stop` in progress keeps it from running. */
    method ExchangeRunning() returns (won: bool)
      requires Valid()
      modifies this`running, this`stopper
      ensures Valid() && !running && !stopper.NotStopping? == (won || !old(stopper).NotStopping?)
      ensures won ==> old(stopper).NotStopping? && !old(acceptor).NoThread?
      ensures !old(stopper).NotStopping? ==> !won && stopper == old(stopper)
      ensures State() == Apply(cfg, old(State()), Stop)
    {
      StepKeeps(cfg, State(), Stop);
      won := running;
      running := false;
      if won {
        stopper := ClosingTransport;
      }
    }

    /** The first critical section of the accept loop. A connection that is not rejected still finds
        room when it is added, whatever the handlers do meanwhile. */
    method AtLimit(c: nat) returns (reject: bool)
      requires Valid() && acceptor == Checking(c)
      modifies this`acceptor, this`closed, this`rejected
      ensures Valid()
      ensures if reject then c in closed && |activeConnections| == cfg.max
              else closed == old(closed) && acceptor == Inserting(c) && |activeConnections| < cfg.max
      ensures State() == Apply(cfg, old(State()), Check)
    {
      StepKeeps(cfg, State(), Check);
      reject := |activeConnections| >= cfg.max;
      if reject {
        closed := closed + {c};
        rejected := rejected[c := |activeConnections|];
        acceptor := Testing;
      } else {
        acceptor := Inserting(c);
      }
    }

    /** The second critical section of the accept loop: within the cap, a connection that was not
        active becomes active, its handler alive and on the list of threads to be joined. */
    method AddConnection(c: nat)
      requires Valid() && acceptor == Inserting(c)
      modifies this`acceptor, this`activeConnections, this`handlerThreads, this`handlers
      ensures Valid() && |activeConnections| <= cfg.max
      ensures c !in old(activeConnections) && Alive(State(), c) && c in handlerThreads
      ensures forall d :: d in activeConnections <==> d in old(activeConnections) || d == c
      ensures State() == Apply(cfg, old(State()), Insert)
    {
      StepKeeps(cfg, State(), Insert);
      assert c in activeConnections <==> Alive(State(), c);
      activeConnections := activeConnections + [c];
      handlerThreads := handlerThreads + [c];
      handlers := handlers[c := Running];
      acceptor := Testing;
    }

    /** `find_if` and `erase`, by the handler of `c` as it ends: no entry of `c` is left, and no other
        connection is touched. */
    method RemoveConnection(c: nat)
      requires Valid() && Is(State(), c, Leaving)
      modifies this`activeConnections, this`handlers
      ensures Valid()
      ensures forall d :: d in activeConnections <==> d in old(activeConnections) && d != c
      ensures State() == Apply(cfg, old(State()), S.RemoveConnection(c))
    {
      StepKeeps(cfg, State(), S.RemoveConnection(c));
      EraseRemoves(activeConnections, c);
      EraseConnection(c);
      handlers := handlers[c := Finished];
    }

    method EraseConnection(c: nat)
      modifies this`activeConnections
      ensures activeConnections == Erase(old(activeConnections), c)
    {
      var i := 0;
      while i < |activeConnections| && activeConnections[i] != c
        invariant i <= |activeConnections|
        invariant c !in activeConnections[..i]
      {
        i := i + 1;
      }
      EraseAt(activeConnections, i, c);
      if i < |activeConnections| {
        activeConnections := activeConnections[..i] + activeConnections[i + 1..];
      }
    }

    /** `stop` copies the active connections and closes each of the copies outside the lock; with the
        accept loop joined, no handler that is alive is left with an open connection. */
    method CloseAll()
      requires Valid() && stopper.BeforeSnapshot?
      modifies this`stopper, this`closed
      ensures Valid() && stopper.BeforeCollect?
      ensures closed == old(closed) + (set c | c in old(activeConnections))
      ensures forall c :: Alive(State(), c) ==> c in closed
    {
      ghost var before := State();
      var snapshot := activeConnections;
      StepKeeps(cfg, before, TakeSnapshot);
      for i := 0 to |snapshot|
        invariant State() == before.(closed := closed)
        invariant closed == old(closed) + (set c | c in snapshot[..i])
      {
        assert snapshot[..i + 1] == snapshot[..i] + [snapshot[i]];
        closed := closed + {snapshot[i]};
      }
      assert snapshot[..|snapshot|] == snapshot;
      stopper := BeforeCollect;
      ClosesAll(cfg, Apply(cfg, before, TakeSnapshot), snapshot);
      assert forall c :: c in activeConnections <==> Alive(State(), c);
    }

    /** `stop` takes the handler threads out of the list before it joins them: every handler that is
        still alive is among them, and its connection is closed. */
    method TakeThreads() returns (threads: seq<nat>)
      requires Valid() && stopper.BeforeCollect?
      modifies this`handlerThreads, this`stopper
      ensures Valid() && stopper == Joining(threads) && handlerThreads == []
      ensures forall c :: Alive(State(), c) ==> c in threads && c in closed
      ensures State() == Apply(cfg, old(State()), CollectThreads)
    {
      StepKeeps(cfg, State(), CollectThreads);
      threads := handlerThreads;
      handlerThreads := [];
      stopper := Joining(threads);
      assert forall c :: c in activeConnections <==> Alive(State(), c);
    }
  }
}
