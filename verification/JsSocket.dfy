/** The TypeScript connection: an event-driven buffer with a queue of pending reads.

    `Socket` is the abstract state; the class is the code, each method proved against the function
    of the same name on `Socket`. A promise is a ticket, and settling it is an entry of `settled`,
    so the order of `settled` is the order in which promises are resolved or rejected. */
module JsSocket {
  import opened Bytes

  datatype Code = ENOTCONN | ECONNRESET | EOther(errno: nat)

  datatype Waiter = Waiter(need: nat, ticket: nat)

  datatype Outcome = Resolved(data: bytes) | Rejected(code: Code)

  datatype Settlement = Settlement(ticket: nat, outcome: Outcome)

  datatype Socket = Socket(
    buffer: bytes,
    connected: bool,
    waiters: seq<Waiter>,
    settled: seq<Settlement>,
    asked: seq<nat>              // asked[t]: the length the read with ticket t asked for
  )

  const FRESH := Socket([], true, [], [], [])

  // ---------------------------------------------------------------- the abstract operations

  /** Resolve pending reads from the front for as long as the buffer suffices. */
  function Drain(s: Socket): Socket
    decreases |s.waiters|
  {
    if s.waiters == [] || |s.buffer| < s.waiters[0].need then s else Drain(ServeHead(s))
  }

  function ServeHead(s: Socket): Socket
    requires s.waiters != [] && s.waiters[0].need <= |s.buffer|
  {
    var w := s.waiters[0];
    s.(buffer := s.buffer[w.need..], waiters := s.waiters[1..],
       settled := s.settled + [Settlement(w.ticket, Resolved(s.buffer[..w.need]))])
  }

  function Data(s: Socket, chunk: bytes): Socket {
    Drain(s.(buffer := s.buffer + chunk))
  }

  function Rejections(waiters: seq<Waiter>, code: Code): (r: seq<Settlement>)
    ensures |r| == |waiters|
    ensures forall i :: 0 <= i < |r| ==> r[i] == Settlement(waiters[i].ticket, Rejected(code))
  {
    seq(|waiters|, i requires 0 <= i < |waiters| => Settlement(waiters[i].ticket, Rejected(code)))
  }

  /** The 'close' and 'error' events: every pending read is rejected; buffered bytes stay. */
  function Ended(s: Socket, code: Code): Socket {
    s.(connected := false, waiters := [], settled := s.settled + Rejections(s.waiters, code))
  }

  function Recv(s: Socket, length: nat): Socket {
    var t := |s.asked|;
    var s1 := s.(asked := s.asked + [length]);
    if length <= |s.buffer| then
      s1.(buffer := s.buffer[length..], settled := s.settled + [Settlement(t, Resolved(s.buffer[..length]))])
    else if !s.connected then
      s1.(settled := s.settled + [Settlement(t, Rejected(ECONNRESET))])
    else
      s1.(waiters := s.waiters + [Waiter(length, t)])
  }

  function Closed(s: Socket): Socket {
    s.(connected := false)
  }

  // ---------------------------------------------------------------- what every operation keeps

  /** Every byte handed to a reader, in the order in which the reads were resolved. */
  function Delivered(settled: seq<Settlement>): bytes {
    if settled == [] then []
    else
      var o := settled[|settled| - 1].outcome;
      Delivered(settled[..|settled| - 1]) + (if o.Resolved? then o.data else [])
  }

  function Tickets(s: Socket): (t: seq<nat>)
    ensures |t| == |s.settled| + |s.waiters|
  {
    seq(|s.settled|, i requires 0 <= i < |s.settled| => s.settled[i].ticket)
    + seq(|s.waiters|, i requires 0 <= i < |s.waiters| => s.waiters[i].ticket)
  }

  /** Tickets are handed out once: each read is either still pending or settled exactly once. */
  ghost predicate EachReadOnce(s: Socket) {
    |Tickets(s)| == |s.asked| && Enumerates(Tickets(s))
  }

  /** `t` lists each of the numbers below its length once, in some order. */
  ghost predicate Enumerates(t: seq<nat>) {
    && (forall i :: 0 <= i < |t| ==> t[i] < |t|)
    && (forall i, j :: 0 <= i < j < |t| ==> t[i] != t[j])
  }

  ghost predicate Lengths(s: Socket) {
    && (forall w :: w in s.waiters ==> w.ticket < |s.asked| && w.need == s.asked[w.ticket])
    && (forall r :: r in s.settled && r.outcome.Resolved? ==>
          r.ticket < |s.asked| && |r.outcome.data| == s.asked[r.ticket])
  }

  ghost predicate HeadWants(s: Socket) {
    s.waiters != [] ==> s.waiters[0].need > |s.buffer|
  }

  /** Between events, when `arrived` has come in: bytes are conserved, every read is pending or settled
      once, with the length it asked for, and a pending head read wants more than the buffer holds. */
  ghost predicate Kept(s: Socket, arrived: bytes) {
    Delivered(s.settled) + s.buffer == arrived && EachReadOnce(s) && Lengths(s) && HeadWants(s)
  }

  ghost function Undelivered(s: Socket, arrived: bytes): bytes
    requires Kept(s, arrived)
  {
    arrived[|Delivered(s.settled)|..]
  }

  /** How a read of `length` bytes is answered when `unread` is what no read was given yet. */
  ghost predicate Answered(s: Socket, s1: Socket, unread: bytes, length: nat) {
    if length <= |unread| then
      s1.settled == s.settled + [Settlement(|s.asked|, Resolved(unread[..length]))] && s1.waiters == s.waiters
    else if !s.connected then
      s1.settled == s.settled + [Settlement(|s.asked|, Rejected(ECONNRESET))] && s1.waiters == s.waiters
    else
      s1.settled == s.settled && s1.waiters == s.waiters + [Waiter(length, |s.asked|)]
  }

  lemma DeliveredAppend(settled: seq<Settlement>, r: Settlement)
    ensures Delivered(settled + [r]) == Delivered(settled) + (if r.outcome.Resolved? then r.outcome.data else [])
  {
    assert (settled + [r])[..|settled|] == settled;
  }

  lemma {:induction false} DeliveredRejections(settled: seq<Settlement>, waiters: seq<Waiter>, code: Code)
    ensures Delivered(settled + Rejections(waiters, code)) == Delivered(settled)
  {
    var r := Rejections(waiters, code);
    if waiters == [] {
      assert settled + r == settled;
    } else {
      var n := |waiters| - 1;
      DeliveredRejections(settled, waiters[..n], code);
      assert Rejections(waiters[..n], code) == r[..n];
      assert settled + r == (settled + r[..n]) + [r[n]];
      DeliveredAppend(settled + r[..n], r[n]);
    }
  }

  /** Handing the first `n` bytes of the buffer to a reader conserves bytes. */
  lemma SpliceConserves(settled: seq<Settlement>, buffer: bytes, ticket: nat, n: nat)
    requires n <= |buffer|
    ensures Delivered(settled + [Settlement(ticket, Resolved(buffer[..n]))]) + buffer[n..]
         == Delivered(settled) + buffer
  {
    DeliveredAppend(settled, Settlement(ticket, Resolved(buffer[..n])));
    assert buffer == buffer[..n] + buffer[n..];
    Associative(Delivered(settled), buffer[..n], buffer[n..]);
  }

  lemma {:induction false} DrainConserves(s: Socket)
    ensures Delivered(Drain(s).settled) + Drain(s).buffer == Delivered(s.settled) + s.buffer
    ensures HeadWants(Drain(s))
    decreases |s.waiters|
  {
    if s.waiters != [] && |s.buffer| >= s.waiters[0].need {
      SpliceConserves(s.settled, s.buffer, s.waiters[0].ticket, s.waiters[0].need);
      DrainConserves(ServeHead(s));
    }
  }

  lemma {:induction false} DrainKeepsReads(s: Socket)
    ensures Tickets(Drain(s)) == Tickets(s) && Drain(s).asked == s.asked && Drain(s).connected == s.connected
    decreases |s.waiters|
  {
    if s.waiters != [] && |s.buffer| >= s.waiters[0].need {
      assert Tickets(ServeHead(s)) == Tickets(s);
      DrainKeepsReads(ServeHead(s));
    }
  }

  lemma {:induction false} DrainKeepsLengths(s: Socket)
    requires Lengths(s)
    ensures Lengths(Drain(s))
    decreases |s.waiters|
  {
    if s.waiters != [] && |s.buffer| >= s.waiters[0].need {
      assert s.waiters[0] in s.waiters;
      DrainKeepsLengths(ServeHead(s));
    }
  }

  lemma DataKeeps(s: Socket, chunk: bytes)
    requires EachReadOnce(s) && Lengths(s)
    ensures var s1 := Data(s, chunk);
            && Delivered(s1.settled) + s1.buffer == Delivered(s.settled) + s.buffer + chunk
            && EachReadOnce(s1) && Lengths(s1) && HeadWants(s1)
  {
    var mid := s.(buffer := s.buffer + chunk);
    DrainConserves(mid);
    DrainKeepsReads(mid);
    DrainKeepsLengths(mid);
    assert Tickets(mid) == Tickets(s);
    assert Delivered(s.settled) + (s.buffer + chunk) == Delivered(s.settled) + s.buffer + chunk;
  }

  lemma EndedTickets(s: Socket, code: Code)
    ensures Tickets(Ended(s, code)) == Tickets(s)
  {
    var t, t1 := Tickets(s), Tickets(Ended(s, code));
    forall i | 0 <= i < |t| ensures t1[i] == t[i] {
    }
  }

  lemma EndedLengths(s: Socket, code: Code)
    requires Lengths(s)
    ensures Lengths(Ended(s, code))
  {
    forall r | r in Ended(s, code).settled && r.outcome.Resolved? ensures r in s.settled {
    }
  }

  lemma EndedKeeps(s: Socket, code: Code)
    requires EachReadOnce(s) && Lengths(s)
    ensures var s1 := Ended(s, code);
            && Delivered(s1.settled) + s1.buffer == Delivered(s.settled) + s.buffer
            && EachReadOnce(s1) && Lengths(s1) && HeadWants(s1)
  {
    DeliveredRejections(s.settled, s.waiters, code);
    EndedTickets(s, code);
    EndedLengths(s, code);
  }

  lemma RecvConserves(s: Socket, length: nat)
    ensures Delivered(Recv(s, length).settled) + Recv(s, length).buffer == Delivered(s.settled) + s.buffer
    ensures HeadWants(s) ==> HeadWants(Recv(s, length))
  {
    if length <= |s.buffer| {
      SpliceConserves(s.settled, s.buffer, |s.asked|, length);
    } else if !s.connected {
      DeliveredAppend(s.settled, Settlement(|s.asked|, Rejected(ECONNRESET)));
    }
  }

  lemma InsertNew(t: seq<nat>, k: nat, t1: seq<nat>)
    requires k <= |t| && t1 == t[..k] + [|t|] + t[k..]
    requires Enumerates(t)
    ensures Enumerates(t1)
  {
    forall i | 0 <= i < |t1|
      ensures t1[i] == if i < k then t[i] else if i == k then |t| else t[i - 1]
    {
    }
  }

  lemma RecvKeepsReads(s: Socket, length: nat)
    requires EachReadOnce(s)
    ensures EachReadOnce(Recv(s, length))
  {
    var s1 := Recv(s, length);
    var t, t1, k := Tickets(s), Tickets(s1), |s.settled|;
    if |s1.settled| > k {
      InsertNew(t, k, t1);
    } else {
      InsertNew(t, |t|, t1);
    }
  }

  lemma RecvKeepsLengths(s: Socket, length: nat)
    requires Lengths(s)
    ensures Lengths(Recv(s, length))
  {
    var s1 := Recv(s, length);
    forall w | w in s1.waiters ensures w.ticket < |s1.asked| && w.need == s1.asked[w.ticket] {
      assert w in s.waiters || w == Waiter(length, |s.asked|);
    }
    forall r | r in s1.settled && r.outcome.Resolved?
      ensures r.ticket < |s1.asked| && |r.outcome.data| == s1.asked[r.ticket]
    {
      assert r in s.settled || r.ticket == |s.asked|;
    }
  }

  /** Every read that waited is settled, in the order in which the reads were issued, with the code. */
  ghost predicate RejectsAll(s: Socket, s1: Socket, code: Code) {
    && |s1.settled| == |s.settled| + |s.waiters| && s1.settled[..|s.settled|] == s.settled
    && forall i :: 0 <= i < |s.waiters| ==>
         s1.settled[|s.settled| + i] == Settlement(s.waiters[i].ticket, Rejected(code))
  }

  lemma DataKept(s: Socket, arrived: bytes, chunk: bytes)
    requires Kept(s, arrived)
    ensures Kept(Data(s, chunk), arrived + chunk)
  {
    DataKeeps(s, chunk);
  }

  lemma EndedKept(s: Socket, arrived: bytes, code: Code)
    requires Kept(s, arrived)
    ensures Kept(Ended(s, code), arrived)
    ensures Undelivered(Ended(s, code), arrived) == Undelivered(s, arrived)
    ensures RejectsAll(s, Ended(s, code), code)
  {
    EndedKeeps(s, code);
    DeliveredRejections(s.settled, s.waiters, code);
    EndedRejects(s, code);
    hide RejectsAll, EachReadOnce, Lengths, HeadWants, Delivered;
  }

  lemma EndedRejects(s: Socket, code: Code)
    ensures RejectsAll(s, Ended(s, code), code)
  {
  }

  lemma RecvKept(s: Socket, arrived: bytes, length: nat)
    requires Kept(s, arrived)
    ensures Kept(Recv(s, length), arrived)
    ensures Answered(s, Recv(s, length), Undelivered(s, arrived), length)
  {
    RecvConserves(s, length);
    RecvKeepsReads(s, length);
    RecvKeepsLengths(s, length);
    assert Undelivered(s, arrived) == s.buffer;
  }

  lemma ClosedKept(s: Socket, arrived: bytes)
    requires Kept(s, arrived)
    ensures Kept(Closed(s), arrived)
  {
    assert Tickets(Closed(s)) == Tickets(s);
  }

  // ---------------------------------------------------------------- the code

  class UnixSocketConnection {
    var buffer: bytes
    var connected: bool
    var waiters: seq<Waiter>
    var settled: seq<Settlement>
    var asked: seq<nat>
    ghost var arrived: bytes             // history: every byte the socket has delivered

    function State(): Socket
      reads this
    {
      Socket(buffer, connected, waiters, settled, asked)
    }

    /** Between events: see `Kept`. */
    ghost predicate Valid()
      reads this
    {
      Kept(State(), arrived)
    }

    /** The bytes that have arrived and that no read was resolved with. */
    ghost function Unread(): bytes
      requires Valid()
      reads this
    {
      Undelivered(State(), arrived)
    }

    constructor ()
      ensures State() == FRESH && arrived == [] && Valid()
    {
      buffer, connected, waiters, settled, asked, arrived := [], true, [], [], [], [];
    }

    method Splice(n: nat) returns (out: bytes)
      requires n <= |buffer|
      modifies this`buffer
      ensures out == old(buffer)[..n] && buffer == old(buffer)[n..]
    {
      out := buffer[..n];
      buffer := buffer[n..];
    }

    method DrainWaiters()
      modifies this`buffer, this`waiters, this`settled
      ensures State() == Drain(old(State()))
    {
      while waiters != []
        invariant Drain(State()) == Drain(old(State()))
        decreases |waiters|
      {
        var w := waiters[0];
        if |buffer| < w.need { break; }
        ghost var s := State();
        waiters := waiters[1..];
        var out := Splice(w.need);
        assert out == s.buffer[..w.need] && buffer == s.buffer[w.need..];
        settled := settled + [Settlement(w.ticket, Resolved(out))];
      }
    }

    method OnData(chunk: bytes)
      requires Valid()
      modifies this`buffer, this`waiters, this`settled, this`arrived
      ensures Valid() && arrived == old(arrived) + chunk
      ensures State() == Data(old(State()), chunk)
    {
      DataKept(State(), arrived, chunk);
      buffer := buffer + chunk;
      arrived := arrived + chunk;
      DrainWaiters();
    }

    method RejectAll(code: Code)
      modifies this`waiters, this`settled
      ensures waiters == [] && settled == old(settled) + Rejections(old(waiters), code)
    {
      var all := Rejections(waiters, code);
      for i := 0 to |waiters|
        invariant waiters == old(waiters)
        invariant settled == old(settled) + all[..i]
      {
        settled := settled + [Settlement(waiters[i].ticket, Rejected(code))];
        assert all[..i + 1] == all[..i] + [all[i]];
      }
      assert all[..|waiters|] == all;
      waiters := [];
    }

    /** The handler of 'close' (code ECONNRESET) and of 'error' (the code of the error): every pending
        read is rejected, and no byte is lost that a later read could still take. */
    method OnEnd(code: Code)
      requires Valid()
      modifies this`connected, this`waiters, this`settled
      ensures Valid() && waiters == [] && Unread() == old(Unread())
      ensures RejectsAll(old(State()), State(), code)
      ensures State() == Ended(old(State()), code)
    {
      ghost var s := State();
      connected := false;
      RejectAll(code);
      assert State() == Ended(s, code);
      EndedKept(s, arrived, code);
    }

    /** A read is resolved at once, with the next bytes of the stream that no earlier read was given,
        exactly when enough of them are there; otherwise it is rejected on a dead connection, also
        after bytes were left over, and waits its turn on a live one. */
    method Receive(length: nat) returns (ticket: nat)
      requires Valid()
      modifies this`buffer, this`waiters, this`settled, this`asked
      ensures Valid() && ticket == |old(asked)|
      ensures Answered(old(State()), State(), old(Unread()), length)
      ensures State() == Recv(old(State()), length)
    {
      ghost var s := State();
      ticket := |asked|;
      asked := asked + [length];
      if |buffer| >= length {
        var out := Splice(length);
        settled := settled + [Settlement(ticket, Resolved(out))];
      } else if !connected {
        settled := settled + [Settlement(ticket, Rejected(ECONNRESET))];
      } else {
        waiters := waiters + [Waiter(length, ticket)];
      }
      assert State() == Recv(s, length);
      RecvKept(s, arrived, length);
    }

    method Close()
      requires Valid()
      modifies this`connected
      ensures Valid() && State() == Closed(old(State()))
    {
      ClosedKept(State(), arrived);
      connected := false;
    }
  }

  // ---------------------------------------------------------------- every run

  datatype Event =
    | DataEvent(chunk: bytes)
    | EndEvent(code: Code)
    | RecvCall(length: nat)
    | CloseCall

  function Apply(s: Socket, e: Event): Socket {
    match e
    case DataEvent(chunk) => Data(s, chunk)
    case EndEvent(code) => Ended(s, code)
    case RecvCall(length) => Recv(s, length)
    case CloseCall => Closed(s)
  }

  function Run(events: seq<Event>): Socket {
    if events == [] then FRESH else Apply(Run(events[..|events| - 1]), events[|events| - 1])
  }

  /** Every byte that arrived during the run. */
  function Arrived(events: seq<Event>): bytes {
    if events == [] then []
    else
      var e := events[|events| - 1];
      Arrived(events[..|events| - 1]) + (if e.DataEvent? then e.chunk else [])
  }

  lemma FreshKept()
    ensures Kept(FRESH, [])
  {
  }

  /** Byte conservation, for any number of readers and any order of events: the bytes resolved, in
      resolution order, followed by the buffer, are the bytes that arrived; each read is settled at
      most once and with exactly the length it asked for; and a pending head read always wants more
      than the buffer holds. */
  lemma {:induction false} RunConserves(events: seq<Event>)
    ensures Kept(Run(events), Arrived(events))
  {
    hide Kept, Data, Ended, Recv, Undelivered, Answered, RejectsAll;
    if events == [] {
      FreshKept();
    } else {
      var prev, e := Run(events[..|events| - 1]), events[|events| - 1];
      RunConserves(events[..|events| - 1]);
      var arrived := Arrived(events[..|events| - 1]);
      assert arrived + [] == arrived;
      match e
      case DataEvent(chunk) => DataKept(prev, arrived, chunk);
      case EndEvent(code) => EndedKept(prev, arrived, code);
      case RecvCall(length) => RecvKept(prev, arrived, length);
      case CloseCall => ClosedKept(prev, arrived);
    }
  }

  lemma NoneLeft(s: Socket, e: Event)
    requires EachReadOnce(s) && HeadWants(s)
    requires e.EndEvent? || (s.waiters == [] && !s.connected)
    ensures Apply(s, e).waiters == [] && !Apply(s, e).connected
  {
  }

  /** No read hangs: once the socket has closed or failed, every read that was or will be issued is
      settled, for reads issued later too. */
  lemma {:induction false} NoReadHangs(events: seq<Event>)
    requires exists i :: 0 <= i < |events| && events[i].EndEvent?
    ensures Run(events).waiters == [] && !Run(events).connected
    ensures |Run(events).settled| == |Run(events).asked|
  {
    var init, e := events[..|events| - 1], events[|events| - 1];
    RunConserves(init);
    RunConserves(events);
    if !e.EndEvent? {
      var i :| 0 <= i < |events| && events[i].EndEvent?;
      assert init[i].EndEvent?;
      NoReadHangs(init);
    }
    NoneLeft(Run(init), e);
  }

  /** The end of a connection settles the reads that wait, in the order in which they were issued, each
      with the code of the event; reads issued on a dead connection are rejected with ECONNRESET. */
  lemma EndRejectsAll(events: seq<Event>, code: Code)
    ensures RejectsAll(Run(events), Run(events + [EndEvent(code)]), code)
    ensures var s, s1 := Run(events), Run(events + [RecvCall(|Run(events).buffer| + 1)]);
            !s.connected ==> s1.settled == s.settled + [Settlement(|s.asked|, Rejected(ECONNRESET))]
  {
    assert (events + [EndEvent(code)])[..|events|] == events;
    assert (events + [RecvCall(|Run(events).buffer| + 1)])[..|events|] == events;
  }
}
