/** `recvFrame` of the TypeScript SDK: two awaited reads, with any events between them.

    The two awaits split the function into three pieces that other events may separate, so it is
    modelled as a program counter over the socket of `JsSocket`. One reader runs at a time and stops
    at its first error, as the server's loop does. Runs in which a client reads on are excluded: after
    a call that timed out, whose read stays pending beside the next one, and after a frame that was
    too large, which leaves the stream between two frames. The runtime delivers no data on a socket
    after it was closed or destroyed. */
module JsFraming {
  import opened Bytes
  import opened Frames
  import opened JsSocket

  datatype Pc =
    | Idle
    | Header4(ticket: nat)               // awaiting recv(4)
    | Body(ticket: nat, length: nat)     // awaiting recv(length)

  datatype Failure =
    | Reset(code: Code)
    | TooLarge
    | ShortHeader                        // readUInt32BE out of range

  datatype Receiver = Receiver(
    sock: Socket,
    pc: Pc,
    held: bytes,                  // the header the running call has already taken
    frames: seq<bytes>,           // what the finished calls returned
    failure: Option<Failure>,
    arrived: bytes                // every byte the runtime has delivered
  )

  const START := Receiver(FRESH, Idle, [], [], None, [])

  datatype Action =
    | Call
    | Resume                      // the continuation after an await, if its promise is settled
    | Chunk(chunk: bytes)
    | End(code: Code)
    | Close

  function Lookup(settled: seq<Settlement>, ticket: nat): Option<Outcome> {
    if settled == [] then None
    else
      var r := settled[|settled| - 1];
      if r.ticket == ticket then Some(r.outcome) else Lookup(settled[..|settled| - 1], ticket)
  }

  function AfterHeader(r: Receiver, h: bytes): Receiver {
    if |h| < 4 then r.(pc := Idle, failure := Some(ShortHeader))
    else
      var n := HeaderValue(h[..4]);
      if n > MAX_FRAME_SIZE then r.(pc := Idle, held := h, failure := Some(TooLarge))
      else if n == 0 then r.(pc := Idle, held := [], frames := r.frames + [[]])
      else r.(pc := Body(|r.sock.asked|, n), held := h, sock := Recv(r.sock, n))
  }

  function Continue(r: Receiver): Receiver {
    match r.pc
    case Idle => r
    case Header4(t) =>
      (match Lookup(r.sock.settled, t)
       case None => r
       case Some(Rejected(code)) => r.(pc := Idle, failure := Some(Reset(code)))
       case Some(Resolved(h)) => AfterHeader(r, h))
    case Body(t, _) =>
      (match Lookup(r.sock.settled, t)
       case None => r
       case Some(Rejected(code)) => r.(pc := Idle, failure := Some(Reset(code)))
       case Some(Resolved(p)) => r.(pc := Idle, held := [], frames := r.frames + [p]))
  }

  function Step(r: Receiver, a: Action): Receiver {
    match a
    case Call =>
      if r.pc.Idle? && r.failure.None?
      then r.(pc := Header4(|r.sock.asked|), held := [], sock := Recv(r.sock, 4))
      else r
    case Resume => Continue(r)
    case Chunk(chunk) =>
      if r.sock.connected then r.(sock := Data(r.sock, chunk), arrived := r.arrived + chunk) else r
    case End(code) => r.(sock := Ended(r.sock, code))
    case Close => r.(sock := Closed(r.sock))
  }

  function Run(actions: seq<Action>): Receiver {
    if actions == [] then START else Step(Run(actions[..|actions| - 1]), actions[|actions| - 1])
  }

  // ---------------------------------------------------------------- the invariant

  /** The reads settled so far are older than `ticket`. */
  ghost predicate Older(settled: seq<Settlement>, ticket: nat) {
    forall i :: 0 <= i < |settled| ==> settled[i].ticket < ticket
  }

  ghost predicate Pending(s: Socket, ticket: nat, need: nat) {
    && s.waiters == [Waiter(need, ticket)] && |s.buffer| < need
    && Older(s.settled, ticket)
  }

  ghost predicate Got(s: Socket, ticket: nat, data: bytes) {
    s.waiters == [] && Lookup(s.settled, ticket) == Some(Resolved(data))
  }

  ghost predicate Lost(s: Socket, ticket: nat, need: nat) {
    && s.waiters == [] && !s.connected && |s.buffer| < need
    && Lookup(s.settled, ticket).Some? && Lookup(s.settled, ticket).value.Rejected?
  }

  /** The read in progress is pending, or has been given exactly what it asked for, or is lost. */
  ghost predicate Reading(s: Socket, ticket: nat, need: nat) {
    && ticket < |s.asked|
    && (Pending(s, ticket, need)
        || (exists d :: |d| == need && Got(s, ticket, d))
        || Lost(s, ticket, need))
  }

  /** The bytes a read was resolved with. */
  function Taken(s: Socket, ticket: nat): bytes {
    match Lookup(s.settled, ticket)
    case Some(Resolved(d)) => d
    case _ => []
  }

  /** Bytes resolved to the running call that its continuation has not yet picked up. */
  function InHand(r: Receiver): bytes {
    if r.pc.Idle? then [] else Taken(r.sock, r.pc.ticket)
  }

  /** The part of the stream that no finished call has returned. */
  function Tail(r: Receiver): bytes {
    r.held + InHand(r) + r.sock.buffer
  }

  ghost predicate Phase(r: Receiver) {
    match r.pc
    case Idle =>
      && r.sock.waiters == []
      && (match r.failure
          case None => r.held == []
          case Some(Reset(_)) => !r.sock.connected && ParseOne(Tail(r)).Incomplete?
          case Some(TooLarge) => ParseOne(Tail(r)).Oversize?
          case Some(ShortHeader) => false)
    case Header4(t) =>
      r.failure.None? && r.held == [] && Reading(r.sock, t, 4)
    case Body(t, n) =>
      r.failure.None? && 0 < n <= MAX_FRAME_SIZE && r.held == Header(n) && Reading(r.sock, t, n)
  }

  ghost predicate Inv(r: Receiver) {
    && AllLegal(r.frames)
    && r.arrived == Stream(r.frames) + Tail(r)
    && Older(r.sock.settled, |r.sock.asked|)
    && Phase(r)
  }

  // ---------------------------------------------------------------- steps of the invariant

  lemma {:induction false} LookupOlder(settled: seq<Settlement>, ticket: nat)
    requires Older(settled, ticket)
    ensures Lookup(settled, ticket) == None
  {
    if settled != [] {
      LookupOlder(settled[..|settled| - 1], ticket);
    }
  }

  lemma LookupLast(settled: seq<Settlement>, ticket: nat, o: Outcome)
    ensures Lookup(settled + [Settlement(ticket, o)], ticket) == Some(o)
  {
  }

  lemma ReadOutcome(s: Socket, ticket: nat, need: nat)
    requires Reading(s, ticket, need)
    ensures match Lookup(s.settled, ticket)
            case None => Pending(s, ticket, need)
            case Some(Resolved(d)) => |d| == need && s.waiters == []
            case Some(Rejected(_)) => Lost(s, ticket, need)
  {
    if Pending(s, ticket, need) {
      LookupOlder(s.settled, ticket);
    }
  }

  /** A read issued while no other is pending. */
  lemma RecvReads(s: Socket, need: nat)
    requires s.waiters == [] && Older(s.settled, |s.asked|)
    ensures var s1, t := Recv(s, need), |s.asked|;
            && Reading(s1, t, need) && Older(s1.settled, |s1.asked|)
            && Taken(s1, t) + s1.buffer == s.buffer
  {
    var s1, t := Recv(s, need), |s.asked|;
    if need <= |s.buffer| {
      LookupLast(s.settled, t, Resolved(s.buffer[..need]));
      assert Got(s1, t, s.buffer[..need]);
    } else if !s.connected {
      LookupLast(s.settled, t, Rejected(ECONNRESET));
    } else {
      LookupOlder(s1.settled, t);
    }
  }

  lemma DataReads(s: Socket, chunk: bytes, ticket: nat, need: nat)
    requires Reading(s, ticket, need) && s.connected && Older(s.settled, |s.asked|)
    ensures var s1 := Data(s, chunk);
            && Reading(s1, ticket, need) && Older(s1.settled, |s1.asked|)
            && Taken(s1, ticket) + s1.buffer == Taken(s, ticket) + s.buffer + chunk
  {
    var mid := s.(buffer := s.buffer + chunk);
    if Pending(s, ticket, need) {
      LookupOlder(s.settled, ticket);
      if need <= |mid.buffer| {
        assert Drain(mid) == ServeHead(mid);
        LookupLast(s.settled, ticket, Resolved(mid.buffer[..need]));
        assert Got(Drain(mid), ticket, mid.buffer[..need]);
      }
    } else {
      var d :| |d| == need && Got(s, ticket, d);
      assert Got(Drain(mid), ticket, d);
    }
  }

  lemma EndReads(s: Socket, code: Code, ticket: nat, need: nat)
    requires Reading(s, ticket, need) && Older(s.settled, |s.asked|)
    ensures var s1 := Ended(s, code);
            && Reading(s1, ticket, need) && Older(s1.settled, |s1.asked|)
            && s1.buffer == s.buffer
            && Taken(s1, ticket) == Taken(s, ticket)
  {
    var s1 := Ended(s, code);
    if Pending(s, ticket, need) {
      LookupOlder(s.settled, ticket);
      assert s1.settled == s.settled + [Settlement(ticket, Rejected(code))];
      LookupLast(s.settled, ticket, Rejected(code));
    } else {
      assert s1.settled == s.settled;
      if !Lost(s, ticket, need) {
        var d :| |d| == need && Got(s, ticket, d);
        assert Got(s1, ticket, d);
      }
    }
  }

  lemma CloseReads(s: Socket, ticket: nat, need: nat)
    requires Reading(s, ticket, need)
    ensures Reading(Closed(s), ticket, need)
  {
    if !Pending(s, ticket, need) && !Lost(s, ticket, need) {
      var d :| |d| == need && Got(s, ticket, d);
      assert Got(Closed(s), ticket, d);
    }
  }

  /** What the running call asks for. */
  function Wants(r: Receiver): nat {
    if r.pc.Body? then r.pc.length else 4
  }

  lemma ChunkKeeps(r: Receiver, chunk: bytes)
    requires Inv(r)
    ensures Inv(Step(r, Chunk(chunk)))
  {
    if r.sock.connected {
      var r1 := Step(r, Chunk(chunk));
      if r.pc.Idle? {
        assert Tail(r1) == Tail(r) + chunk;
      } else {
        DataReads(r.sock, chunk, r.pc.ticket, Wants(r));
        TailGrows(r.held, InHand(r), r.sock.buffer, chunk, InHand(r1), r1.sock.buffer);
      }
      Associative(Stream(r.frames), Tail(r), chunk);
    }
  }

  lemma TailGrows(held: bytes, hand: bytes, buffer: bytes, chunk: bytes, hand1: bytes, buffer1: bytes)
    requires hand1 + buffer1 == hand + buffer + chunk
    ensures held + hand1 + buffer1 == held + hand + buffer + chunk
  {
    Associative(held, hand1, buffer1);
    Associative(held, hand, buffer);
    Associative(held, hand + buffer, chunk);
  }

  lemma EndKeeps(r: Receiver, code: Code)
    requires Inv(r)
    ensures Inv(Step(r, End(code)))
  {
    if r.pc.Idle? {
      assert Tail(Step(r, End(code))) == Tail(r);
    } else {
      EndReads(r.sock, code, r.pc.ticket, Wants(r));
    }
  }

  lemma CloseKeeps(r: Receiver)
    requires Inv(r)
    ensures Inv(Step(r, Close))
  {
    if !r.pc.Idle? {
      CloseReads(r.sock, r.pc.ticket, Wants(r));
    }
  }

  lemma CallKeeps(r: Receiver)
    requires Inv(r)
    ensures Inv(Step(r, Call))
  {
    if r.pc.Idle? && r.failure.None? {
      RecvReads(r.sock, 4);
      assert Tail(Step(r, Call)) == Tail(r);
    }
  }

  lemma ReturnFrame(frames: seq<bytes>, payload: bytes, rest: bytes)
    requires AllLegal(frames) && Legal(payload)
    ensures AllLegal(frames + [payload])
    ensures Stream(frames + [payload]) + rest == Stream(frames) + (Frame(payload) + rest)
  {
    StreamSnoc(frames, payload);
  }

  /** The header has been read and its continuation is about to run. */
  ghost predicate HeaderRead(r: Receiver, h: bytes) {
    && Inv(r) && r.pc.Header4? && |h| == 4
    && Lookup(r.sock.settled, r.pc.ticket) == Some(Resolved(h)) && r.sock.waiters == []
  }

  lemma HeaderReadTail(r: Receiver, h: bytes)
    requires HeaderRead(r, h)
    ensures h[..4] == h && Tail(r) == h + r.sock.buffer
    ensures r.arrived == Stream(r.frames) + (h + r.sock.buffer)
  {
    assert [] + h == h;
  }

  lemma OversizeHeader(h: bytes, rest: bytes)
    requires |h| == 4 && HeaderValue(h) > MAX_FRAME_SIZE
    ensures ParseOne(h + rest).Oversize?
  {
    assert (h + rest)[..4] == h;
  }

  lemma OversizeKeeps(r: Receiver, h: bytes)
    requires HeaderRead(r, h) && HeaderValue(h) > MAX_FRAME_SIZE
    ensures Inv(AfterHeader(r, h))
  {
    HeaderReadTail(r, h);
    OversizeHeader(h, r.sock.buffer);
    assert Tail(AfterHeader(r, h)) == h + r.sock.buffer by {
      assert h + [] == h;
    }
  }

  lemma EmptyFrameKeeps(r: Receiver, h: bytes)
    requires HeaderRead(r, h) && HeaderValue(h) == 0
    ensures Inv(AfterHeader(r, h))
  {
    HeaderReadTail(r, h);
    HeaderUnique(h);
    assert Frame([]) == h;
    ReturnFrame(r.frames, [], r.sock.buffer);
    assert Tail(AfterHeader(r, h)) == r.sock.buffer;
  }

  lemma BodyReadTail(h: bytes, hand: bytes, buffer1: bytes, buffer: bytes)
    requires hand + buffer1 == buffer
    ensures h + hand + buffer1 == h + buffer
  {
    Associative(h, hand, buffer1);
  }

  lemma BodyAskedKeeps(r: Receiver, h: bytes)
    requires HeaderRead(r, h) && 0 < HeaderValue(h) <= MAX_FRAME_SIZE
    ensures Inv(AfterHeader(r, h))
  {
    var n, r1 := HeaderValue(h), AfterHeader(r, h);
    HeaderReadTail(r, h);
    HeaderUnique(h);
    RecvReads(r.sock, n);
    BodyReadTail(h, Taken(r1.sock, r1.pc.ticket), r1.sock.buffer, r.sock.buffer);
  }

  lemma AfterHeaderKeeps(r: Receiver, h: bytes)
    requires HeaderRead(r, h)
    ensures Inv(AfterHeader(r, h))
  {
    if HeaderValue(h) > MAX_FRAME_SIZE {
      OversizeKeeps(r, h);
    } else if HeaderValue(h) == 0 {
      EmptyFrameKeeps(r, h);
    } else {
      BodyAskedKeeps(r, h);
    }
  }

  lemma HeaderResumeKeeps(r: Receiver)
    requires Inv(r) && r.pc.Header4?
    ensures Inv(Continue(r))
  {
    ReadOutcome(r.sock, r.pc.ticket, 4);
    match Lookup(r.sock.settled, r.pc.ticket)
    case None =>
    case Some(Rejected(_)) =>
      assert Tail(Continue(r)) == Tail(r);
    case Some(Resolved(h)) =>
      AfterHeaderKeeps(r, h);
  }

  lemma BodyResumeKeeps(r: Receiver)
    requires Inv(r) && r.pc.Body?
    ensures Inv(Continue(r))
  {
    var t, n, r1 := r.pc.ticket, r.pc.length, Continue(r);
    ReadOutcome(r.sock, t, n);
    match Lookup(r.sock.settled, t)
    case None =>
    case Some(Rejected(_)) =>
      HeaderRoundTrip(n);
      assert Tail(r1) == Tail(r) == Header(n) + r.sock.buffer;
      assert Tail(r)[..4] == Header(n);
    case Some(Resolved(p)) =>
      ReturnFrame(r.frames, p, r.sock.buffer);
      assert Tail(r1) == r.sock.buffer;
      assert Tail(r) == Frame(p) + r.sock.buffer;
  }

  lemma {:induction false} RunKeeps(actions: seq<Action>)
    ensures Inv(Run(actions))
  {
    if actions != [] {
      var r, a := Run(actions[..|actions| - 1]), actions[|actions| - 1];
      RunKeeps(actions[..|actions| - 1]);
      match a
      case Call => CallKeeps(r);
      case Resume =>
        match r.pc {
          case Idle =>
          case Header4(_) => HeaderResumeKeeps(r);
          case Body(_, _) => BodyResumeKeeps(r);
        }
      case Chunk(chunk) => ChunkKeeps(r, chunk);
      case End(code) => EndKeeps(r, code);
      case Close => CloseKeeps(r);
    }
  }

  // ---------------------------------------------------------------- the main results

  /** The call in progress is still waiting for the peer. */
  predicate Waiting(r: Receiver) {
    r.sock.waiters != []
  }

  lemma TailDecides(r: Receiver)
    requires Inv(r)
    ensures Waiting(r) || (r.failure.Some? && r.failure.value.Reset?) ==> ParseOne(Tail(r)).Incomplete?
    ensures r.failure == Some(TooLarge) ==> ParseOne(Tail(r)).Oversize?
  {
    if Waiting(r) {
      LookupOlder(r.sock.settled, r.pc.ticket);
      if r.pc.Body? {
        HeaderRoundTrip(r.pc.length);
        assert Tail(r)[..4] == Header(r.pc.length);
      }
    }
  }

  lemma InvRefines(r: Receiver)
    requires Inv(r)
    ensures var p := ParseAll(r.arrived);
            && |r.frames| <= |p.frames| && r.frames == p.frames[..|r.frames|]
            && (Waiting(r) || r.failure.Some? ==> r.frames == p.frames)
            && (Waiting(r) ==> !p.oversize)
            && (match r.failure
                case None => true
                case Some(Reset(_)) => !p.oversize && !r.sock.connected
                case Some(TooLarge) => p.oversize
                case Some(ShortHeader) => false)
  {
    ParseStream(r.frames, Tail(r));
    TailDecides(r);
    var p := ParseAll(r.arrived);
    assert p.frames[..|r.frames|] == r.frames;
    if Waiting(r) || r.failure.Some? {
      assert r.frames + [] == r.frames;
    }
  }

  /** The TypeScript receiver refines the frame parser on the concatenated chunks, for every run of
      chunks, calls, continuations, a close and errors. What it returned is always the first frames
      of the parse; it is all of them when the current call waits for more, when a call was reset,
      and when a call was rejected for its size, and the last two say how the parse ends. */
  lemma RefinesParser(actions: seq<Action>)
    ensures var r, p := Run(actions), ParseAll(Run(actions).arrived);
            && |r.frames| <= |p.frames| && r.frames == p.frames[..|r.frames|]
            && (Waiting(r) || r.failure.Some? ==> r.frames == p.frames)
            && (Waiting(r) ==> !p.oversize)
            && (match r.failure
                case None => true
                case Some(Reset(_)) => !p.oversize && !r.sock.connected
                case Some(TooLarge) => p.oversize
                case Some(ShortHeader) => false)
  {
    RunKeeps(actions);
    InvRefines(Run(actions));
  }

  /** Keep calling `recvFrame` on a dead connection until it fails. */
  function DrainDead(r: Receiver): (d: Receiver)
    requires Inv(r) && !r.sock.connected && !Waiting(r)
    ensures Inv(d) && d.failure.Some? && d.arrived == r.arrived
    decreases |Tail(r)|, if r.failure.Some? then 0 else if r.pc.Body? then 1 else if r.pc.Header4? then 2 else 3
  {
    if r.failure.Some? then r
    else if r.pc.Idle? then
      CallKeeps(r);
      RecvReads(r.sock, 4);
      DrainDead(Step(r, Call))
    else if r.pc.Header4? then
      HeaderResumeKeeps(r);
      ReadOutcome(r.sock, r.pc.ticket, 4);
      assert |InHand(r)| > 0 || Continue(r).failure.Some?;
      DrainDead(Continue(r))
    else
      BodyResumeKeeps(r);
      ReadOutcome(r.sock, r.pc.ticket, r.pc.length);
      DrainDead(Continue(r))
  }

  /** Frames that were complete in the buffer when the connection died are all still returned. */
  lemma DeadConnectionStillReadable(actions: seq<Action>)
    requires !Run(actions).sock.connected && !Waiting(Run(actions))
    ensures Inv(Run(actions))
    ensures DrainDead(Run(actions)).frames == ParseAll(Run(actions).arrived).frames
  {
    RunKeeps(actions);
    InvRefines(DrainDead(Run(actions)));
  }
}
