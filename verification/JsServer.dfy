/** `dispatchLoop` of the TypeScript server, with any events of its socket between its awaits.

    The receiving half is the machine of `JsFraming`; this module adds the loop around it. A socket
    accepts the bytes of one write in order and in any pieces. */
module JsServer {
  import opened Bytes
  import opened Frames
  import opened Protobuf
  import opened Envelopes
  import opened EnvelopeLaws
  import opened Exchanges
  import opened Dispatcher
  import S = JsSocket
  import R = JsFraming

  type Wire = Codec<Message>

  type Exchange = Exchanged<Message>

  datatype Why = ReceiveFailed | Undecodable | ReplyTooLarge | WriteFailed | Disconnected

  datatype Pc =
    | Testing                                // at `while (conn.isConnected)`
    | Receiving                              // awaiting codec.recv
    | Dispatching(request: Envelope)         // awaiting the handler
    | Sending(frame: bytes, done: nat)       // awaiting codec.send, `done` bytes accepted
    | Ended(why: Why)

  datatype Loop = Loop(
    rx: R.Receiver,
    pc: Pc,
    served: seq<Exchange>,       // history: requests dispatched, with their responses
    sent: nat,                   // history: how many responses were accepted whole
    out: bytes,                  // every byte accepted
    tail: bytes                  // history: the bytes accepted of a response after those
  )

  /** The first test and the first read happen before any event. */
  const START := Loop(R.Step(R.START, R.Call), Receiving, [], 0, [], [])

  datatype Step =
    | Test
    | Resume                     // the continuation of an await in recvFrame
    | Settle(h: HandlerResult)   // the handler's promise settles
    | Accepted(n: nat)
    | WriteFails
    | Chunk(chunk: bytes)
    | End(code: S.Code)
    | Close

  function Net(l: Loop, a: R.Action): Loop {
    l.(rx := R.Step(l.rx, a))
  }

  function Stop(l: Loop, why: Why): Loop {
    l.(pc := Ended(why))
  }

  /** After a continuation of `recvFrame` has run. */
  function Received(wire: Wire, l: Loop): Loop {
    if l.rx.failure.Some? then Stop(l, ReceiveFailed)
    else if |l.rx.frames| <= |l.served| then l
    else
      match wire.dec(l.rx.frames[|l.served|])
      case None => Stop(l, Undecodable)
      case Some(request) => l.(pc := Dispatching(request))
  }

  function Reply(wire: Wire, services: Services, l: Loop, request: Envelope, h: HandlerResult): Loop
    requires !h.Fails?
  {
    var response := JsDispatch(services, request, h);
    var reply := wire.enc(response);
    var l1 := l.(served := l.served + [Exchange(request, response)]);
    if !Legal(reply) then Stop(l1, ReplyTooLarge)
    else if !l.rx.sock.connected then Stop(l1, WriteFailed)
    else l1.(pc := Sending(Frame(reply), 0))
  }

  function WritePart(l: Loop, f: bytes, i: nat, n: nat): Loop
    requires i + n < |f|
  {
    l.(out := l.out + f[i..i + n], tail := f[..i + n], pc := Sending(f, i + n))
  }

  function WriteLast(l: Loop, f: bytes, i: nat): Loop
    requires i <= |f|
  {
    l.(out := l.out + f[i..], tail := [], sent := l.sent + 1, pc := Testing)
  }

  function Write(l: Loop, f: bytes, i: nat, n: nat): Loop {
    if i == 4 < |f| && !l.rx.sock.connected then Stop(l, WriteFailed)      // the second send throws
    else if n < 1 || i + n > SendLimit(f, i) then l
    else if i + n < |f| then WritePart(l, f, i, n)
    else WriteLast(l, f, i)
  }

  function Apply(wire: Wire, services: Services, l: Loop, step: Step): Loop {
    match (step, l.pc)
    case (Test, Testing) =>
      if l.rx.sock.connected then Net(l, R.Call).(pc := Receiving) else Stop(l, Disconnected)
    case (Resume, Receiving) => Received(wire, Net(l, R.Resume))
    case (Settle(h), Dispatching(request)) => if h.Fails? then l else Reply(wire, services, l, request, h)
    case (Accepted(n), Sending(f, i)) => Write(l, f, i, n)
    case (WriteFails, Sending(_, _)) => Stop(l, WriteFailed)
    case (Chunk(chunk), _) => Net(l, R.Chunk(chunk))
    case (End(code), _) => Net(l, R.End(code))
    case (Close, _) => Net(l, R.Close)
    case _ => l
  }

  function Run(wire: Wire, services: Services, steps: seq<Step>): Loop {
    if steps == [] then START
    else Apply(wire, services, Run(wire, services, steps[..|steps| - 1]), steps[|steps| - 1])
  }

  // ---------------------------------------------------------------- the invariant

  /** `x` is a request decoded from `frame` and what some run of its handler made of it. */
  ghost predicate Answers(wire: Wire, services: Services, frame: bytes, x: Exchange) {
    wire.dec(frame) == Some(x.request) && IsDispatch(services, x)
  }

  ghost predicate IsDispatch(services: Services, x: Exchange) {
    exists h: HandlerResult :: !h.Fails? && x.response == JsDispatch(services, x.request, h)
  }

  ghost predicate InOrder(wire: Wire, services: Services, frames: seq<bytes>, served: seq<Exchange>) {
    && |served| <= |frames|
    && forall i :: 0 <= i < |served| ==> Answers(wire, services, frames[i], served[i])
  }

  /** The bytes accepted are the first `sent` responses and `tail`. */
  ghost predicate Wrote(wire: Wire, served: seq<Exchange>, sent: nat, out: bytes, tail: bytes) {
    && sent <= |served| <= sent + 1
    && AllLegal(Responses(wire, served[..sent]))
    && out == Stream(Responses(wire, served[..sent])) + tail
  }

  /** The response in progress, cut short. */
  ghost predicate CutReply(wire: Wire, served: seq<Exchange>, sent: nat, tail: bytes)
    requires sent <= |served|
  {
    if sent == |served| then tail == []
    else
      var reply := wire.enc(served[|served| - 1].response);
      if Legal(reply) then StrictPrefix(tail, Frame(reply)) else tail == []
  }

  ghost predicate Writing(wire: Wire, l: Loop, f: bytes, i: nat) {
    && l.sent < |l.served| && Legal(wire.enc(l.served[|l.served| - 1].response))
    && f == Frame(wire.enc(l.served[|l.served| - 1].response)) && i < |f| && l.tail == f[..i]
  }

  /** Where the loop stands, and what that says about the receiver and the bytes written. */
  ghost predicate Position(wire: Wire, l: Loop) {
    match l.pc
    case Testing =>
      l.rx.pc.Idle? && l.rx.failure.None? && |l.rx.frames| == |l.served| && l.sent == |l.served|
    case Receiving =>
      !l.rx.pc.Idle? && |l.rx.frames| == |l.served| && l.sent == |l.served|
    case Dispatching(request) =>
      && l.rx.pc.Idle? && l.rx.failure.None? && |l.rx.frames| == |l.served| + 1
      && wire.dec(l.rx.frames[|l.served|]) == Some(request) && l.sent == |l.served|
    case Sending(f, i) =>
      l.rx.pc.Idle? && l.rx.failure.None? && |l.rx.frames| == |l.served| && Writing(wire, l, f, i)
    case Ended(why) =>
      && l.rx.pc.Idle? && |l.served| <= |l.rx.frames| && Because(wire, l, why)
  }

  /** What each way to leave the loop means. */
  ghost predicate Because(wire: Wire, l: Loop, why: Why)
    requires |l.served| <= |l.rx.frames|
  {
    match why
    case ReceiveFailed => l.rx.failure.Some? && |l.rx.frames| == |l.served| == l.sent
    case Undecodable =>
      |l.rx.frames| == |l.served| + 1 && wire.dec(l.rx.frames[|l.served|]).None? && l.sent == |l.served|
    case ReplyTooLarge =>
      && l.sent < |l.served| && !Legal(wire.enc(l.served[|l.served| - 1].response))
      && l.rx.failure.None? && |l.rx.frames| == |l.served|
    case WriteFailed => l.sent < |l.served| && l.rx.failure.None? && |l.rx.frames| == |l.served|
    case Disconnected =>
      !l.rx.sock.connected && l.rx.failure.None? && |l.rx.frames| == |l.served| && l.sent == |l.served|
  }

  ghost predicate Inv(wire: Wire, services: Services, l: Loop) {
    && R.Inv(l.rx)
    && InOrder(wire, services, l.rx.frames, l.served)
    && Wrote(wire, l.served, l.sent, l.out, l.tail) && CutReply(wire, l.served, l.sent, l.tail)
    && Position(wire, l)
  }

  // ---------------------------------------------------------------- every step keeps it

  /** Receiver steps only add frames, and a frame only ends a call. */
  lemma ReceiverMoves(r: R.Receiver, a: R.Action)
    ensures var r1 := R.Step(r, a);
            && |r.frames| <= |r1.frames| <= |r.frames| + 1 && r1.frames[..|r.frames|] == r.frames
            && (|r1.frames| > |r.frames| ==> r1.pc.Idle? && r1.failure == r.failure)
            && (!a.Resume? ==> r1.frames == r.frames && r1.failure == r.failure)
            && (!a.Resume? && !a.Call? ==> r1.pc == r.pc)
            && (!r.sock.connected ==> !r1.sock.connected)
  {
    if a.Chunk? {
      S.DrainKeepsReads(r.sock.(buffer := r.sock.buffer + a.chunk));
    }
  }

  lemma MoreFrames(wire: Wire, services: Services, frames: seq<bytes>, frames1: seq<bytes>, served: seq<Exchange>)
    requires InOrder(wire, services, frames, served)
    requires |frames| <= |frames1| && frames1[..|frames|] == frames
    ensures InOrder(wire, services, frames1, served)
  {
    forall i | 0 <= i < |served| ensures Answers(wire, services, frames1[i], served[i]) {
      assert frames1[i] == frames[i];
    }
  }

  lemma NetPosition(wire: Wire, l: Loop, a: R.Action)
    requires Position(wire, l) && (a.Chunk? || a.End? || a.Close?)
    ensures Position(wire, Net(l, a))
  {
    ReceiverMoves(l.rx, a);
    hide R.Step;
  }

  lemma NetKeeps(wire: Wire, services: Services, l: Loop, a: R.Action)
    requires Inv(wire, services, l) && (a.Chunk? || a.End? || a.Close?)
    ensures Inv(wire, services, Net(l, a))
  {
    ReceiverMoves(l.rx, a);
    NetPosition(wire, l, a);
    hide R.Inv, R.Step, InOrder, Wrote, CutReply, Position;
    match a
    case Chunk(chunk) => R.ChunkKeeps(l.rx, chunk);
    case End(code) => R.EndKeeps(l.rx, code);
    case Close => R.CloseKeeps(l.rx);
  }

  lemma TestKeeps(wire: Wire, services: Services, l: Loop)
    requires Inv(wire, services, l) && l.pc.Testing?
    ensures Inv(wire, services, Apply(wire, services, l, Test))
  {
    ReceiverMoves(l.rx, R.Call);
    R.CallKeeps(l.rx);
  }

  lemma ResumeKeeps(wire: Wire, services: Services, l: Loop)
    requires Inv(wire, services, l) && l.pc.Receiving?
    ensures Inv(wire, services, Apply(wire, services, l, Resume))
  {
    var r1 := R.Continue(l.rx);
    ReceiverMoves(l.rx, R.Resume);
    if l.rx.pc.Header4? {
      R.HeaderResumeKeeps(l.rx);
    } else {
      R.BodyResumeKeeps(l.rx);
    }
    MoreFrames(wire, services, l.rx.frames, r1.frames, l.served);
    StillReading(l.rx);
    ReceivedPosition(wire, l, r1);
  }

  lemma ReceivedPosition(wire: Wire, l: Loop, r1: R.Receiver)
    requires l.pc.Receiving? && |l.rx.frames| == |l.served| == l.sent
    requires |l.rx.frames| <= |r1.frames| <= |l.rx.frames| + 1
    requires |r1.frames| > |l.rx.frames| ==> r1.pc.Idle? && r1.failure.None?
    requires r1.failure.Some? ==> |r1.frames| == |l.rx.frames| && r1.pc.Idle?
    requires r1.failure.None? && |r1.frames| == |l.rx.frames| ==> !r1.pc.Idle?
    ensures Position(wire, Received(wire, l.(rx := r1)))
  {
  }

  /** A continuation that neither fails nor returns a frame leaves the call running. */
  lemma StillReading(r: R.Receiver)
    requires R.Inv(r) && !r.pc.Idle?
    ensures var r1 := R.Continue(r);
            && (r1.failure.Some? ==> r1.frames == r.frames && r1.pc.Idle?)
            && (r1.failure.None? && r1.frames == r.frames ==> !r1.pc.Idle?)
  {
  }

  lemma OneMoreAnswer(wire: Wire, services: Services, frames: seq<bytes>, served: seq<Exchange>,
                      request: Envelope, h: HandlerResult)
    requires InOrder(wire, services, frames, served) && |served| < |frames| && !h.Fails?
    requires wire.dec(frames[|served|]) == Some(request)
    ensures InOrder(wire, services, frames, served + [Exchange(request, JsDispatch(services, request, h))])
  {
    var x := Exchange(request, JsDispatch(services, request, h));
    assert IsDispatch(services, x);
  }

  lemma NotYetWritten(wire: Wire, served: seq<Exchange>, x: Exchange, out: bytes, tail: bytes)
    requires Wrote(wire, served, |served|, out, tail) && tail == []
    ensures Wrote(wire, served + [x], |served|, out, tail)
    ensures CutReply(wire, served + [x], |served|, tail)
  {
    assert (served + [x])[..|served|] == served == served[..|served|];
  }

  lemma ReplyKeeps(wire: Wire, services: Services, l: Loop, request: Envelope, h: HandlerResult)
    requires Inv(wire, services, l) && l.pc == Dispatching(request) && !h.Fails?
    ensures Inv(wire, services, Reply(wire, services, l, request, h))
  {
    var x := Exchange(request, JsDispatch(services, request, h));
    OneMoreAnswer(wire, services, l.rx.frames, l.served, request, h);
    NotYetWritten(wire, l.served, x, l.out, l.tail);
    NewPosition(wire, services, l, request, h);
  }

  lemma NewPosition(wire: Wire, services: Services, l: Loop, request: Envelope, h: HandlerResult)
    requires Position(wire, l) && l.pc == Dispatching(request) && !h.Fails? && l.tail == []
    ensures Position(wire, Reply(wire, services, l, request, h))
  {
    var response := JsDispatch(services, request, h);
    assert (l.served + [Exchange(request, response)])[|l.served|].response == response;
  }

  lemma WrotePart(wire: Wire, served: seq<Exchange>, sent: nat, out: bytes, f: bytes, i: nat, n: nat)
    requires i + n <= |f| && Wrote(wire, served, sent, out, f[..i])
    ensures Wrote(wire, served, sent, out + f[i..i + n], f[..i + n])
  {
    assert f[..i] + f[i..i + n] == f[..i + n];
    Associative(Stream(Responses(wire, served[..sent])), f[..i], f[i..i + n]);
  }

  lemma PartPosition(wire: Wire, l: Loop, f: bytes, i: nat, n: nat)
    requires Position(wire, l) && l.pc == Sending(f, i) && n >= 1 && i + n < |f|
    ensures Position(wire, WritePart(l, f, i, n))
  {
  }

  lemma PartCut(wire: Wire, l: Loop, f: bytes, i: nat, n: nat)
    requires Writing(wire, l, f, i) && l.sent <= |l.served| && i + n < |f|
    ensures CutReply(wire, l.served, l.sent, f[..i + n])
  {
  }

  lemma PartKeeps(wire: Wire, services: Services, l: Loop, f: bytes, i: nat, n: nat)
    requires Inv(wire, services, l) && l.pc == Sending(f, i) && n >= 1 && i + n < |f|
    ensures Inv(wire, services, WritePart(l, f, i, n))
  {
    var l1 := WritePart(l, f, i, n);
    WrotePart(wire, l.served, l.sent, l.out, f, i, n);
    PartCut(wire, l, f, i, n);
    PartPosition(wire, l, f, i, n);
    assert l1.rx == l.rx && l1.served == l.served && l1.sent == l.sent;
  }

  lemma WholeReply(wire: Wire, served: seq<Exchange>, sent: nat, out: bytes, tail: bytes, f: bytes, i: nat)
    requires Wrote(wire, served, sent, out, tail) && sent + 1 == |served|
    requires Legal(wire.enc(served[sent].response)) && f == Frame(wire.enc(served[sent].response))
    requires i <= |f| && tail == f[..i]
    ensures Wrote(wire, served, sent + 1, out + f[i..], [])
  {
    var before, reply := Responses(wire, served[..sent]), wire.enc(served[sent].response);
    assert served[..sent + 1] == served == served[..sent] + [served[sent]];
    assert Responses(wire, served) == before + [reply];
    StreamSnoc(before, reply);
    assert f[..i] + f[i..] == f;
    Associative(Stream(before), tail, f[i..]);
    assert Stream(before + [reply]) + [] == Stream(before + [reply]);
  }

  lemma LastKeeps(wire: Wire, services: Services, l: Loop, f: bytes, i: nat)
    requires Inv(wire, services, l) && l.pc == Sending(f, i)
    ensures Inv(wire, services, WriteLast(l, f, i))
  {
    WholeReply(wire, l.served, l.sent, l.out, l.tail, f, i);
  }

  lemma StopKeeps(wire: Wire, services: Services, l: Loop)
    requires Inv(wire, services, l) && l.pc.Sending?
    ensures Inv(wire, services, Stop(l, WriteFailed))
  {
  }

  lemma WriteKeeps(wire: Wire, services: Services, l: Loop, f: bytes, i: nat, n: nat)
    requires Inv(wire, services, l) && l.pc == Sending(f, i)
    ensures Inv(wire, services, Write(l, f, i, n))
  {
    if i == 4 < |f| && !l.rx.sock.connected {
      StopKeeps(wire, services, l);
    } else if n >= 1 && i + n <= SendLimit(f, i) {
      if i + n < |f| {
        PartKeeps(wire, services, l, f, i, n);
      } else {
        LastKeeps(wire, services, l, f, i);
      }
    }
  }

  lemma StepKeeps(wire: Wire, services: Services, l: Loop, step: Step)
    requires Inv(wire, services, l)
    ensures Inv(wire, services, Apply(wire, services, l, step))
  {
    hide Inv;
    match (step, l.pc)
    case (Test, Testing) => TestKeeps(wire, services, l);
    case (Resume, Receiving) => ResumeKeeps(wire, services, l);
    case (Settle(h), Dispatching(request)) => if !h.Fails? { ReplyKeeps(wire, services, l, request, h); }
    case (Accepted(n), Sending(f, i)) => WriteKeeps(wire, services, l, f, i, n);
    case (WriteFails, Sending(_, _)) => StopKeeps(wire, services, l);
    case (Chunk(chunk), _) => NetKeeps(wire, services, l, R.Chunk(chunk));
    case (End(code), _) => NetKeeps(wire, services, l, R.End(code));
    case (Close, _) => NetKeeps(wire, services, l, R.Close);
    case _ =>
  }

  lemma {:induction false} RunKeeps(wire: Wire, services: Services, steps: seq<Step>)
    ensures Inv(wire, services, Run(wire, services, steps))
    decreases |steps|
  {
    if steps == [] {
      R.RunKeeps([]);
      R.CallKeeps(R.START);
      assert Responses(wire, []) == [];
    } else {
      RunKeeps(wire, services, steps[..|steps| - 1]);
      StepKeeps(wire, services, Run(wire, services, steps[..|steps| - 1]), steps[|steps| - 1]);
    }
  }

  // ---------------------------------------------------------------- main results

  lemma AnswersOwn(wire: Wire, services: Services, frame: bytes, x: Exchange)
    requires Answers(wire, services, frame, x)
    ensures x.response.requestId == Some(x.request.requestId)
  {
  }

  /** In-order service, for every run. The requests dispatched are the first frames of the stream, in
      order; the bytes written are the responses of all of them, or of all but the last, which may
      be cut short, and each response carries the id of its request. */
  lemma ServedInOrder(wire: Wire, services: Services, steps: seq<Step>)
    ensures var l := Run(wire, services, steps);
            && InOrder(wire, services, ParseAll(l.rx.arrived).frames, l.served)
            && (forall i :: 0 <= i < |l.served| ==>
                  l.served[i].response.requestId == Some(l.served[i].request.requestId))
            && Wrote(wire, l.served, l.sent, l.out, l.tail) && CutReply(wire, l.served, l.sent, l.tail)
  {
    var l := Run(wire, services, steps);
    RunKeeps(wire, services, steps);
    R.InvRefines(l.rx);
    MoreFrames(wire, services, l.rx.frames, ParseAll(l.rx.arrived).frames, l.served);
    forall i | 0 <= i < |l.served| ensures l.served[i].response.requestId == Some(l.served[i].request.requestId) {
      AnswersOwn(wire, services, l.rx.frames[i], l.served[i]);
    }
  }

  /** An error response never ends the loop. It ends in one of five ways: the receive failed, and then
      every frame of the stream was served; the next frame does not decode; a response was too large;
      a write failed; or the connection was seen to be gone after a response. In all but the first two
      every frame was served if and only if no complete frame is left in the buffer. */
  lemma WhyItEnds(wire: Wire, services: Services, steps: seq<Step>)
    requires Run(wire, services, steps).pc.Ended?
    ensures Explained(wire, Run(wire, services, steps))
    ensures AllServed(Run(wire, services, steps)) <==> NothingLeft(Run(wire, services, steps))
  {
    var l := Run(wire, services, steps);
    RunKeeps(wire, services, steps);
    FirstFrames(l.rx);
    if l.rx.failure.None? {
      LeftInBuffer(l.rx);
    }
    EndExplained(wire, l);
  }

  ghost predicate Explained(wire: Wire, l: Loop)
    requires l.pc.Ended?
  {
    var frames := ParseAll(l.rx.arrived).frames;
    && |l.served| <= |frames|
    && match l.pc.why
       case ReceiveFailed => |frames| == |l.served| == l.sent
       case Undecodable => |l.served| < |frames| && wire.dec(frames[|l.served|]).None?
       case ReplyTooLarge => l.sent < |l.served| && !Legal(wire.enc(l.served[|l.served| - 1].response))
       case WriteFailed => l.sent < |l.served|
       case Disconnected => !l.rx.sock.connected && l.sent == |l.served|
  }

  /** Every request that arrived whole was served. */
  ghost predicate AllServed(l: Loop) {
    |ParseAll(l.rx.arrived).frames| == |l.served|
  }

  /** The guard that tells: no request was refused by the decoder, and none is left in the buffer. */
  predicate NothingLeft(l: Loop)
    requires l.pc.Ended?
  {
    match l.pc.why
    case ReceiveFailed => true
    case Undecodable => false
    case _ => !ParseOne(l.rx.sock.buffer).Complete?
  }

  lemma EndExplained(wire: Wire, l: Loop)
    requires l.pc.Ended? && Position(wire, l)
    requires var frames := ParseAll(l.rx.arrived).frames;
             && |l.rx.frames| <= |frames| && l.rx.frames == frames[..|l.rx.frames|]
             && (l.rx.failure.Some? ==> l.rx.frames == frames)
             && (l.rx.failure.None? && l.rx.pc.Idle? ==>
                   (|frames| == |l.rx.frames| <==> !ParseOne(l.rx.sock.buffer).Complete?))
    ensures Explained(wire, l) && (AllServed(l) <==> NothingLeft(l))
  {
    assert Because(wire, l, l.pc.why);
  }

  lemma FirstFrames(r: R.Receiver)
    requires R.Inv(r)
    ensures var frames := ParseAll(r.arrived).frames;
            |r.frames| <= |frames| && r.frames == frames[..|r.frames|] && (r.failure.Some? ==> r.frames == frames)
  {
    R.InvRefines(r);
  }

  /** Between calls, the frames not yet returned are those in the buffer. */
  lemma LeftInBuffer(r: R.Receiver)
    requires R.Inv(r) && r.pc.Idle? && r.failure.None?
    ensures |ParseAll(r.arrived).frames| == |r.frames| <==> !ParseOne(r.sock.buffer).Complete?
  {
    assert R.Tail(r) == r.sock.buffer;
    ParseStream(r.frames, r.sock.buffer);
  }

  /** Exactly when the loop leaves requests behind, however it ends: every request that arrived whole
      was served unless the decoder refused one or, after the last response, the buffer starts with a
      complete frame. */
  lemma UnservedExactly(wire: Wire, services: Services, steps: seq<Step>)
    requires Run(wire, services, steps).pc.Ended?
    ensures AllServed(Run(wire, services, steps)) <==> NothingLeft(Run(wire, services, steps))
  {
    WhyItEnds(wire, services, steps);
  }

  // ---------------------------------------------------------------- requests the loop leaves behind

  lemma Next(wire: Wire, services: Services, steps: seq<Step>, step: Step)
    ensures Run(wire, services, steps + [step]) == Apply(wire, services, Run(wire, services, steps), step)
  {
    assert (steps + [step])[..|steps|] == steps;
  }

  /** Two empty frames arrive at a receiver that waits for a header. */
  lemma EmptyFramesArrive(f: bytes)
    requires f == Frame([])
    ensures var s := S.Data(START.rx.sock, f + f);
            s.connected && s.waiters == [] && R.Lookup(s.settled, 0) == Some(S.Resolved(f))
  {
    assert START.rx.sock.waiters == [S.Waiter(4, 0)];
    var mid := START.rx.sock.(buffer := [] + (f + f));
    assert S.Drain(mid) == S.ServeHead(mid);
    assert mid.buffer[..4] == f;
    R.LookupLast([], 0, S.Resolved(f));
  }

  lemma EmptyHeaderRead(r: R.Receiver, f: bytes)
    requires f == Frame([]) && r.frames == [] && r.failure.None?
    requires r.pc == R.Header4(0) && R.Lookup(r.sock.settled, 0) == Some(S.Resolved(f))
    ensures var r1 := R.Continue(r);
            r1.frames == [[]] && r1.failure.None? && r1.sock == r.sock && r1.arrived == r.arrived
  {
    HeaderRoundTrip(0);
    assert f[..4] == f == Header(0);
  }

  /** The first is taken up. */
  lemma FirstDispatched(wire: Wire, services: Services) returns (steps: seq<Step>)
    requires wire.dec([]).Some?
    ensures var l := Run(wire, services, steps);
            && l.pc == Dispatching(wire.dec([]).value) && l.rx.sock.connected
            && l.rx.arrived == Frame([]) + Frame([]) && l.served == [] && l.sent == 0
  {
    var f := Frame([]);
    var l1 := Net(START, R.Chunk(f + f));
    EmptyFramesArrive(f);
    EmptyHeaderRead(l1.rx, f);
    Next(wire, services, [], Chunk(f + f));
    Next(wire, services, [] + [Chunk(f + f)], Resume);
    steps := [] + [Chunk(f + f)] + [Resume];
  }

  /** The response in progress goes out whole, in one or two pieces. */
  lemma Finishes(wire: Wire, services: Services, steps: seq<Step>, f: bytes, i: nat) returns (writes: seq<Step>)
    requires i < |f|
    requires var l := Run(wire, services, steps); l.pc == Sending(f, i) && l.rx.sock.connected
    ensures forall x :: x in writes ==> x.Accepted?
    ensures var l := Run(wire, services, steps);
            Run(wire, services, steps + writes)
              == l.(pc := Testing, sent := l.sent + 1, out := l.out + f[i..], tail := [])
  {
    var l := Run(wire, services, steps);
    if i < 4 < |f| {
      var l1 := WritePart(l, f, i, 4 - i);
      Next(wire, services, steps, Accepted(4 - i));
      assert Apply(wire, services, l, Accepted(4 - i)) == Write(l, f, i, 4 - i) == l1;
      LastPiece(wire, services, steps + [Accepted(4 - i)], f, 4);
      writes := [Accepted(4 - i), Accepted(|f| - 4)];
      assert steps + writes == steps + [Accepted(4 - i)] + [Accepted(|f| - 4)];
      assert l.out + f[i..4] + f[4..] == l.out + f[i..];
    } else {
      LastPiece(wire, services, steps, f, i);
      writes := [Accepted(|f| - i)];
    }
  }

  lemma LastPiece(wire: Wire, services: Services, steps: seq<Step>, f: bytes, i: nat)
    requires i < |f| && !(i < 4 < |f|)
    requires var l := Run(wire, services, steps); l.pc == Sending(f, i) && l.rx.sock.connected
    ensures Run(wire, services, steps + [Accepted(|f| - i)]) == WriteLast(Run(wire, services, steps), f, i)
  {
    var l := Run(wire, services, steps);
    Next(wire, services, steps, Accepted(|f| - i));
    assert Apply(wire, services, l, Accepted(|f| - i)) == Write(l, f, i, |f| - i) == WriteLast(l, f, i);
  }

  lemma HangsUp(wire: Wire, services: Services, steps: seq<Step>) returns (steps1: seq<Step>)
    requires Run(wire, services, steps).pc == Testing
    ensures var l, l1 := Run(wire, services, steps), Run(wire, services, steps1);
            l1.pc == Ended(Disconnected) && l1.served == l.served && l1.rx.arrived == l.rx.arrived
  {
    Next(wire, services, steps, End(S.ECONNRESET));
    Next(wire, services, steps + [End(S.ECONNRESET)], Test);
    steps1 := steps + [End(S.ECONNRESET)] + [Test];
  }

  /** Unlike the C++ loop, this one tests the connection before every receive: a request that was
      buffered whole when the peer hung up is not served. Two empty frames are an example, for any
      decoder that accepts the empty message. */
  lemma BufferedRequestUnserved(wire: Wire, services: Services, h: HandlerResult) returns (steps: seq<Step>)
    requires wire.dec([]).Some? && !h.Fails?
    requires Legal(wire.enc(JsDispatch(services, wire.dec([]).value, h)))
    ensures var l := Run(wire, services, steps);
            && l.pc == Ended(Disconnected) && |l.served| == 1
            && ParseAll(l.rx.arrived).frames == [[], []]
  {
    var first := FirstDispatched(wire, services);
    Next(wire, services, first, Settle(h));
    var writes := Finishes(wire, services, first + [Settle(h)],
                           Frame(wire.enc(JsDispatch(services, wire.dec([]).value, h))), 0);
    steps := HangsUp(wire, services, first + [Settle(h)] + writes);
    TwoEmptyFrames();
  }

  lemma TwoEmptyFrames()
    ensures ParseAll(Frame([]) + Frame([])).frames == [[], []]
  {
    ParseFrame([], Frame([]));
    assert Frame([]) == Frame([]) + [];
    ParseFrame([], []);
    assert ParseAll([]).frames == [];
  }

  // ---------------------------------------------------------------- the generated codec

  /** `EnvelopeCodec` over the generated code; the server's responses carry no metadata. */
  function Serialize(m: Message): bytes {
    if EncodableMessage(m) && Or(m.metadata, map[]) == map[] then Encode(m, []) else []
  }

  function Deserialize(s: bytes): Option<Envelope> {
    match Decode(s)
    case Decoded(m) => Some(WithDefaults(m))
    case Failed(_) => None
  }

  const CODEC := Wire(Serialize, Deserialize)

  /** A decoded id fits 64 bits, so that the response can carry it. */
  lemma {:induction false} DecodedId(m: Message, s: bytes)
    requires Or(m.requestId, 0) < TWO_64
    ensures DecodeInto(m, s).Decoded? ==> Or(DecodeInto(m, s).message.requestId, 0) < TWO_64
    decreases |s|
  {
    if s != [] && ReadItem(s).Ok? {
      var item := ReadItem(s).value;
      assert item.RequestId? ==> item.id < TWO_64;
      DecodedId(Store(m, item), ReadItem(s).rest);
    }
  }

  lemma ResponseEncodable(services: Services, frame: bytes, x: Exchange)
    requires Answers(CODEC, services, frame, x)
    ensures EncodableMessage(x.response) && x.response.metadata == Some(map[])
    ensures x.response.requestId == Some(x.request.requestId)
  {
    DecodedId(FRESH, frame);
  }

  lemma ResponseReadBack(services: Services, frame: bytes, x: Exchange)
    requires Answers(CODEC, services, frame, x) && Legal(Serialize(x.response))
    ensures Deserialize(Serialize(x.response)) == Some(WithDefaults(x.response))
    ensures WithDefaults(x.response).requestId == x.request.requestId
  {
    ResponseEncodable(services, frame, x);
    RoundTrip(x.response, []);
  }

  /** With the generated codec, the bytes written are moreover the encodings of the responses: parsing
      and decoding what was sent whole gives back the response to each request, under its id. */
  lemma ServedInOrderForProtobuf(services: Services, steps: seq<Step>)
    ensures var l := Run(CODEC, services, steps);
            && InOrder(CODEC, services, ParseAll(l.rx.arrived).frames, l.served)
            && Wrote(CODEC, l.served, l.sent, l.out, l.tail) && CutReply(CODEC, l.served, l.sent, l.tail)
            && (forall i :: 0 <= i < l.sent ==>
                  && Deserialize(Serialize(l.served[i].response)) == Some(WithDefaults(l.served[i].response))
                  && WithDefaults(l.served[i].response).requestId == l.served[i].request.requestId)
  {
    var l := Run(CODEC, services, steps);
    ServedInOrder(CODEC, services, steps);
    forall i | 0 <= i < l.sent
      ensures Deserialize(Serialize(l.served[i].response)) == Some(WithDefaults(l.served[i].response))
      ensures WithDefaults(l.served[i].response).requestId == l.served[i].request.requestId
    {
      assert Responses(CODEC, l.served[..l.sent])[i] == Serialize(l.served[i].response);
      ResponseReadBack(services, ParseAll(l.rx.arrived).frames[i], l.served[i]);
    }
  }

  /** The error that answers the empty request takes 27 bytes. */
  lemma EmptyRequestAnswer(services: Services, h: HandlerResult)
    requires [] !in services && !h.Fails?
    ensures var reply := Serialize(JsDispatch(services, WithDefaults(FRESH), h));
            |reply| == 27 && Legal(reply)
  {
    var text := Text("Service not found: ") + [];
    var m := JsErrorEnvelope(WithDefaults(FRESH), NOT_FOUND, text);
    var a, b, c, d := Kind(ERROR), RequestId(0), Status(NOT_FOUND), ErrorMessage(text);
    assert Items(m, []) == [a, b, c, d];
    assert EncodeVarint(3) == [3] && EncodeVarint(0) == [0] && EncodeVarint(2) == [2] && EncodeVarint(19) == [19];
    assert |EncodeItem(a)| == 2 && |EncodeItem(b)| == 2 && |EncodeItem(c)| == 2 && |EncodeItem(d)| == 21;
    assert [a, b, c, d][..3] == [a, b, c] && [a, b, c][..2] == [a, b] && [a, b][..1] == [a] && [a][..0] == [];
    assert EncodeItems([]) == [];
    assert |EncodeItems([a])| == 2;
    assert |EncodeItems([a, b])| == 4;
    assert |EncodeItems([a, b, c])| == 6;
    assert |EncodeItems([a, b, c, d])| == 27;
  }

  /** The run is real: with the generated codec and any services without a nameless one, two
      zero-length frames and a peer that hangs up leave the second request unserved. */
  lemma EmptyRequestUnserved(services: Services) returns (steps: seq<Step>)
    requires [] !in services
    ensures var l := Run(CODEC, services, steps);
            && l.pc == Ended(Disconnected) && |l.served| == 1
            && ParseAll(l.rx.arrived).frames == [[], []]
  {
    EmptyRequestAnswer(services, ThrowsUnknown);
    steps := BufferedRequestUnserved(CODEC, services, ThrowsUnknown);
  }
}
