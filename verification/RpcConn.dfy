/** One connection between the C++ client and a server handler: two byte queues, moved in pieces of
    any size, either end of which may give up at any byte. */
module RpcConn {
  import opened Bytes
  import opened Errors
  import opened Frames
  import opened Envelopes
  import opened Dispatcher
  import opened CppCodec
  import Exchanges

  /** Where the server's handler stands: in recv, in send, or past its loop. */
  datatype Handler = Reading | Replying(frame: bytes, done: nat) | Gone

  /** Why the client gave a connection up: `disconnect` was called, or a send or receive failed. */
  datatype Loss = Requested | After(err: Error)

  /** The client's end: the flag `connected_`, and whether `close` has released the descriptor. */
  datatype End = End(
    connected: bool,
    released: bool,
    loss: Option<Loss>           // history
  )

  datatype Conn = Conn(
    end: End,                    // the client's end
    up: bytes,                   // accepted from the client, not yet read by the handler
    part: bytes,                 // what the handler has read of the frame in progress
    down: bytes,                 // accepted from the handler, not yet read by the client
    handler: Handler,
    begun: seq<Envelope>,        // history: requests of which the client started to write the frame
    whole: seq<Envelope>,        // history: requests of which the whole frame was accepted
    served: seq<Exchange>        // history: requests dispatched, with their responses
  )

  const NEW_CONN := Conn(End(true, false, None), [], [], [], Reading, [], [], [])

  // ---------------------------------------------------------------- the operations on a connection

  /** How many more bytes `read_exact` asks for, having read `part` of a frame. */
  function Need(part: bytes): int {
    if |part| < 4 then 4 - |part| else 4 + HeaderValue(part[..4]) - |part|
  }

  function Begin(k: Conn, r: Envelope): Conn {
    k.(begun := k.begun + [r])
  }

  /** The kernel accepts `frame[i..j]` from the client. */
  function Accept(k: Conn, r: Envelope, frame: bytes, i: nat, j: nat): Conn
    requires i <= j <= |frame|
  {
    k.(up := k.up + frame[i..j], whole := if j == |frame| then k.whole + [r] else k.whole)
  }

  predicate CanRead(k: Conn, n: nat) {
    k.handler.Reading? && ParseOne(k.part).Incomplete? && 1 <= n <= Need(k.part) && n <= |k.up|
  }

  function HandlerRead(k: Conn, n: nat): Conn
    requires CanRead(k, n)
  {
    k.(part := k.part + k.up[..n], up := k.up[n..])
  }

  predicate CanDispatch(wire: Wire, k: Conn) {
    k.handler.Reading? && ParseOne(k.part).Complete? && wire.dec(ParseOne(k.part).payload).Some?
  }

  /** The frame is complete and decodes: dispatch it and start to send the response. */
  function HandlerDispatch(wire: Wire, services: Services, k: Conn, h: HandlerResult): Conn
    requires CanDispatch(wire, k)
  {
    var request := wire.dec(ParseOne(k.part).payload).value;
    var response := Dispatch(services, request, h);
    var reply := wire.enc(response);
    k.(part := [], served := k.served + [Exchanges.Exchange(request, response)],
       handler := if Legal(reply) then Replying(Frame(reply), 0) else Gone)
  }

  predicate CanWrite(k: Conn, n: nat) {
    k.handler.Replying? && 1 <= n && k.handler.done + n <= SendLimit(k.handler.frame, k.handler.done)
  }

  function HandlerWrite(k: Conn, n: nat): Conn
    requires CanWrite(k, n)
  {
    var f, i := k.handler.frame, k.handler.done;
    k.(down := k.down + f[i..i + n], handler := if i + n == |f| then Reading else Replying(f, i + n))
  }

  function HandlerStop(k: Conn): Conn {
    k.(handler := Gone)
  }

  function ClientRead(k: Conn, n: nat): Conn
    requires n <= |k.down|
  {
    k.(down := k.down[n..])
  }

  /** A failed system call, or EOF, clears the flag. */
  function Fails(e: End): End {
    e.(connected := false)
  }

  /** `close` releases the descriptor only while the flag is set. */
  function Close(e: End): End {
    if e.connected then e.(connected := false, released := true) else e
  }

  predicate ByTransport(why: Loss) {
    why.After? && OfTransport(why.err)
  }

  /** The client gives the connection up. */
  function GiveUp(k: Conn, why: Loss): Conn {
    var e := Close(if ByTransport(why) then Fails(k.end) else k.end);
    k.(end := e.(loss := if k.end.loss.Some? then k.end.loss else Some(why)))
  }

  // ---------------------------------------------------------------- the invariant of a connection

  ghost predicate Increasing(requests: seq<Envelope>) {
    forall i, j :: 0 <= i < j < |requests| ==> requests[i].requestId < requests[j].requestId
  }

  ghost predicate AllSendable(wire: Wire, requests: seq<Envelope>) {
    forall i :: 0 <= i < |requests| ==> Sendable(requests[i]) && Legal(wire.enc(requests[i]))
  }

  function FrameOf(wire: Wire, e: Envelope): bytes
    requires Legal(wire.enc(e))
  {
    Frame(wire.enc(e))
  }

  function Last<T>(s: seq<T>): T
    requires s != []
  {
    s[|s| - 1]
  }

  /** The histories agree: what was dispatched was written whole, what was written whole was begun,
      each list lags by at most one, and request ids increase. */
  ghost predicate Histories(wire: Wire, k: Conn) {
    && Increasing(k.begun) && AllSendable(wire, k.begun)
    && |k.whole| <= |k.begun| <= |k.whole| + 1 && k.whole == k.begun[..|k.whole|]
    && |k.served| <= |k.whole| <= |k.served| + 1
    && (forall i :: 0 <= i < |k.served| ==> k.served[i].request == k.whole[i])
  }

  /** The bytes on their way to the handler: a whole request it has not dispatched, or a frame cut
      short, or nothing. */
  ghost predicate Upstream(wire: Wire, k: Conn)
    requires Histories(wire, k)
  {
    if |k.served| < |k.whole| then
      |k.begun| == |k.whole| && !k.handler.Replying? && k.part + k.up == FrameOf(wire, Last(k.whole))
    else if |k.whole| < |k.begun| then
      !k.handler.Replying? && StrictPrefix(k.part + k.up, FrameOf(wire, Last(k.begun)))
    else
      k.part + k.up == []
  }

  ghost predicate Reply(wire: Wire, k: Conn) {
    k.handler.Replying? ==>
      && k.served != [] && Legal(wire.enc(Last(k.served).response))
      && k.handler.frame == FrameOf(wire, Last(k.served).response) && k.handler.done < |k.handler.frame|
  }

  /** The flag is set exactly until the connection is given up; from then on the descriptor has been
      released if and only if the cause was not a failure of the transport. */
  predicate EndOk(e: End) {
    && (e.connected <==> e.loss.None?)
    && (e.released <==> e.loss.Some? && !ByTransport(e.loss.value))
  }

  ghost predicate ConnOk(wire: Wire, k: Conn) {
    Histories(wire, k) && Upstream(wire, k) && Reply(wire, k) && EndOk(k.end)
  }

  /** What the client's lock holder is doing on its connection. */
  datatype Phase =
    | AtRest
    | Writing(request: Envelope, done: nat)
    | Awaiting(request: Envelope, part: bytes)

  /** The response bytes on their way to the client. */
  ghost predicate Downstream(wire: Wire, k: Conn, arrived: bytes) {
    if |k.served| < |k.whole| then arrived == []
    else
      && k.served != []
      && var reply := wire.enc(Last(k.served).response);
         match k.handler
         case Replying(f, done) => done <= |f| && arrived == f[..done]
         case Reading => Legal(reply) && arrived == Frame(reply)
         case Gone => if Legal(reply) then |arrived| <= |Frame(reply)| && arrived == Frame(reply)[..|arrived|]
                      else arrived == []
  }

  /** At rest the connection is quiet: every request on it was answered and every byte was read. */
  ghost predicate Quiet(k: Conn) {
    && |k.served| == |k.whole| == |k.begun|
    && k.up == [] && k.part == [] && k.down == [] && !k.handler.Replying?
  }

  ghost predicate LiveOk(wire: Wire, ph: Phase, k: Conn) {
    match ph
    case AtRest => Quiet(k)
    case Writing(r, done) =>
      && k.begun == k.whole + [r] && |k.served| == |k.whole| && k.down == []
      && Legal(wire.enc(r)) && done < |FrameOf(wire, r)| && k.part + k.up == FrameOf(wire, r)[..done]
    case Awaiting(r, part) =>
      && k.begun == k.whole && k.whole != [] && Last(k.whole) == r
      && Downstream(wire, k, part + k.down) && ParseOne(part).Incomplete?
  }

  // ---------------------------------------------------------------- every operation keeps it

  lemma BeginKeeps(wire: Wire, k: Conn, r: Envelope)
    requires ConnOk(wire, k) && LiveOk(wire, AtRest, k)
    requires Sendable(r) && Legal(wire.enc(r))
    requires forall i :: 0 <= i < |k.begun| ==> k.begun[i].requestId < r.requestId
    ensures ConnOk(wire, Begin(k, r)) && LiveOk(wire, Writing(r, 0), Begin(k, r))
  {
    assert k.part + k.up == FrameOf(wire, r)[..0];
  }

  lemma AcceptKeeps(wire: Wire, k: Conn, r: Envelope, i: nat, j: nat)
    requires ConnOk(wire, k) && LiveOk(wire, Writing(r, i), k)
    requires i < j <= |FrameOf(wire, r)|
    ensures var f := FrameOf(wire, r);
            ConnOk(wire, Accept(k, r, f, i, j))
    ensures var f := FrameOf(wire, r);
            LiveOk(wire, if j < |f| then Writing(r, j) else Awaiting(r, []), Accept(k, r, f, i, j))
  {
    var f := FrameOf(wire, r);
    var k1 := Accept(k, r, f, i, j);
    assert k1.part + k1.up == (k.part + k.up) + f[i..j] == f[..i] + f[i..j] == f[..j];
    if j == |f| {
      assert f[..j] == f;
      assert k1.whole == k1.begun;
    }
  }

  lemma HandlerReadKeeps(wire: Wire, ph: Phase, k: Conn, n: nat)
    requires ConnOk(wire, k) && CanRead(k, n)
    ensures ConnOk(wire, HandlerRead(k, n))
    ensures LiveOk(wire, ph, k) ==> LiveOk(wire, ph, HandlerRead(k, n))
  {
    var k1 := HandlerRead(k, n);
    assert k1.part + k1.up == k.part + k.up;
  }

  /** A complete frame in the handler's hands is the one request that was not dispatched yet. */
  lemma CompleteIsWhole(wire: Wire, k: Conn)
    requires Faithful(wire) && ConnOk(wire, k) && ParseOne(k.part).Complete?
    ensures |k.served| < |k.whole| && k.up == []
    ensures ParseOne(k.part).payload == wire.enc(Last(k.whole))
    ensures wire.dec(ParseOne(k.part).payload).Some? ==> wire.dec(ParseOne(k.part).payload).value == Last(k.whole)
  {
    var total := k.part + k.up;
    if |k.served| == |k.whole| {
      if |k.whole| < |k.begun| {
        var f := FrameOf(wire, Last(k.begun));
        assert k.part == f[..|k.part|];
        CutFrameIncomplete(wire.enc(Last(k.begun)), |k.part|);
      }
    } else {
      var e := wire.enc(Last(k.whole));
      assert k.part == Frame(e)[..|k.part|];
      if |k.part| < |Frame(e)| {
        CutFrameIncomplete(e, |k.part|);
      }
      assert k.part == Frame(e) + [];
      ParseFrame(e, []);
    }
  }

  lemma HandlerDispatchKeeps(wire: Wire, services: Services, ph: Phase, k: Conn, h: HandlerResult)
    requires Faithful(wire) && ConnOk(wire, k) && CanDispatch(wire, k)
    ensures var k1 := HandlerDispatch(wire, services, k, h);
            ConnOk(wire, k1) && (LiveOk(wire, ph, k) ==> LiveOk(wire, ph, k1))
  {
    CompleteIsWhole(wire, k);
  }

  lemma NextSlice(f: bytes, i: nat, n: nat, head: bytes, tail: bytes)
    requires i + n <= |f| && head + tail == f[..i]
    ensures head + (tail + f[i..i + n]) == f[..i + n]
    ensures i + n == |f| ==> f[..i + n] == f
  {
    assert f[..i] + f[i..i + n] == f[..i + n];
    Associative(head, tail, f[i..i + n]);
  }

  lemma HandlerWriteLive(wire: Wire, ph: Phase, k: Conn, n: nat)
    requires ConnOk(wire, k) && CanWrite(k, n) && LiveOk(wire, ph, k)
    ensures LiveOk(wire, ph, HandlerWrite(k, n))
  {
    if ph.Awaiting? {
      NextSlice(k.handler.frame, k.handler.done, n, ph.part, k.down);
    }
  }

  lemma HandlerWriteKeeps(wire: Wire, ph: Phase, k: Conn, n: nat)
    requires ConnOk(wire, k) && CanWrite(k, n)
    ensures ConnOk(wire, HandlerWrite(k, n))
    ensures LiveOk(wire, ph, k) ==> LiveOk(wire, ph, HandlerWrite(k, n))
  {
    if LiveOk(wire, ph, k) {
      HandlerWriteLive(wire, ph, k, n);
    }
  }

  lemma HandlerStopKeeps(wire: Wire, ph: Phase, k: Conn)
    requires ConnOk(wire, k)
    ensures ConnOk(wire, HandlerStop(k))
    ensures LiveOk(wire, ph, k) ==> LiveOk(wire, ph, HandlerStop(k))
  {
    if ph.Awaiting? && LiveOk(wire, ph, k) && |k.served| == |k.whole| && Legal(wire.enc(Last(k.served).response)) {
      var f := Frame(wire.enc(Last(k.served).response));
      assert k.handler.Reading? ==> f == f[..|f|];
    }
  }

  /** What has been read of a frame of which `part + down` has arrived. */
  lemma ReadOf(part: bytes, down: bytes, n: nat)
    requires n <= |down|
    ensures part + down[..n] + down[n..] == part + down
    ensures part + down[..n] == (part + down)[..|part| + n]
  {
  }

  lemma CutOrWhole(reply: bytes, total: bytes, k: nat)
    requires Legal(reply) && |total| <= |Frame(reply)| && total == Frame(reply)[..|total|] && k <= |total|
    ensures if k < |Frame(reply)| then ParseOne(total[..k]).Incomplete?
            else ParseOne(total[..k]) == Complete(reply, []) && total[..k] == total
  {
    var f := Frame(reply);
    assert total[..k] == f[..k];
    if k < |f| {
      CutFrameIncomplete(reply, k);
    } else {
      assert total[..k] == f + [];
      ParseFrame(reply, []);
    }
  }

  lemma ClientReadKeeps(wire: Wire, r: Envelope, part: bytes, k: Conn, n: nat)
    requires Faithful(wire) && ConnOk(wire, k) && LiveOk(wire, Awaiting(r, part), k)
    requires n <= |k.down| && n <= Need(part)
    ensures ConnOk(wire, ClientRead(k, n))
    ensures var part1 := part + k.down[..n];
            match ParseOne(part1)
            case Incomplete => LiveOk(wire, Awaiting(r, part1), ClientRead(k, n))
            case Oversize(_) => false
            case Complete(payload, _) =>
              && LiveOk(wire, AtRest, ClientRead(k, n))
              && k.served != [] && Last(k.served).request == r
              && payload == wire.enc(Last(k.served).response)
  {
    assert ParseOne([]).Incomplete?;
    hide ParseOne, Histories, Upstream, Reply, Frame;
    var total := part + k.down;
    ReadOf(part, k.down, n);
    if |k.served| == |k.whole| && Legal(wire.enc(Last(k.served).response)) {
      CutOrWhole(wire.enc(Last(k.served).response), total, |part| + n);
    }
  }
}
