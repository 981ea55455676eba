/** The TypeScript client's calls, interleaved at every `await`.

    JavaScript runs one piece of code at a time, so a step is what happens between two awaits, or an
    event of a socket. A call that lost its connection may wait for a reconnect and resume at any
    later time; a call may also time out. A socket accepts the bytes written to it in order and, once
    a write has failed or the socket was closed, none at all. */
module JsClient {
  import opened Bytes
  import opened Frames

  datatype Pc =
    | Waiting                                            // in waitForReconnect
    | Sending(id: nat, c: nat, payload: bytes, done: nat)  // in codec.send, `done` bytes accepted
    | Receiving(id: nat, c: nat)                         // in codec.recv
    | Failing(id: nat)                                   // codec.send has thrown, finally not yet run
    | Settled                                            // returned or thrown

  datatype Socket = Socket(
    connected: bool,              // the flag `send` tests
    dead: bool,                   // destroyed: accepts no byte any more
    written: bytes,               // every byte accepted
    frames: seq<bytes>,           // history: the payloads whose frames were accepted whole
    tail: bytes,                  // history: the bytes accepted of a frame after those
    begun: seq<Request>,          // history: the requests whose frames were begun on this socket
    taken: nat,                   // history: how many responses calls have taken
    astray: bool                  // history: a read was abandoned, or a response was bad
  )

  /** A request: its id and the envelope that carries it, encoded. */
  datatype Request = Request(id: nat, payload: bytes)

  /** How a call that was given an id ended: with the i-th response of a socket that is not astray,
      of its own id or of another; with some response of a socket that is; or with an error. */
  datatype Outcome =
    | Returned(c: nat, i: nat)
    | Mismatch(c: nat, i: nat)
    | Unknown(c: nat)
    | Threw

  datatype Client = Client(
    codec: Option<nat>,           // index of `sockets`
    nextRequestId: nat,
    callInFlight: bool,
    reconnecting: bool,
    reconnectOpts: bool,
    calls: seq<Pc>,
    sockets: seq<Socket>,
    outcomes: map<nat, Outcome>   // history, by the id of the request
  )

  function New(reconnectOpts: bool): Client {
    Client(None, 1, false, false, reconnectOpts, [], [], map[])
  }

  datatype Step =
    | Call(payload: bytes)                 // `payload`: the encoded request envelope
    | Resume(k: nat, payload: bytes)       // waitForReconnect settled
    | Accepted(k: nat, n: nat)             // the socket takes n bytes of the current write
    | WriteFails(k: nat)
    | Response(k: nat)                     // recv resolves with the next response of the socket
    | AstrayResponse(k: nat)               // recv resolves, with what is open after a read went astray
    | BadResponse(k: nat)                  // recv rejects: a frame too large, or not an envelope
    | RecvRejected(k: nat)                 // recv rejects: the socket has closed or failed
    | Timeout(k: nat)                      // the timer rejects; the read stays pending
    | SendRejected(k: nat)                 // the error of codec.send is thrown on
    | Connected(byLoop: bool)              // connect() or the reconnect loop got a socket
    | Closed(c: nat)                       // 'close' or 'error' event
    | Disconnect
    | GiveUp                               // reconnect attempts exhausted

  /** The call is refused before it takes an id. */
  function Refuse(s: Client, k: nat): Client
    requires k < |s.calls|
  {
    s.(calls := s.calls[k := Settled])
  }

  /** The call takes an id and sets the flag, and its send throws before any write. */
  function Throws(s: Client, k: nat): Client
    requires k < |s.calls|
  {
    s.(nextRequestId := s.nextRequestId + 1, callInFlight := true, calls := s.calls[k := Failing(s.nextRequestId)])
  }

  /** The call takes an id, sets the flag and begins to write to socket `c`. */
  function Begin(s: Client, k: nat, c: nat, payload: bytes): Client
    requires k < |s.calls| && c < |s.sockets|
  {
    s.(nextRequestId := s.nextRequestId + 1, callInFlight := true,
       calls := s.calls[k := Sending(s.nextRequestId, c, payload, 0)],
       sockets := s.sockets[c := s.sockets[c].(begun := s.sockets[c].begun + [Request(s.nextRequestId, payload)])])
  }

  /** From the check of `codec` on: the rest of `call` up to the first write. The flag is tested and
      set without an await in between. A request too large for a frame throws before any write. */
  function Enter(s: Client, k: nat, payload: bytes): Client
    requires k < |s.calls|
  {
    if s.codec.None? || s.codec.value >= |s.sockets| || s.callInFlight then Refuse(s, k)
    else if !Legal(payload) || !s.sockets[s.codec.value].connected then Throws(s, k)
    else Begin(s, k, s.codec.value, payload)
  }

  /** The call returns or throws, and the `finally` clause runs. */
  function Release(s: Client, k: nat, id: nat, o: Outcome): Client
    requires k < |s.calls|
  {
    s.(callInFlight := false, calls := s.calls[k := Settled], outcomes := s.outcomes[id := o])
  }

  /** What calls have read of socket `c` changes. */
  function SetReads(s: Client, c: nat, taken: nat, astray: bool): Client
    requires c < |s.sockets|
  {
    s.(sockets := s.sockets[c := s.sockets[c].(taken := taken, astray := astray)])
  }

  /** Call `k` waits for a response. */
  predicate Awaiting(s: Client, k: nat) {
    k < |s.calls| && s.calls[k].Receiving? && s.calls[k].c < |s.sockets|
  }

  /** The servers answer the whole requests of a connection in order, each under its own id. The call
      compares the id of the response with its own. */
  function TakeResponse(s: Client, k: nat): Client
    requires Awaiting(s, k)
  {
    var Receiving(id, c) := s.calls[k];
    var sock := s.sockets[c];
    if sock.taken < |sock.frames| && sock.taken < |sock.begun| then
      Release(SetReads(s, c, sock.taken + 1, sock.astray), k, id,
              if sock.begun[sock.taken].id == id then Returned(c, sock.taken) else Mismatch(c, sock.taken))
    else s
  }

  /** The call is over and the read it leaves, or the bytes left of a bad response, go astray. */
  function Leave(s: Client, k: nat, o: Outcome): Client
    requires Awaiting(s, k)
  {
    var Receiving(id, c) := s.calls[k];
    Release(SetReads(s, c, s.sockets[c].taken, true), k, id, o)
  }

  /** The socket accepts bytes `i..j` of the frame of `payload`. */
  function Take(sock: Socket, payload: bytes, i: nat, j: nat): Socket
    requires Legal(payload) && i <= j <= |Frame(payload)|
  {
    var f := Frame(payload);
    sock.(written := sock.written + f[i..j],
          frames := if j == |f| then sock.frames + [payload] else sock.frames,
          tail := if j == |f| then [] else sock.tail + f[i..j])
  }

  /** Call `k` is writing a frame to a socket. */
  predicate Writing(s: Client, k: nat) {
    && k < |s.calls| && s.calls[k].Sending? && s.calls[k].c < |s.sockets|
    && Legal(s.calls[k].payload) && s.calls[k].done < |Frame(s.calls[k].payload)|
  }

  function Abandon(s: Client, k: nat): Client
    requires k < |s.calls| && s.calls[k].Sending?
  {
    s.(calls := s.calls[k := Failing(s.calls[k].id)])
  }

  function SendPart(s: Client, k: nat, n: nat): Client
    requires Writing(s, k) && s.calls[k].done + n < |Frame(s.calls[k].payload)|
  {
    var Sending(id, c, payload, done) := s.calls[k];
    s.(calls := s.calls[k := Sending(id, c, payload, done + n)],
       sockets := s.sockets[c := Take(s.sockets[c], payload, done, done + n)])
  }

  function SendLast(s: Client, k: nat): Client
    requires Writing(s, k)
  {
    var Sending(id, c, payload, done) := s.calls[k];
    s.(calls := s.calls[k := Receiving(id, c)],
       sockets := s.sockets[c := Take(s.sockets[c], payload, done, |Frame(payload)|)])
  }

  function Apply(s: Client, step: Step): Client {
    match step
    case Call(payload) =>
      var s1 := s.(calls := s.calls + [Settled]);
      if s.codec.None? && s.reconnectOpts then s1.(calls := s.calls + [Waiting])
      else Enter(s1, |s.calls|, payload)
    case Resume(k, payload) =>
      if !(k < |s.calls| && s.calls[k].Waiting?) || (s.codec.None? && s.reconnecting) then s
      else Enter(s, k, payload)                            // without a codec the wait was rejected
    case Accepted(k, n) =>
      if !(k < |s.calls| && s.calls[k].Sending?) then s
      else
        var Sending(_, c, payload, done) := s.calls[k];
        if c >= |s.sockets| || !Legal(payload) then s
        else
          var sock, f := s.sockets[c], Frame(payload);
          if done == 4 < |f| && !sock.connected then Abandon(s, k)      // conn.send(data) throws
          else if sock.dead || n < 1 || done + n > SendLimit(f, done) then s
          else if done + n < |f| then SendPart(s, k, n)
          else SendLast(s, k)
    case WriteFails(k) =>
      if k < |s.calls| && s.calls[k].Sending? && s.calls[k].c < |s.sockets|
      then
        var c := s.calls[k].c;
        s.(calls := s.calls[k := Failing(s.calls[k].id)], sockets := s.sockets[c := s.sockets[c].(dead := true)])
      else s
    case Response(k) => if Awaiting(s, k) && !s.sockets[s.calls[k].c].astray then TakeResponse(s, k) else s
    case AstrayResponse(k) =>
      if Awaiting(s, k) && s.sockets[s.calls[k].c].astray then Leave(s, k, Unknown(s.calls[k].c)) else s
    case BadResponse(k) => if Awaiting(s, k) then Leave(s, k, Threw) else s
    case RecvRejected(k) =>
      if Awaiting(s, k) && !s.sockets[s.calls[k].c].connected then Release(s, k, s.calls[k].id, Threw) else s
    case Timeout(k) => if Awaiting(s, k) then Leave(s, k, Threw) else s
    case SendRejected(k) =>
      if k < |s.calls| && s.calls[k].Failing? then Release(s, k, s.calls[k].id, Threw) else s
    case Connected(byLoop) =>
      s.(sockets := s.sockets + [Socket(true, false, [], [], [], [], 0, false)], codec := Some(|s.sockets|),
         reconnecting := s.reconnecting && !byLoop)
    case Closed(c) =>
      if c < |s.sockets|
      then s.(sockets := s.sockets[c := s.sockets[c].(connected := false, dead := true)], codec := None,
              reconnecting := s.reconnecting || s.reconnectOpts)
      else s
    case Disconnect => s.(codec := None)
    case GiveUp => s.(reconnecting := false)
  }

  function Run(reconnectOpts: bool, steps: seq<Step>): Client {
    if steps == [] then New(reconnectOpts)
    else Apply(Run(reconnectOpts, steps[..|steps| - 1]), steps[|steps| - 1])
  }

  // ---------------------------------------------------------------- the invariant

  predicate InFlight(pc: Pc) {
    pc.Sending? || pc.Receiving? || pc.Failing?
  }

  /** The flag is set exactly while one call is in flight, and never two are. */
  ghost predicate SingleFlight(s: Client) {
    && (s.callInFlight <==> exists k :: 0 <= k < |s.calls| && InFlight(s.calls[k]))
    && (forall j, k | 0 <= j < |s.calls| && 0 <= k < |s.calls| ::
          InFlight(s.calls[j]) && InFlight(s.calls[k]) ==> j == k)
  }

  /** What was accepted is whole frames and then at most a cut one. */
  ghost predicate WholeFrames(sock: Socket) {
    && AllLegal(sock.frames) && sock.written == Stream(sock.frames) + sock.tail
    && (sock.tail == [] || exists payload :: Legal(payload) && StrictPrefix(sock.tail, Frame(payload)))
  }

  /** Requests begin in the order of their ids. */
  ghost predicate IdsIncrease(begun: seq<Request>, next: nat) {
    && (forall i, j :: 0 <= i < j < |begun| ==> begun[i].id < begun[j].id)
    && (forall i :: 0 <= i < |begun| ==> begun[i].id < next)
  }

  /** The whole frames are those of the first requests that were begun. */
  ghost predicate FramesAreRequests(frames: seq<bytes>, begun: seq<Request>) {
    && |frames| <= |begun|
    && forall i :: 0 <= i < |frames| ==> frames[i] == begun[i].payload
  }

  ghost predicate Sockets(s: Client) {
    forall c :: 0 <= c < |s.sockets| ==>
      && WholeFrames(s.sockets[c]) && IdsIncrease(s.sockets[c].begun, s.nextRequestId)
      && FramesAreRequests(s.sockets[c].frames, s.sockets[c].begun)
      && (!s.sockets[c].connected ==> s.sockets[c].dead)
  }

  predicate WritesTo(pc: Pc, c: nat) {
    pc.Sending? && pc.c == c
  }

  /** A request was begun and not written whole. */
  predicate Unfinished(sock: Socket) {
    sock.tail != [] || |sock.frames| < |sock.begun|
  }

  /** Only the call that writes to a live socket can have left a frame unfinished on it. */
  ghost predicate Tails(s: Client) {
    forall c :: 0 <= c < |s.sockets| && !s.sockets[c].dead && Unfinished(s.sockets[c]) ==>
      exists k :: 0 <= k < |s.calls| && WritesTo(s.calls[k], c)
  }

  ghost predicate WriterOk(s: Client, pc: Pc) {
    pc.Sending? ==>
      && pc.c < |s.sockets| && Legal(pc.payload) && pc.done < |Frame(pc.payload)|
      && (!s.sockets[pc.c].dead ==> Midway(s.sockets[pc.c], pc))
  }

  /** The socket holds `done` bytes of the frame of the request that was begun last. */
  predicate Midway(sock: Socket, pc: Pc)
    requires pc.Sending? && Legal(pc.payload) && pc.done <= |Frame(pc.payload)|
  {
    && sock.tail == Frame(pc.payload)[..pc.done]
    && |sock.begun| == |sock.frames| + 1 && sock.begun[|sock.frames|] == Request(pc.id, pc.payload)
  }

  ghost predicate Writers(s: Client) {
    forall k :: 0 <= k < |s.calls| ==> WriterOk(s, s.calls[k])
  }

  ghost predicate Inv(s: Client) {
    SingleFlight(s) && Sockets(s) && Tails(s) && Writers(s)
  }

  // ---------------------------------------------------------------- every step keeps it

  /** No call is in flight, so no live socket has an unfinished frame. */
  lemma IdleTails(s: Client, c: nat)
    requires Inv(s) && !s.callInFlight && c < |s.sockets| && !s.sockets[c].dead
    ensures !Unfinished(s.sockets[c])
  {
  }

  function TakeOff(s: Client, k: nat, pc: Pc, c: nat, sock: Socket): Client
    requires k < |s.calls| && c < |s.sockets|
  {
    s.(nextRequestId := s.nextRequestId + 1, callInFlight := true,
       calls := s.calls[k := pc], sockets := s.sockets[c := sock])
  }

  /** A call takes off: it sets the flag and, unless it fails at once, starts a frame on socket `c`. */
  ghost predicate TakesOff(s: Client, k: nat, pc: Pc, c: nat, sock: Socket) {
    && Inv(s) && !s.callInFlight && k < |s.calls| && c < |s.sockets|
    && if pc.Failing? then sock == s.sockets[c]
       else && pc.Sending? && pc.c == c && Legal(pc.payload) && pc.done == 0 && pc.id == s.nextRequestId
            && sock == s.sockets[c].(begun := s.sockets[c].begun + [Request(pc.id, pc.payload)])
  }

  lemma TakeOffTails(s: Client, k: nat, pc: Pc, c: nat, sock: Socket)
    requires TakesOff(s, k, pc, c, sock)
    ensures Tails(TakeOff(s, k, pc, c, sock))
  {
    var s1 := TakeOff(s, k, pc, c, sock);
    forall d | 0 <= d < |s.sockets| && !s.sockets[d].dead ensures !Unfinished(s.sockets[d]) {
      IdleTails(s, d);
    }
    if pc.Sending? {
      assert WritesTo(s1.calls[k], c);
    }
  }

  lemma TakeOffSockets(s: Client, k: nat, pc: Pc, c: nat, sock: Socket)
    requires TakesOff(s, k, pc, c, sock)
    ensures Sockets(TakeOff(s, k, pc, c, sock))
  {
    hide SingleFlight, Tails, Writers, Stream;
  }

  lemma TakeOffWriters(s: Client, k: nat, pc: Pc, c: nat, sock: Socket)
    requires TakesOff(s, k, pc, c, sock)
    ensures Writers(TakeOff(s, k, pc, c, sock))
  {
    var s1 := TakeOff(s, k, pc, c, sock);
    forall j | 0 <= j < |s1.calls| ensures WriterOk(s1, s1.calls[j]) {
      if j != k {
        assert !InFlight(s.calls[j]);
      } else if !s.sockets[c].dead {
        IdleTails(s, c);
      }
    }
  }

  lemma FlightStarts(s: Client, k: nat, pc: Pc, c: nat, sock: Socket)
    requires TakesOff(s, k, pc, c, sock)
    ensures Inv(TakeOff(s, k, pc, c, sock))
  {
    assert InFlight(TakeOff(s, k, pc, c, sock).calls[k]);
    TakeOffTails(s, k, pc, c, sock);
    TakeOffSockets(s, k, pc, c, sock);
    TakeOffWriters(s, k, pc, c, sock);
  }

  lemma RefusedKeeps(s: Client, k: nat)
    requires Inv(s) && k < |s.calls| && !InFlight(s.calls[k])
    ensures Inv(Refuse(s, k))
  {
    TailsMove(s, Refuse(s, k), k);
    Grounded(s, k);
  }

  lemma ThrowsKeeps(s: Client, k: nat, c: nat)
    requires Inv(s) && !s.callInFlight && k < |s.calls| && c < |s.sockets|
    ensures Inv(Throws(s, k))
  {
    FlightStarts(s, k, Failing(s.nextRequestId), c, s.sockets[c]);
    assert s.sockets[c := s.sockets[c]] == s.sockets;
  }

  lemma EnterKeeps(s: Client, k: nat, payload: bytes)
    requires Inv(s) && k < |s.calls| && !InFlight(s.calls[k])
    ensures Inv(Enter(s, k, payload))
  {
    if s.codec.None? || s.codec.value >= |s.sockets| || s.callInFlight {
      RefusedKeeps(s, k);
    } else {
      var c := s.codec.value;
      if !Legal(payload) || !s.sockets[c].connected {
        ThrowsKeeps(s, k, c);
      } else {
        BeginsKeeps(s, k, c, payload);
      }
    }
  }

  lemma BeginsKeeps(s: Client, k: nat, c: nat, payload: bytes)
    requires Inv(s) && !s.callInFlight && k < |s.calls| && c < |s.sockets| && Legal(payload)
    ensures Inv(Begin(s, k, c, payload))
  {
    FlightStarts(s, k, Sending(s.nextRequestId, c, payload, 0), c,
                 s.sockets[c].(begun := s.sockets[c].begun + [Request(s.nextRequestId, payload)]));
  }

  /** A call that is not in flight throws. */
  lemma Grounded(s: Client, k: nat)
    requires SingleFlight(s) && k < |s.calls| && !InFlight(s.calls[k])
    ensures SingleFlight(s.(calls := s.calls[k := Settled]))
  {
    var s1 := s.(calls := s.calls[k := Settled]);
    if j :| 0 <= j < |s.calls| && InFlight(s.calls[j]) {
      assert InFlight(s1.calls[j]);
    }
  }

  /** Call `k`, which was not writing, moves; sockets keep their bytes. */
  lemma TailsMove(s: Client, s1: Client, k: nat)
    requires Tails(s) && k < |s.calls| == |s1.calls| && !s.calls[k].Sending?
    requires forall j :: 0 <= j < |s.calls| && j != k ==> s1.calls[j] == s.calls[j]
    requires |s1.sockets| == |s.sockets|
    requires forall c :: 0 <= c < |s.sockets| ==>
               && s1.sockets[c].dead == s.sockets[c].dead && Unfinished(s1.sockets[c]) == Unfinished(s.sockets[c])
    ensures Tails(s1)
  {
    forall c | 0 <= c < |s1.sockets| && !s1.sockets[c].dead && Unfinished(s1.sockets[c])
      ensures exists j :: 0 <= j < |s1.calls| && WritesTo(s1.calls[j], c)
    {
      var j :| 0 <= j < |s.calls| && WritesTo(s.calls[j], c);
      assert WritesTo(s1.calls[j], c);
    }
  }

  lemma CallKeeps(s: Client, payload: bytes)
    requires Inv(s)
    ensures Inv(Apply(s, Call(payload)))
  {
    var s1, s2 := s.(calls := s.calls + [Settled]), s.(calls := s.calls + [Waiting]);
    AddCall(s, s1, Settled);
    AddCall(s, s2, Waiting);
    EnterKeeps(s1, |s.calls|, payload);
  }

  lemma AddCall(s: Client, s1: Client, pc: Pc)
    requires Inv(s) && !InFlight(pc) && s1 == s.(calls := s.calls + [pc])
    ensures Inv(s1)
  {
    forall c | 0 <= c < |s1.sockets| && !s1.sockets[c].dead && Unfinished(s1.sockets[c])
      ensures exists j :: 0 <= j < |s1.calls| && WritesTo(s1.calls[j], c)
    {
      var j :| 0 <= j < |s.calls| && WritesTo(s.calls[j], c);
      assert WritesTo(s1.calls[j], c);
    }
    if k :| 0 <= k < |s.calls| && InFlight(s.calls[k]) {
      assert InFlight(s1.calls[k]);
    }
  }

  lemma TakeMore(sock: Socket, payload: bytes, i: nat, j: nat)
    requires WholeFrames(sock) && Legal(payload) && i < j < |Frame(payload)| && sock.tail == Frame(payload)[..i]
    ensures WholeFrames(Take(sock, payload, i, j)) && Take(sock, payload, i, j).tail == Frame(payload)[..j]
  {
    var f := Frame(payload);
    assert f[..i] + f[i..j] == f[..j];
    assert StrictPrefix(f[..j], f);
    Associative(Stream(sock.frames), f[..i], f[i..j]);
  }

  lemma TakeLast(sock: Socket, payload: bytes, i: nat)
    requires WholeFrames(sock) && Legal(payload) && i < |Frame(payload)| && sock.tail == Frame(payload)[..i]
    ensures WholeFrames(Take(sock, payload, i, |Frame(payload)|))
  {
    var f := Frame(payload);
    assert f[..i] + f[i..|f|] == f;
    StreamSnoc(sock.frames, payload);
    Associative(Stream(sock.frames), f[..i], f[i..|f|]);
    assert Stream(sock.frames + [payload]) + [] == Stream(sock.frames + [payload]);
  }

  /** The one call in flight moves on, and with it the socket it writes to. */
  lemma FlightMoves(s: Client, k: nat, pc: Pc, c: nat, sock: Socket)
    requires Inv(s) && k < |s.calls| && c < |s.sockets| && WritesTo(s.calls[k], c) && InFlight(pc)
    requires WholeFrames(sock) && sock.begun == s.sockets[c].begun && (!sock.connected ==> sock.dead)
    requires FramesAreRequests(sock.frames, sock.begun)
    requires pc.Sending? ==> pc.c == c && Legal(pc.payload) && pc.done < |Frame(pc.payload)|
                             && (!sock.dead ==> Midway(sock, pc))
    requires !sock.dead && Unfinished(sock) ==> pc.Sending?
    ensures Inv(s.(calls := s.calls[k := pc], sockets := s.sockets[c := sock]))
  {
    var s1 := s.(calls := s.calls[k := pc], sockets := s.sockets[c := sock]);
    assert InFlight(s.calls[k]) && InFlight(s1.calls[k]);
    forall d | 0 <= d < |s1.sockets| && !s1.sockets[d].dead && Unfinished(s1.sockets[d])
      ensures exists j :: 0 <= j < |s1.calls| && WritesTo(s1.calls[j], d)
    {
      if d != c {
        var j :| 0 <= j < |s.calls| && WritesTo(s.calls[j], d);
        assert InFlight(s.calls[j]);
      } else {
        assert WritesTo(s1.calls[k], c);
      }
    }
  }

  lemma WriterKnown(s: Client, k: nat)
    requires Inv(s) && k < |s.calls| && s.calls[k].Sending?
    ensures var Sending(_, c, payload, i) := s.calls[k];
            && c < |s.sockets| && Legal(payload) && i < |Frame(payload)|
            && WholeFrames(s.sockets[c]) && (!s.sockets[c].connected ==> s.sockets[c].dead)
            && FramesAreRequests(s.sockets[c].frames, s.sockets[c].begun)
            && (!s.sockets[c].dead ==> Midway(s.sockets[c], s.calls[k]))
  {
    assert WriterOk(s, s.calls[k]);
  }

  lemma AbandonKeeps(s: Client, k: nat)
    requires Inv(s) && Writing(s, k) && !s.sockets[s.calls[k].c].connected
    ensures Inv(Abandon(s, k))
  {
    WriterKnown(s, k);
    var c := s.calls[k].c;
    FlightMoves(s, k, Failing(s.calls[k].id), c, s.sockets[c]);
    assert s.sockets[c := s.sockets[c]] == s.sockets;
  }

  lemma PartKeeps(s: Client, k: nat, n: nat)
    requires Inv(s) && Writing(s, k) && !s.sockets[s.calls[k].c].dead
    requires n >= 1 && s.calls[k].done + n < |Frame(s.calls[k].payload)|
    ensures Inv(SendPart(s, k, n))
  {
    WriterKnown(s, k);
    var Sending(id, c, payload, i) := s.calls[k];
    TakeMore(s.sockets[c], payload, i, i + n);
    FlightMoves(s, k, Sending(id, c, payload, i + n), c, Take(s.sockets[c], payload, i, i + n));
  }

  lemma LastKeeps(s: Client, k: nat)
    requires Inv(s) && Writing(s, k) && !s.sockets[s.calls[k].c].dead
    ensures Inv(SendLast(s, k))
  {
    WriterKnown(s, k);
    var Sending(id, c, payload, i) := s.calls[k];
    TakeLast(s.sockets[c], payload, i);
    FlightMoves(s, k, Receiving(id, c), c, Take(s.sockets[c], payload, i, |Frame(payload)|));
  }

  lemma AcceptedKeeps(s: Client, k: nat, n: nat)
    requires Inv(s) && k < |s.calls| && s.calls[k].Sending?
    ensures Inv(Apply(s, Accepted(k, n)))
  {
    WriterKnown(s, k);
    var Sending(_, c, payload, i) := s.calls[k];
    var f := Frame(payload);
    if i == 4 < |f| && !s.sockets[c].connected {
      AbandonKeeps(s, k);
    } else if !s.sockets[c].dead && n >= 1 && i + n <= SendLimit(f, i) {
      if i + n < |f| {
        PartKeeps(s, k, n);
      } else {
        LastKeeps(s, k);
      }
    }
  }

  lemma WriteFailsKeeps(s: Client, k: nat)
    requires Inv(s) && k < |s.calls| && s.calls[k].Sending?
    ensures Inv(Apply(s, WriteFails(k)))
  {
    assert WriterOk(s, s.calls[k]);
    var c := s.calls[k].c;
    FlightMoves(s, k, Failing(s.calls[k].id), c, s.sockets[c].(dead := true));
  }

  lemma ReleaseKeeps(s: Client, k: nat, id: nat, o: Outcome)
    requires Inv(s) && k < |s.calls| && (s.calls[k].Receiving? || s.calls[k].Failing?)
    ensures Inv(Release(s, k, id, o))
  {
    assert InFlight(s.calls[k]);
    TailsMove(s, Release(s, k, id, o), k);
  }

  lemma ReadsKeep(s: Client, c: nat, taken: nat, astray: bool)
    requires Inv(s) && c < |s.sockets|
    ensures Inv(SetReads(s, c, taken, astray))
  {
    var s1 := SetReads(s, c, taken, astray);
    forall k | 0 <= k < |s1.calls| ensures WriterOk(s1, s1.calls[k]) {
      assert WriterOk(s, s.calls[k]);
    }
    forall d | 0 <= d < |s1.sockets| && !s1.sockets[d].dead && Unfinished(s1.sockets[d])
      ensures exists j :: 0 <= j < |s1.calls| && WritesTo(s1.calls[j], d)
    {
      assert Unfinished(s.sockets[d]);
    }
  }

  lemma LeaveKeeps(s: Client, k: nat, o: Outcome)
    requires Inv(s) && Awaiting(s, k)
    ensures Inv(Leave(s, k, o))
  {
    hide Inv;
    var Receiving(id, c) := s.calls[k];
    ReadsKeep(s, c, s.sockets[c].taken, true);
    ReleaseKeeps(SetReads(s, c, s.sockets[c].taken, true), k, id, o);
  }

  lemma TakeResponseKeeps(s: Client, k: nat)
    requires Inv(s) && Awaiting(s, k)
    ensures Inv(TakeResponse(s, k))
  {
    hide Inv;
    var Receiving(id, c) := s.calls[k];
    var sock := s.sockets[c];
    if sock.taken < |sock.frames| && sock.taken < |sock.begun| {
      ReadsKeep(s, c, sock.taken + 1, sock.astray);
      ReleaseKeeps(SetReads(s, c, sock.taken + 1, sock.astray), k, id,
                   if sock.begun[sock.taken].id == id then Returned(c, sock.taken) else Mismatch(c, sock.taken));
    }
  }

  lemma ConnectedKeeps(s: Client, byLoop: bool)
    requires Inv(s)
    ensures Inv(Apply(s, Connected(byLoop)))
  {
    var s1 := Apply(s, Connected(byLoop));
    assert Stream([]) + [] == [];
    forall k | 0 <= k < |s1.calls| ensures WriterOk(s1, s1.calls[k]) {
      assert WriterOk(s, s.calls[k]);
    }
    assert Tails(s1);
  }

  lemma ClosedKeeps(s: Client, c: nat)
    requires Inv(s)
    ensures Inv(Apply(s, Closed(c)))
  {
    if c < |s.sockets| {
      ClosedSockets(s, c);
      ClosedWriters(s, c);
    }
  }

  lemma ClosedSockets(s: Client, c: nat)
    requires Sockets(s) && Tails(s) && c < |s.sockets|
    ensures Sockets(Apply(s, Closed(c))) && Tails(Apply(s, Closed(c)))
  {
    var s1 := Apply(s, Closed(c));
    assert forall d :: 0 <= d < |s.sockets| && d != c ==> s1.sockets[d] == s.sockets[d];
    assert s1.sockets[c] == s.sockets[c].(connected := false, dead := true);
  }

  lemma ClosedWriters(s: Client, c: nat)
    requires Writers(s) && c < |s.sockets|
    ensures Writers(Apply(s, Closed(c)))
  {
    var s1 := Apply(s, Closed(c));
    forall k | 0 <= k < |s1.calls| ensures WriterOk(s1, s1.calls[k]) {
      assert WriterOk(s, s.calls[k]);
    }
  }

  lemma StepKeeps(s: Client, step: Step)
    requires Inv(s)
    ensures Inv(Apply(s, step))
  {
    hide Inv, Enter, TakeResponse, Leave, Release;
    match step
    case Call(payload) => CallKeeps(s, payload);
    case Resume(k, payload) =>
      if k < |s.calls| && s.calls[k].Waiting? && !(s.codec.None? && s.reconnecting) { EnterKeeps(s, k, payload); }
    case Accepted(k, n) => if k < |s.calls| && s.calls[k].Sending? { AcceptedKeeps(s, k, n); }
    case WriteFails(k) => if k < |s.calls| && s.calls[k].Sending? { WriteFailsKeeps(s, k); }
    case Response(k) => if Awaiting(s, k) { TakeResponseKeeps(s, k); }
    case AstrayResponse(k) => if Awaiting(s, k) { LeaveKeeps(s, k, Unknown(s.calls[k].c)); }
    case BadResponse(k) => if Awaiting(s, k) { LeaveKeeps(s, k, Threw); }
    case RecvRejected(k) => if Awaiting(s, k) { ReleaseKeeps(s, k, s.calls[k].id, Threw); }
    case Timeout(k) => if Awaiting(s, k) { LeaveKeeps(s, k, Threw); }
    case SendRejected(k) =>
      if k < |s.calls| && s.calls[k].Failing? { ReleaseKeeps(s, k, s.calls[k].id, Threw); }
    case Connected(byLoop) => ConnectedKeeps(s, byLoop);
    case Closed(c) => ClosedKeeps(s, c);
    case Disconnect => HandlesAside(s, step);
    case GiveUp => HandlesAside(s, step);
  }

  lemma HandlesAside(s: Client, step: Step)
    requires Inv(s) && (step.Disconnect? || step.GiveUp?)
    ensures Inv(Apply(s, step))
  {
  }

  lemma {:induction false} RunKeeps(reconnectOpts: bool, steps: seq<Step>)
    ensures Inv(Run(reconnectOpts, steps))
    decreases |steps|
  {
    if steps != [] {
      RunKeeps(reconnectOpts, steps[..|steps| - 1]);
      StepKeeps(Run(reconnectOpts, steps[..|steps| - 1]), steps[|steps| - 1]);
    }
  }

  // ---------------------------------------------------------------- the main results

  /** At most one call is in flight, in every interleaving of calls, reconnects and timeouts. */
  lemma OneCallInFlight(reconnectOpts: bool, steps: seq<Step>, j: nat, k: nat)
    requires j < |Run(reconnectOpts, steps).calls| && k < |Run(reconnectOpts, steps).calls|
    requires InFlight(Run(reconnectOpts, steps).calls[j]) && InFlight(Run(reconnectOpts, steps).calls[k])
    ensures j == k && Run(reconnectOpts, steps).callInFlight
  {
    RunKeeps(reconnectOpts, steps);
  }

  /** What is written to a socket is whole frames and after them at most one cut frame, so that the
      server parses exactly the whole ones; they are the frames of the first requests begun on it, in
      the order of their ids. */
  lemma WritesAreWholeFrames(reconnectOpts: bool, steps: seq<Step>, c: nat)
    requires c < |Run(reconnectOpts, steps).sockets|
    ensures var sock := Run(reconnectOpts, steps).sockets[c];
            && WholeFrames(sock)
            && ParseAll(sock.written) == Parse(sock.frames, sock.tail, false)
            && FramesAreRequests(sock.frames, sock.begun)
            && IdsIncrease(sock.begun, Run(reconnectOpts, steps).nextRequestId)
  {
    RunKeeps(reconnectOpts, steps);
    var sock := Run(reconnectOpts, steps).sockets[c];
    ParseStream(sock.frames, sock.tail);
    CutIsIncomplete(sock);
    assert sock.frames + [] == sock.frames;
  }

  lemma CutIsIncomplete(sock: Socket)
    requires WholeFrames(sock)
    ensures ParseAll(sock.tail) == Parse([], sock.tail, false)
  {
    if sock.tail != [] {
      var payload :| Legal(payload) && StrictPrefix(sock.tail, Frame(payload));
      CutFrameIncomplete(payload, |sock.tail|);
    }
  }
}
