/** The outcome table cannot be sharpened: from every state in which the client is connected, the lock
    is free and the server reads, some run reaches each outcome that the table allows: a response, a
    send error, and a receive error with one dispatch and with none. */
module RpcWitness {
  import opened Bytes
  import opened Errors
  import opened Frames
  import opened Envelopes
  import opened Dispatcher
  import opened CppCodec
  import Exchanges
  import opened RpcConn
  import opened RpcRun
  import opened RpcBase
  import opened RpcIds
  import opened RpcSteps
  import opened RpcTheorems

  /** Thread `t` can call on a connection whose handler is waiting for requests. */
  ghost predicate Ready(cfg: Config, s: State, t: nat) {
    && Inv(cfg, s) && Free(s, t) && s.threads[t].Idle? && CanBegin(s)
    && s.conns[s.codec.value].handler.Reading?
  }

  /** The envelope is not empty on the wire, fits in a frame, and is accepted by the decoder. */
  predicate Fits(wire: Wire, e: Envelope) {
    wire.enc(e) != [] && Legal(wire.enc(e)) && wire.dec(wire.enc(e)) == Some(e)
  }

  lemma ReadyConn(cfg: Config, s: State, t: nat)
    requires Ready(cfg, s, t)
    ensures Free(s, t) && CanBegin(s) && Quiet(s.conns[s.codec.value]) && s.conns[s.codec.value].handler.Reading?
  {
  }

  lemma TwoSteps(cfg: Config, s: State, a: Step, b: Step)
    ensures RunFrom(cfg, s, [a, b]) == Apply(cfg, Apply(cfg, s, a), b)
  {
    assert [a, b][..1] == [a] && [a][..0] == [];
    assert RunFrom(cfg, s, [a]) == Apply(cfg, RunFrom(cfg, s, []), a);
  }

  lemma OneStep(cfg: Config, s: State, a: Step)
    ensures RunFrom(cfg, s, [a]) == Apply(cfg, s, a)
  {
    assert RunFrom(cfg, s, [a]) == Apply(cfg, RunFrom(cfg, s, [a][..0]), a);
  }

  lemma SetPcTwice(s: State, t: nat, a: Pc, b: Pc)
    requires t < |s.threads|
    ensures SetPc(SetPc(s, t, a), t, b) == SetPc(s, t, b) && SetPc(s, t, s.threads[t]) == s
    ensures SetPc(s, t, a).threads[t] == a
  {
    assert s.threads[t := a][t := b] == s.threads[t := b];
    assert s.threads[t := s.threads[t]] == s.threads;
  }

  // ---------------------------------------------------------------- the pieces of a run

  /** The frame of the request has been accepted whole and the caller waits for the response. */
  function Asked(cfg: Config, s: State, t: nat, call: Call): State
    requires t < |s.threads| && CanBegin(s) && Legal(cfg.wire.enc(NewRequest(s, call)))
  {
    var r, c := NewRequest(s, call), s.codec.value;
    var k := s.conns[c];
    s.(nextId := s.nextId + 1, issued := s.issued[s.nextId := r], owner := Some(t),
       threads := s.threads[t := Receiving(r, [])],
       conns := s.conns[c := k.(up := FrameOf(cfg.wire, r), begun := k.begun + [r], whole := k.whole + [r])])
  }

  lemma EntersCall(cfg: Config, s: State, t: nat, call: Call)
    requires Free(s, t) && s.threads[t] == Entering(call) && CanBegin(s)
    ensures Apply(cfg, s, Enter(t)) == BeginCall(cfg, s, t, call)
  {
  }

  /** Where the thread stood before it sends does not matter. */
  lemma BeginsAlike(cfg: Config, s: State, t: nat, call: Call, pc: Pc)
    requires t < |s.threads| && CanBegin(s) && Legal(cfg.wire.enc(NewRequest(s, call)))
    ensures BeginCall(cfg, SetPc(s, t, pc), t, call) == BeginCall(cfg, s, t, call)
  {
    var sending := Sending(NewRequest(s, call), false, 0);
    assert s.threads[t := pc][t := sending] == s.threads[t := sending];
  }

  lemma Enters(cfg: Config, s: State, t: nat, call: Call)
    requires Ready(cfg, s, t) && Legal(cfg.wire.enc(NewRequest(s, call)))
    ensures var r := NewRequest(s, call);
            RunFrom(cfg, s, [StartCall(t, call), Enter(t)]) == StartSend(cfg, Issue(s, r), t, r, false)
  {
    TwoSteps(cfg, s, StartCall(t, call), Enter(t));
    EntersCall(cfg, SetPc(s, t, Entering(call)), t, call);
    BeginsAlike(cfg, s, t, call, Entering(call));
  }

  /** The first byte of the payload is about to be written. */
  lemma SendsHeader(cfg: Config, s: State, t: nat, r: Envelope, retry: bool, k: Conn)
    requires OnConn(s, t) && s.conns[s.codec.value] == k && s.threads[t] == Sending(r, retry, 0)
    requires k.up == [] && Fits(cfg.wire, r)
    ensures Apply(cfg, s, Send(t, 4))
         == SetPc(SetConn(s, s.codec.value, k.(up := FrameOf(cfg.wire, r)[..4])), t, Sending(r, retry, 4))
  {
    var f := FrameOf(cfg.wire, r);
    assert [] + f[0..4] == f[..4];
    assert Apply(cfg, s, Send(t, 4)) == Sent(cfg, s, t, 4);
  }

  lemma SendsPayload(cfg: Config, s: State, t: nat, r: Envelope, retry: bool, k: Conn)
    requires OnConn(s, t) && s.conns[s.codec.value] == k && s.threads[t] == Sending(r, retry, 4)
    requires Fits(cfg.wire, r) && k.up == FrameOf(cfg.wire, r)[..4]
    ensures Apply(cfg, s, Send(t, |cfg.wire.enc(r)|))
         == SetPc(SetConn(s, s.codec.value, k.(up := FrameOf(cfg.wire, r), whole := k.whole + [r])),
                  t, Receiving(r, []))
  {
    var f := FrameOf(cfg.wire, r);
    assert f[..4] + f[4..|f|] == f;
    assert Apply(cfg, s, Send(t, |cfg.wire.enc(r)|)) == Sent(cfg, s, t, |cfg.wire.enc(r)|);
  }

  lemma SendsAll(cfg: Config, s: State, t: nat, r: Envelope, retry: bool, k: Conn)
    requires OnConn(s, t) && s.conns[s.codec.value] == k && s.threads[t] == Sending(r, retry, 0)
    requires k.up == [] && Fits(cfg.wire, r)
    ensures RunFrom(cfg, s, [Send(t, 4), Send(t, |cfg.wire.enc(r)|)])
         == SetPc(SetConn(s, s.codec.value, k.(up := FrameOf(cfg.wire, r), whole := k.whole + [r])),
                  t, Receiving(r, []))
  {
    var c := s.codec.value;
    var k1 := k.(up := FrameOf(cfg.wire, r)[..4]);
    var k2 := k.(up := FrameOf(cfg.wire, r), whole := k.whole + [r]);
    TwoSteps(cfg, s, Send(t, 4), Send(t, |cfg.wire.enc(r)|));
    SendsHeader(cfg, s, t, r, retry, k);
    SendsPayload(cfg, SetPc(SetConn(s, c, k1), t, Sending(r, retry, 4)), t, r, retry, k1);
    SetTwice(s, c, k1, k2);
    assert s.threads[t := Sending(r, retry, 4)][t := Receiving(r, [])] == s.threads[t := Receiving(r, [])];
  }

  lemma Asks(cfg: Config, s: State, t: nat, call: Call) returns (steps: seq<Step>)
    requires Ready(cfg, s, t) && Fits(cfg.wire, NewRequest(s, call))
    ensures RunFrom(cfg, s, steps) == Asked(cfg, s, t, call)
  {
    var r, c := NewRequest(s, call), s.codec.value;
    var k := s.conns[c];
    var a, b := [StartCall(t, call), Enter(t)], [Send(t, 4), Send(t, |cfg.wire.enc(r)|)];
    var s1 := StartSend(cfg, Issue(s, r), t, r, false);
    assert Quiet(k);
    Enters(cfg, s, t, call);
    SendsAll(cfg, s1, t, r, false, Begin(k, r));
    RunAppend(cfg, s, a, b);
    steps := a + b;
    assert s1.threads[t := Receiving(r, [])] == s.threads[t := Receiving(r, [])];
    var k2 := k.(up := FrameOf(cfg.wire, r), begun := k.begun + [r], whole := k.whole + [r]);
    assert s1.conns[c := k2] == s.conns[c := k2];
  }

  /** The handler reads a frame in two pieces. */
  lemma HandlerReadsFrame(k: Conn, e: bytes)
    requires k.handler.Reading? && k.part == [] && e != [] && Legal(e) && k.up == Frame(e)
    ensures CanRead(k, 4) && CanRead(HandlerRead(k, 4), |e|)
    ensures HandlerRead(HandlerRead(k, 4), |e|) == k.(part := Frame(e), up := [])
    ensures ParseOne(Frame(e)) == Complete(e, [])
  {
    var f := Frame(e);
    FrameSplit(e);
    assert [] + f[..4] == f[..4] && f[..4][..4] == f[..4];
    assert f[..4] + f[4..][..|e|] == f && f[4..][|e|..] == [];
    assert f + [] == f;
    ParseFrame(e, []);
  }

  /** The connection once the server has dispatched `r`. */
  function AfterDispatch(cfg: Config, k: Conn, r: Envelope, h: HandlerResult): Conn {
    var response := Dispatch(cfg.services, r, h);
    var reply := cfg.wire.enc(response);
    k.(up := [], served := k.served + [Exchanges.Exchange(r, response)],
       handler := if Legal(reply) then Replying(Frame(reply), 0) else Gone)
  }

  lemma DispatchesFrame(cfg: Config, s: State, c: nat, k: Conn, r: Envelope, h: HandlerResult)
    requires Fits(cfg.wire, r) && c < |s.conns|
    requires s.conns[c] == k.(part := FrameOf(cfg.wire, r), up := []) && k.part == []
    requires k.handler.Reading? && ParseOne(FrameOf(cfg.wire, r)) == Complete(cfg.wire.enc(r), [])
    ensures Apply(cfg, s, ServerDispatch(c, h)) == SetConn(s, c, AfterDispatch(cfg, k, r, h))
  {
  }

  /** The server reads a request, dispatches it and is about to send the response. */
  lemma ServesRequest(cfg: Config, s: State, c: nat, r: Envelope, h: HandlerResult) returns (steps: seq<Step>)
    requires c < |s.conns| && Fits(cfg.wire, r)
    requires s.conns[c].handler.Reading? && s.conns[c].part == [] && s.conns[c].up == FrameOf(cfg.wire, r)
    ensures RunFrom(cfg, s, steps) == SetConn(s, c, AfterDispatch(cfg, s.conns[c], r, h))
  {
    var k, e := s.conns[c], cfg.wire.enc(r);
    HandlerReadsFrame(k, e);
    var k1, k2 := HandlerRead(k, 4), k.(part := Frame(e), up := []);
    SetTwice(s, c, k1, k2);
    SetTwice(s, c, k2, AfterDispatch(cfg, k, r, h));
    TwoSteps(cfg, s, ServerRead(c, 4), ServerRead(c, |e|));
    DispatchesFrame(cfg, SetConn(s, c, k2), c, k, r, h);
    OneStep(cfg, SetConn(s, c, k2), ServerDispatch(c, h));
    RunAppend(cfg, s, [ServerRead(c, 4), ServerRead(c, |e|)], [ServerDispatch(c, h)]);
    steps := [ServerRead(c, 4), ServerRead(c, |e|)] + [ServerDispatch(c, h)];
  }

  lemma SetTwice(s: State, c: nat, a: Conn, b: Conn)
    requires c < |s.conns|
    ensures SetConn(SetConn(s, c, a), c, b) == SetConn(s, c, b) && SetConn(s, c, a).conns[c] == a
  {
    assert s.conns[c := a][c := b] == s.conns[c := b];
  }

  lemma Writes(cfg: Config, s: State, c: nat, reply: bytes) returns (steps: seq<Step>)
    requires c < |s.conns| && reply != [] && Legal(reply)
    requires s.conns[c].handler == Replying(Frame(reply), 0) && s.conns[c].down == []
    ensures RunFrom(cfg, s, steps) == SetConn(s, c, s.conns[c].(down := Frame(reply), handler := Reading))
  {
    var k, f := s.conns[c], Frame(reply);
    var k1 := HandlerWrite(k, 4);
    var k2 := HandlerWrite(k1, |reply|);
    assert [] + f[0..4] + f[4..|f|] == f;
    SetTwice(s, c, k1, k2);
    TwoSteps(cfg, s, ServerWrite(c, 4), ServerWrite(c, |reply|));
    steps := [ServerWrite(c, 4), ServerWrite(c, |reply|)];
  }

  lemma ReadsHeader(cfg: Config, s: State, t: nat, r: Envelope, e: bytes)
    requires OnConn(s, t) && s.threads[t] == Receiving(r, []) && e != [] && Legal(e)
    requires s.conns[s.codec.value].down == Frame(e)
    ensures Apply(cfg, s, Recv(t, 4))
         == SetPc(SetConn(s, s.codec.value, s.conns[s.codec.value].(down := e)), t, Receiving(r, Frame(e)[..4]))
  {
    var f := Frame(e);
    FrameSplit(e);
    assert [] + f[..4] == f[..4] && f[..4][..4] == f[..4];
  }

  lemma ReadsPayload(cfg: Config, s: State, t: nat, r: Envelope, response: Envelope)
    requires OnConn(s, t) && Fits(cfg.wire, response) && response.requestId == r.requestId
    requires s.threads[t] == Receiving(r, FrameOf(cfg.wire, response)[..4])
    requires s.conns[s.codec.value].down == cfg.wire.enc(response)
    ensures var s1 := Apply(cfg, s, Recv(t, |cfg.wire.enc(response)|));
            && r.requestId in s1.results && s1.results[r.requestId] == Success(response)
            && s1.issued == s.issued && SameServed(s.conns, s1.conns)
  {
    var e, f := cfg.wire.enc(response), FrameOf(cfg.wire, response);
    FrameSplit(e);
    assert f[..4][..4] == f[..4];
    assert f[..4] + e[..|e|] == f + [];
    ParseFrame(e, []);
  }

  lemma Reads(cfg: Config, s: State, t: nat, r: Envelope, response: Envelope) returns (steps: seq<Step>)
    requires OnConn(s, t) && s.threads[t] == Receiving(r, []) && Fits(cfg.wire, response)
    requires response.requestId == r.requestId
    requires s.conns[s.codec.value].down == FrameOf(cfg.wire, response)
    ensures var s1 := RunFrom(cfg, s, steps);
            && r.requestId in s1.results && s1.results[r.requestId] == Success(response)
            && s1.issued == s.issued && SameServed(s.conns, s1.conns)
  {
    var c, e := s.codec.value, cfg.wire.enc(response);
    TwoSteps(cfg, s, Recv(t, 4), Recv(t, |e|));
    ReadsHeader(cfg, s, t, r, e);
    ReadsPayload(cfg, SetPc(SetConn(s, c, s.conns[c].(down := e)), t, Receiving(r, Frame(e)[..4])), t, r, response);
    steps := [Recv(t, 4), Recv(t, |e|)];
  }

  /** The receive fails, whatever the reason, and `call` returns the error. */
  lemma LosesResponse(cfg: Config, s: State, t: nat, r: Envelope, fault: Fault) returns (steps: seq<Step>)
    requires t < |s.threads| && s.threads[t] == Receiving(r, [])
    ensures var s1 := RunFrom(cfg, s, steps);
            && r.requestId in s1.results && s1.results[r.requestId] == RecvError(FaultError(fault))
            && SameServed(s.conns, s1.conns)
  {
    var a, b := RecvFails(t, fault), Notified(t);
    var s1 := Disconnected(s, t, r, RecvFailed(FaultError(fault)));
    TwoSteps(cfg, s, a, b);
    assert Apply(cfg, s, a) == s1;
    assert Apply(cfg, s1, b) == Finish(s1, t, r, RecvError(FaultError(fault)));
    DropGrown(s, After(FaultError(fault)));
    steps := [a, b];
  }

  // ---------------------------------------------------------------- bytes move in pieces of any size

  /** Any piece of the header, or of the payload, can be accepted, or read, by the other side: none of
      the runs depends on how the kernel splits the bytes. */
  lemma AnyPieceIsAccepted(cfg: Config, s: State, t: nat, n: nat)
    requires OnConn(s, t) && s.threads[t].Sending? && Legal(cfg.wire.enc(s.threads[t].request)) && n >= 1
    requires var Sending(r, _, done) := s.threads[t];
             done + n <= if done < 4 then 4 else 4 + |cfg.wire.enc(r)|
    ensures var s1, c, Sending(r, retry, done) := Apply(cfg, s, Send(t, n)), s.codec.value, s.threads[t];
            && |s1.conns| == |s.conns| && s1.conns[c].up == s.conns[c].up + FrameOf(cfg.wire, r)[done..done + n]
            && |s1.threads| == |s.threads|
            && s1.threads[t] == if done + n < 4 + |cfg.wire.enc(r)| then Sending(r, retry, done + n)
                                else Receiving(r, [])
  {
    hide Header;
    assert Apply(cfg, s, Send(t, n)) == Sent(cfg, s, t, n);
  }

  lemma AnyPieceIsRead(cfg: Config, s: State, c: nat, n: nat)
    requires c < |s.conns| && s.conns[c].handler.Reading? && 1 <= n <= |s.conns[c].up|
    requires var part := s.conns[c].part;
             ParseOne(part).Incomplete? && |part| + n <= if |part| < 4 then 4 else 4 + HeaderValue(part[..4])
    ensures var k, s1 := s.conns[c], Apply(cfg, s, ServerRead(c, n));
            s1 == SetConn(s, c, k.(part := k.part + k.up[..n], up := k.up[n..]))
  {
  }

  lemma AnyPieceIsWritten(cfg: Config, s: State, c: nat, n: nat)
    requires c < |s.conns| && s.conns[c].handler.Replying? && n >= 1
    requires var Replying(f, done) := s.conns[c].handler; |f| >= 4 && done + n <= if done < 4 then 4 else |f|
    ensures var k, s1 := s.conns[c], Apply(cfg, s, ServerWrite(c, n));
            var Replying(f, done) := k.handler;
            s1 == SetConn(s, c, k.(down := k.down + f[done..done + n],
                                   handler := if done + n < |f| then Replying(f, done + n) else Reading))
  {
  }

  lemma AnyPieceIsReceived(cfg: Config, s: State, t: nat, n: nat)
    requires OnConn(s, t) && s.threads[t].Receiving? && 1 <= n <= |s.conns[s.codec.value].down|
    requires var part := s.threads[t].part; |part| + n <= if |part| < 4 then 4 else 4 + HeaderValue(part[..4])
    requires ParseOne(s.threads[t].part + s.conns[s.codec.value].down[..n]).Incomplete?
    ensures var c, Receiving(r, part) := s.codec.value, s.threads[t];
            var k := s.conns[c];
            Apply(cfg, s, Recv(t, n))
              == SetPc(SetConn(s, c, k.(down := k.down[n..])), t, Receiving(r, part + k.down[..n]))
  {
  }

  // ---------------------------------------------------------------- main results

  /** An id that was not issued was never dispatched. */
  lemma NewIdUnserved(cfg: Config, s: State, c: nat)
    requires Inv(cfg, s) && c < |s.conns|
    ensures !Serves(s.conns[c].served, s.nextId)
  {
    if Serves(s.conns[c].served, s.nextId) {
      ServedWhole(cfg, s.conns[c], s.nextId);
      var i :| 0 <= i < |s.conns[c].whole| && s.conns[c].whole[i].requestId == s.nextId;
      WholeBegun(cfg, s.conns[c], i);
    }
  }

  /** The thread is about to write its request on a connection that carries nothing else and whose
      handler waits for requests. */
  predicate AboutToSend(s: State, t: nat, r: Envelope, retry: bool) {
    && OnConn(s, t) && s.threads[t] == Sending(r, retry, 0)
    && var k := s.conns[s.codec.value];
       k.up == [] && k.part == [] && k.down == [] && k.handler.Reading?
  }

  /** The call has returned `response`, and the last dispatch on connection `c` made it. */
  ghost predicate Answers(s1: State, s: State, r: Envelope, response: Envelope) {
    && s.codec.Some? && s.codec.value < |s.conns| && |s.conns| <= |s1.conns|
    && r.requestId in s1.results && s1.results[r.requestId] == Success(response)
    && s1.issued == s.issued
    && s1.conns[s.codec.value].served
       == s.conns[s.codec.value].served + [Exchanges.Exchange(r, response)]
  }

  /** From there on, if nothing fails, the call returns the response of its own handler run. */
  lemma Completes(cfg: Config, s: State, t: nat, r: Envelope, retry: bool, h: HandlerResult)
    returns (steps: seq<Step>)
    requires AboutToSend(s, t, r, retry) && Fits(cfg.wire, r) && Fits(cfg.wire, Dispatch(cfg.services, r, h))
    requires Dispatch(cfg.services, r, h).requestId == r.requestId
    ensures Answers(RunFrom(cfg, s, steps), s, r, Dispatch(cfg.services, r, h))
  {
    hide Dispatch;
    var c, response := s.codec.value, Dispatch(cfg.services, r, h);
    var k := s.conns[c];
    var sends := [Send(t, 4), Send(t, |cfg.wire.enc(r)|)];
    SendsAll(cfg, s, t, r, retry, k);
    var k1 := k.(up := FrameOf(cfg.wire, r), whole := k.whole + [r]);
    var s1 := SetPc(SetConn(s, c, k1), t, Receiving(r, []));
    var serves := ServesRequest(cfg, s1, c, r, h);
    var s2 := SetConn(s1, c, AfterDispatch(cfg, k1, r, h));
    var writes := Writes(cfg, s2, c, cfg.wire.enc(response));
    var s3 := SetConn(s2, c, s2.conns[c].(down := FrameOf(cfg.wire, response), handler := Reading));
    var receives := Reads(cfg, s3, t, r, response);
    RunAppend(cfg, s, sends, serves);
    RunAppend(cfg, s, sends + serves, writes);
    RunAppend(cfg, s, sends + serves + writes, receives);
    steps := sends + serves + writes + receives;
  }

  /** What the call with id `x` came to: its request was dispatched, once, and the caller has what that
      dispatch made of it. It is the handler's payload if the method it named is registered. */
  ghost predicate Succeeded(cfg: Config, s: State, x: nat, call: Call, h: HandlerResult) {
    var found := call.service in cfg.services && call.name in cfg.services[call.service];
    && x in s.results && s.results[x].Success?
    && Dispatches(s.conns, x) == 1
    && var e := s.results[x].response;
       && e.requestId == x
       && (e.kind == RESPONSE <==> found && h.Returns?)
       && (e.kind == ERROR <==> e.status != OK)
       && (e.status == NOT_FOUND <==> !found)
       && (e.status == INTERNAL <==> found && !h.Returns?)
       && e.payload == if found && h.Returns? then h.payload else []
  }

  lemma AnswersSucceed(cfg: Config, s1: State, s: State, call: Call, r: Envelope, h: HandlerResult)
    requires Inv(cfg, s1) && Answers(s1, s, r, Dispatch(cfg.services, r, h))
    requires r.serviceName == call.service && r.methodName == call.name
    ensures Succeeded(cfg, s1, r.requestId, call, h)
  {
    var response := Dispatch(cfg.services, r, h);
    DispatchAnswers(cfg.services, r, h);
    assert OutcomeOk(s1, r.requestId, s1.results[r.requestId]);
    AnsweredIsDispatched(cfg, s1, r.requestId, response);
  }

  /** A call that meets no failure succeeds: from every such state, whatever other threads are doing,
      the response of its own handler run can be returned. */
  lemma CallCanSucceed(cfg: Config, s: State, t: nat, call: Call, h: HandlerResult) returns (steps: seq<Step>)
    requires Faithful(cfg.wire) && Ready(cfg, s, t) && Fits(cfg.wire, NewRequest(s, call))
    requires Fits(cfg.wire, Dispatch(cfg.services, NewRequest(s, call), h))
    ensures Succeeded(cfg, RunFrom(cfg, s, steps), s.nextId, call, h)
  {
    var r := NewRequest(s, call);
    var enters := [StartCall(t, call), Enter(t)];
    Enters(cfg, s, t, call);
    ReadyConn(cfg, s, t);
    var s1 := RunFrom(cfg, s, enters);
    var rest := Completes(cfg, s1, t, r, false, h);
    RunAppend(cfg, s, enters, rest);
    steps := enters + rest;
    RunKeeps(cfg, s, steps);
    AnswersSucceed(cfg, RunFrom(cfg, s, steps), s1, call, r, h);
  }

  /** A receive error tells the caller nothing: the same call, from the same state, with the same
      error, can have been dispatched once or never. This is why it is not retried. */
  lemma RecvErrorIsAmbiguous(cfg: Config, s: State, t: nat, call: Call, h: HandlerResult, fault: Fault)
    returns (never: seq<Step>, once: seq<Step>)
    requires Faithful(cfg.wire) && Ready(cfg, s, t) && Fits(cfg.wire, NewRequest(s, call))
    ensures var s0, s1 := RunFrom(cfg, s, never), RunFrom(cfg, s, once);
            && s.nextId in s0.results && s0.results[s.nextId] == RecvError(FaultError(fault))
            && s.nextId in s1.results && s1.results[s.nextId] == RecvError(FaultError(fault))
            && Dispatches(s0.conns, s.nextId) == 0 && Dispatches(s1.conns, s.nextId) == 1
  {
    never := NeverDispatched(cfg, s, t, call, fault);
    once := DispatchedOnce(cfg, s, t, call, h, fault);
  }

  lemma NeverDispatched(cfg: Config, s: State, t: nat, call: Call, fault: Fault) returns (steps: seq<Step>)
    requires Ready(cfg, s, t) && Fits(cfg.wire, NewRequest(s, call))
    ensures var s1 := RunFrom(cfg, s, steps);
            && s.nextId in s1.results && s1.results[s.nextId] == RecvError(FaultError(fault))
            && Dispatches(s1.conns, s.nextId) == 0
  {
    var r := NewRequest(s, call);
    var asks := Asks(cfg, s, t, call);
    var loses := LosesResponse(cfg, Asked(cfg, s, t, call), t, r, fault);
    RunAppend(cfg, s, asks, loses);
    steps := asks + loses;
    var s1 := RunFrom(cfg, s, steps);
    forall c | 0 <= c < |s1.conns| ensures !Serves(s1.conns[c].served, s.nextId) {
      if c < |s.conns| {
        NewIdUnserved(cfg, s, c);
        assert s1.conns[c].served == Asked(cfg, s, t, call).conns[c].served == s.conns[c].served;
      }
    }
    DispatchesZero(s1.conns, s.nextId);
  }

  /** The server has dispatched the request and the caller still waits. */
  lemma AsksAndIsServed(cfg: Config, s: State, t: nat, call: Call, h: HandlerResult) returns (steps: seq<Step>)
    requires Faithful(cfg.wire) && Ready(cfg, s, t) && Fits(cfg.wire, NewRequest(s, call))
    ensures var s1, c := RunFrom(cfg, s, steps), s.codec.value;
            && t < |s1.threads| && s1.threads[t] == Receiving(NewRequest(s, call), [])
            && c < |s1.conns| && Serves(s1.conns[c].served, s.nextId)
  {
    var r, c := NewRequest(s, call), s.codec.value;
    assert Quiet(s.conns[c]) && Sendable(r);
    var asks := Asks(cfg, s, t, call);
    var asked := Asked(cfg, s, t, call);
    var serves := ServesRequest(cfg, asked, c, r, h);
    RunAppend(cfg, s, asks, serves);
    steps := asks + serves;
    ServedLast(RunFrom(cfg, s, steps).conns[c].served, asked.conns[c].served, r, Dispatch(cfg.services, r, h));
  }

  lemma ServedIsOnce(cfg: Config, s: State, c: nat, x: nat)
    requires Inv(cfg, s) && c < |s.conns| && Serves(s.conns[c].served, x)
    ensures Dispatches(s.conns, x) == 1
  {
    AtMostOne(cfg, s, x);
    DispatchesZero(s.conns, x);
  }

  lemma DispatchedOnce(cfg: Config, s: State, t: nat, call: Call, h: HandlerResult, fault: Fault)
    returns (steps: seq<Step>)
    requires Faithful(cfg.wire) && Ready(cfg, s, t) && Fits(cfg.wire, NewRequest(s, call))
    ensures var s1 := RunFrom(cfg, s, steps);
            && s.nextId in s1.results && s1.results[s.nextId] == RecvError(FaultError(fault))
            && Dispatches(s1.conns, s.nextId) == 1
  {
    var served := AsksAndIsServed(cfg, s, t, call, h);
    var loses := LosesResponse(cfg, RunFrom(cfg, s, served), t, NewRequest(s, call), fault);
    RunAppend(cfg, s, served, loses);
    steps := served + loses;
    RunKeeps(cfg, s, steps);
    ServedIsOnce(cfg, RunFrom(cfg, s, steps), s.codec.value, s.nextId);
  }

  lemma ServedLast(served: seq<Exchange>, before: seq<Exchange>, r: Envelope, response: Envelope)
    requires served == before + [Exchanges.Exchange(r, response)]
    ensures Serves(served, r.requestId)
  {
    assert served[|before|].request.requestId == r.requestId;
  }

  // ---------------------------------------------------------------- a send error

  /** Every attempt to reconnect is refused. */
  lemma {:induction false} RetriesFail(cfg: Config, s: State, t: nat, r: Envelope, attempt: nat, err: Error)
    returns (steps: seq<Step>)
    requires Free(s, t) && s.threads[t] == RetryBackoff(r, attempt, err)
    ensures RunFrom(cfg, s, steps) == Finish(s, t, r, SendError(err))
    ensures forall i :: 0 <= i < |steps| ==> !steps[i].StartCall?
    decreases Attempts(cfg) - attempt
  {
    OneStep(cfg, s, Wake(t, false));
    steps := [Wake(t, false)];
    if attempt + 1 < Attempts(cfg) {
      var s1 := SetPc(s, t, RetryBackoff(r, attempt + 1, err));
      assert Apply(cfg, s, Wake(t, false)) == s1;
      var more := RetriesFail(cfg, s1, t, r, attempt + 1, err);
      RunAppend(cfg, s, steps, more);
      steps := steps + more;
      SetPcTwice(s, t, RetryBackoff(r, attempt + 1, err), Idle);
    }
  }

  /** After the callback, `call` returns the error of the first send. */
  lemma SendErrorReturns(cfg: Config, s: State, t: nat, r: Envelope, err: Error) returns (steps: seq<Step>)
    requires Free(s, t) && s.threads[t] == Notifying(r, FirstSend(err))
    ensures RunFrom(cfg, s, steps) == Finish(s, t, r, SendError(err))
    ensures forall i :: 0 <= i < |steps| ==> !steps[i].StartCall?
  {
    OneStep(cfg, s, Notified(t));
    steps := [Notified(t)];
    if Attempts(cfg) > 0 {
      var s1 := SetPc(s, t, RetryBackoff(r, 0, err));
      assert Apply(cfg, s, Notified(t)) == s1;
      var more := RetriesFail(cfg, s1, t, r, 0, err);
      RunAppend(cfg, s, steps, more);
      steps := steps + more;
      SetPcTwice(s, t, RetryBackoff(r, 0, err), Idle);
    }
  }

  /** What a failed send leaves: the lock free, the thread in the callback, the handles reset, the
      connection given up with its descriptor still open. */
  ghost predicate SendFailed(s: State, t: nat, r: Envelope, c: nat, errno: nat) {
    && Free(s, t) && s.codec.None? && s.threads[t] == Notifying(r, FirstSend(System(errno)))
    && c < |s.conns| && s.conns[c].end == End(false, false, Some(After(System(errno))))
  }

  lemma SendFailsTo(cfg: Config, s: State, t: nat, r: Envelope, errno: nat)
    requires OnConn(s, t) && s.framed == s.codec && s.threads[t] == Sending(r, false, 0)
    requires s.conns[s.codec.value].end == End(true, false, None)
    ensures var s1 := Apply(cfg, s, SendFails(t, errno));
            SendFailed(s1, t, r, s.codec.value, errno) && |s1.conns| == |s.conns| && s1.nextId == s.nextId
  {
    assert Apply(cfg, s, SendFails(t, errno)) == Disconnected(s, t, r, FirstSend(System(errno)));
  }

  lemma BegunEnd(cfg: Config, s: State, t: nat, r: Envelope)
    requires Handles(s) && AllConns(cfg, s.conns) && t < |s.threads| && s.codec.Some? && Legal(cfg.wire.enc(r))
    ensures var s1 := StartSend(cfg, s, t, r, false);
            && OnConn(s1, t) && s1.codec == s1.framed == s.codec && s1.threads[t] == Sending(r, false, 0)
            && s1.conns[s.codec.value].end == End(true, false, None)
            && |s1.conns| == |s.conns| && s1.nextId == s.nextId
  {
    assert ConnOk(cfg.wire, s.conns[s.codec.value]);
  }

  lemma FirstSendFails(cfg: Config, s: State, t: nat, call: Call, errno: nat) returns (steps: seq<Step>)
    requires Ready(cfg, s, t) && Fits(cfg.wire, NewRequest(s, call))
    ensures SendFailed(RunFrom(cfg, s, steps), t, NewRequest(s, call), s.codec.value, errno)
    ensures |RunFrom(cfg, s, steps).conns| == |s.conns| && RunFrom(cfg, s, steps).nextId == s.nextId + 1
    ensures SendFails(t, errno) in steps
  {
    var r := NewRequest(s, call);
    var s1 := StartSend(cfg, Issue(s, r), t, r, false);
    Enters(cfg, s, t, call);
    BegunEnd(cfg, Issue(s, r), t, r);
    hide Apply, StartSend, SendFailed;
    SendFailsTo(cfg, s1, t, r, errno);
    OneStep(cfg, s1, SendFails(t, errno));
    RunAppend(cfg, s, [StartCall(t, call), Enter(t)], [SendFails(t, errno)]);
    steps := [StartCall(t, call), Enter(t)] + [SendFails(t, errno)];
  }

  /** From every such state the call can also return a send error, without a dispatch, whatever
      `max_attempts` is; and the descriptor of the connection is then not released. */
  lemma SendCanFail(cfg: Config, s: State, t: nat, call: Call, errno: nat) returns (steps: seq<Step>)
    requires Faithful(cfg.wire) && Ready(cfg, s, t) && Fits(cfg.wire, NewRequest(s, call))
    ensures var s1 := RunFrom(cfg, s, steps);
            && s.nextId in s1.results && s1.results[s.nextId] == SendError(System(errno))
            && Dispatches(s1.conns, s.nextId) == 0
            && s.codec.value < |s1.conns| && !s1.conns[s.codec.value].end.connected
            && !s1.conns[s.codec.value].end.released
  {
    var r := NewRequest(s, call);
    var fails := FirstSendFails(cfg, s, t, call, errno);
    var rest := SendErrorReturns(cfg, RunFrom(cfg, s, fails), t, r, System(errno));
    RunAppend(cfg, s, fails, rest);
    steps := fails + rest;
    var s1 := RunFrom(cfg, s, steps);
    RunKeeps(cfg, s, steps);
    assert OutcomeOk(s1, s.nextId, s1.results[s.nextId]);
    AtMostOne(cfg, s1, s.nextId);
  }
}
