/** The C++ client, shared by any number of threads, and the server's handlers, as one step system.

    A step is what happens between two points where another thread may run: the mutex is released in
    `handle_disconnect` and while `attempt_reconnect` sleeps, and every byte moved by the kernel is a
    step of its own, taken while the caller holds the mutex. A step that is not enabled changes
    nothing, so a run is any list of steps. Any connection may fail at any byte, in either direction
    and at either end; the kernel never loses, reorders or invents bytes. */
module RpcRun {
  import opened Bytes
  import opened Errors
  import opened Frames
  import opened Envelopes
  import opened Protobuf
  import opened Dispatcher
  import opened CppCodec
  import opened RpcConn

  /** `reconnect` is `max_attempts` when reconnecting is configured. */
  datatype Config = Config(wire: Wire, services: Services, reconnect: Option<int>)

  function Attempts(cfg: Config): nat {
    match cfg.reconnect
    case None => 0
    case Some(n) => if n < 0 then 0x7FFF_FFFF else n
  }

  datatype Call = Call(service: bytes, name: bytes, payload: bytes)

  /** Why `handle_disconnect` was called. */
  datatype Cause = FirstSend(err: Error) | RetrySend(err: Error) | RecvFailed(err: Error)

  /** Where a thread stands. Only `Sending` and `Receiving` hold the mutex across steps. */
  datatype Pc =
    | Idle
    | Entering(call: Call)                                       // before the lock of `call`
    | FirstBackoff(call: Call, attempt: nat)                     // asleep, no request made yet
    | Sending(request: Envelope, retry: bool, done: nat)
    | Receiving(request: Envelope, part: bytes)
    | Notifying(request: Envelope, cause: Cause)                 // in on_disconnect, lock released
    | RetryBackoff(request: Envelope, attempt: nat, err: Error)  // asleep, request to be sent again

  datatype Outcome =
    | Success(response: Envelope)
    | SendError(err: Error)
    | RecvError(err: Error)
    | Mismatch(response: Envelope)

  datatype State = State(
    transport: Option<nat>,            // the client's three handles, as indices of `conns`
    framed: Option<nat>,
    codec: Option<nat>,
    nextId: nat,
    owner: Option<nat>,                // the thread that holds the mutex
    threads: seq<Pc>,
    conns: seq<Conn>,                  // every connection ever opened
    issued: map<nat, Envelope>,        // history: the request built for each id
    results: map<nat, Outcome>,        // history: what `call` returned, by the id of its request
    refused: seq<Call>                 // history: calls that returned not_connected, without an id
  )

  function Init(threads: nat): State {
    State(None, None, None, 1, None, seq(threads, _ => Idle), [], map[], map[], [])
  }

  // ---------------------------------------------------------------- pieces of the client's code

  function SetPc(s: State, t: nat, pc: Pc): State
    requires t < |s.threads|
  {
    s.(threads := s.threads[t := pc])
  }

  function SetConn(s: State, c: nat, k: Conn): State
    requires c < |s.conns|
  {
    s.(conns := s.conns[c := k])
  }

  /** `connect_locked` when the peer accepts. */
  function OpenConn(s: State): State {
    var c := |s.conns|;
    s.(conns := s.conns + [NEW_CONN], transport := Some(c), framed := Some(c), codec := Some(c))
  }

  /** What `handle_disconnect` and `disconnect` do to the handles, after what led to it. */
  function DropHandles(s: State, why: Loss): State {
    var s1 := if s.framed.Some? && s.framed.value < |s.conns|
              then SetConn(s, s.framed.value, GiveUp(s.conns[s.framed.value], why)) else s;
    s1.(framed := None, codec := None, transport := None)
  }

  /** A failed send or receive, and `handle_disconnect` up to the unlock. */
  function Disconnected(s: State, t: nat, r: Envelope, cause: Cause): State
    requires t < |s.threads|
  {
    SetPc(DropHandles(s, After(cause.err)).(owner := None), t, Notifying(r, cause))
  }

  function SendCause(retry: bool, err: Error): Cause {
    if retry then RetrySend(err) else FirstSend(err)
  }

  /** `codec_->send(request)` up to the first byte; the lock is held. */
  function StartSend(cfg: Config, s: State, t: nat, r: Envelope, retry: bool): State
    requires t < |s.threads| && s.codec.Some? && s.codec.value < |s.conns|
  {
    if !Legal(cfg.wire.enc(r)) then Disconnected(s, t, r, SendCause(retry, FrameTooLarge))
    else
      var c := s.codec.value;
      SetPc(SetConn(s, c, Begin(s.conns[c], r)).(owner := Some(t)), t, Sending(r, retry, 0))
  }

  function NewRequest(s: State, call: Call): Envelope {
    Envelope(0, s.nextId, call.service, call.name, call.payload, 0, [], map[])
  }

  function Issue(s: State, r: Envelope): State {
    s.(nextId := s.nextId + 1, issued := s.issued[s.nextId := r])
  }

  /** From the allocation of the id to the first byte. */
  function BeginCall(cfg: Config, s: State, t: nat, call: Call): State
    requires t < |s.threads| && s.codec.Some? && s.codec.value < |s.conns|
  {
    var r := NewRequest(s, call);
    StartSend(cfg, Issue(s, r), t, r, false)
  }

  function Refuse(s: State, t: nat, call: Call): State
    requires t < |s.threads|
  {
    SetPc(s.(refused := s.refused + [call]), t, Idle)
  }

  /** `call` returns; the lock is released. */
  function Finish(s: State, t: nat, r: Envelope, o: Outcome): State
    requires t < |s.threads|
  {
    SetPc(s.(owner := None, results := s.results[r.requestId := o]), t, Idle)
  }

  // ---------------------------------------------------------------- steps

  datatype Step =
    | StartCall(t: nat, call: Call)
    | Enter(t: nat)                              // takes the lock at the start of `call`
    | Wake(t: nat, accepted: bool)               // after the sleep: lock, connect_locked
    | Send(t: nat, n: nat)                       // the kernel accepts n bytes
    | SendFails(t: nat, errno: nat)
    | Recv(t: nat, n: nat)                       // the client reads n bytes
    | RecvFails(t: nat, fault: Fault)
    | Notified(t: nat)                           // on_disconnect returned: lock again
    | Connect(t: nat, accepted: bool)
    | Disconnect(t: nat)
    | ServerRead(c: nat, n: nat)
    | ServerDispatch(c: nat, handler: HandlerResult)
    | ServerWrite(c: nat, n: nat)
    | ServerStops(c: nat)                        // any error, EOF or server shutdown

  /** The lock is free and thread `t` may take it. */
  predicate Free(s: State, t: nat) {
    t < |s.threads| && s.owner.None?
  }

  /** The connection is there and ids have not run out of 64 bits. */
  predicate CanBegin(s: State) {
    s.codec.Some? && s.codec.value < |s.conns| && s.nextId < TWO_64
  }

  function EnterStep(cfg: Config, s: State, t: nat, call: Call): State
    requires Free(s, t)
  {
    if s.codec.None? && cfg.reconnect.Some? then
      if Attempts(cfg) == 0 then Refuse(s, t, call) else SetPc(s, t, FirstBackoff(call, 0))
    else if s.codec.None? then Refuse(s, t, call)
    else if CanBegin(s) then BeginCall(cfg, s, t, call)
    else s
  }

  /** An attempt fails when the peer refuses or when another thread has connected meanwhile. */
  function FirstWake(cfg: Config, s: State, t: nat, call: Call, attempt: nat, accepted: bool): State
    requires Free(s, t)
  {
    if s.codec.Some? || !accepted then
      if attempt + 1 < Attempts(cfg) then SetPc(s, t, FirstBackoff(call, attempt + 1)) else Refuse(s, t, call)
    else if CanBegin(OpenConn(s)) then BeginCall(cfg, OpenConn(s), t, call)
    else s
  }

  function RetryWake(cfg: Config, s: State, t: nat, r: Envelope, attempt: nat, err: Error, accepted: bool): State
    requires Free(s, t)
  {
    if s.codec.Some? || !accepted then
      if attempt + 1 < Attempts(cfg) then SetPc(s, t, RetryBackoff(r, attempt + 1, err))
      else Finish(s, t, r, SendError(err))
    else StartSend(cfg, OpenConn(s), t, r, true)
  }

  predicate OnConn(s: State, t: nat) {
    t < |s.threads| && s.codec.Some? && s.codec.value < |s.conns|
  }

  /** The kernel can accept n more bytes of the header, or of the payload. */
  predicate CanSend(cfg: Config, s: State, t: nat, n: nat) {
    && OnConn(s, t) && s.threads[t].Sending? && Legal(cfg.wire.enc(s.threads[t].request)) && 1 <= n
    && s.threads[t].done + n <= SendLimit(FrameOf(cfg.wire, s.threads[t].request), s.threads[t].done)
  }

  /** The kernel accepts them; with the last byte of the frame, `send` returns and `recv` starts. */
  function Sent(cfg: Config, s: State, t: nat, n: nat): State
    requires CanSend(cfg, s, t, n)
  {
    var Sending(r, retry, i) := s.threads[t];
    var c, f := s.codec.value, FrameOf(cfg.wire, r);
    SetPc(SetConn(s, c, Accept(s.conns[c], r, f, i, i + n)), t,
          if i + n < |f| then Sending(r, retry, i + n) else Receiving(r, []))
  }

  function RecvStep(cfg: Config, s: State, t: nat, n: nat): State
    requires OnConn(s, t) && s.threads[t].Receiving?
  {
    var Receiving(r, part) := s.threads[t];
    var c := s.codec.value;
    var k := s.conns[c];
    if 1 <= n <= Need(part) && n <= |k.down| then
      var s1, part1 := SetConn(s, c, ClientRead(k, n)), part + k.down[..n];
      match ParseOne(part1)
      case Incomplete => SetPc(s1, t, Receiving(r, part1))
      case Oversize(_) => Disconnected(s1, t, r, RecvFailed(FrameTooLarge))
      case Complete(payload, _) =>
        match cfg.wire.dec(payload)
        case None => Disconnected(s1, t, r, RecvFailed(SerializationError))
        case Some(response) =>
          Finish(s1, t, r, if response.requestId != r.requestId then Mismatch(response) else Success(response))
    else s
  }

  function NotifiedStep(cfg: Config, s: State, t: nat, r: Envelope, cause: Cause): State
    requires Free(s, t)
  {
    match cause
    case FirstSend(err) =>
      if Attempts(cfg) > 0 then SetPc(s, t, RetryBackoff(r, 0, err)) else Finish(s, t, r, SendError(err))
    case RetrySend(err) => Finish(s, t, r, SendError(err))
    case RecvFailed(err) => Finish(s, t, r, RecvError(err))
  }

  function ThreadStep(cfg: Config, s: State, step: Step): State
    requires !step.ServerRead? && !step.ServerDispatch? && !step.ServerWrite? && !step.ServerStops?
  {
    var t := step.t;
    if t >= |s.threads| then s
    else
      match (step, s.threads[t])
      case (StartCall(_, call), Idle) => SetPc(s, t, Entering(call))
      case (Enter(_), Entering(call)) => if Free(s, t) then EnterStep(cfg, s, t, call) else s
      case (Wake(_, accepted), FirstBackoff(call, i)) =>
        if Free(s, t) then FirstWake(cfg, s, t, call, i, accepted) else s
      case (Wake(_, accepted), RetryBackoff(r, i, err)) =>
        if Free(s, t) then RetryWake(cfg, s, t, r, i, err, accepted) else s
      case (Send(_, n), Sending(_, _, _)) => if CanSend(cfg, s, t, n) then Sent(cfg, s, t, n) else s
      case (SendFails(_, errno), Sending(r, retry, _)) => Disconnected(s, t, r, SendCause(retry, System(errno)))
      case (Recv(_, n), Receiving(_, _)) => if OnConn(s, t) then RecvStep(cfg, s, t, n) else s
      case (RecvFails(_, fault), Receiving(r, _)) => Disconnected(s, t, r, RecvFailed(FaultError(fault)))
      case (Notified(_), Notifying(r, cause)) => if Free(s, t) then NotifiedStep(cfg, s, t, r, cause) else s
      case (Connect(_, accepted), Idle) => if Free(s, t) && s.codec.None? && accepted then OpenConn(s) else s
      case (Disconnect(_), Idle) => if Free(s, t) then DropHandles(s, Requested) else s
      case _ => s
  }

  function ServerStep(cfg: Config, s: State, step: Step): State
    requires step.ServerRead? || step.ServerDispatch? || step.ServerWrite? || step.ServerStops?
  {
    var c := step.c;
    if c >= |s.conns| then s
    else
      var k := s.conns[c];
      match step
      case ServerRead(_, n) => if CanRead(k, n) then SetConn(s, c, HandlerRead(k, n)) else s
      case ServerDispatch(_, h) =>
        if CanDispatch(cfg.wire, k) then SetConn(s, c, HandlerDispatch(cfg.wire, cfg.services, k, h)) else s
      case ServerWrite(_, n) => if CanWrite(k, n) then SetConn(s, c, HandlerWrite(k, n)) else s
      case ServerStops(_) => SetConn(s, c, HandlerStop(k))
  }

  function Apply(cfg: Config, s: State, step: Step): State {
    if step.ServerRead? || step.ServerDispatch? || step.ServerWrite? || step.ServerStops?
    then ServerStep(cfg, s, step)
    else ThreadStep(cfg, s, step)
  }

  function RunFrom(cfg: Config, s: State, steps: seq<Step>): State {
    if steps == [] then s
    else Apply(cfg, RunFrom(cfg, s, steps[..|steps| - 1]), steps[|steps| - 1])
  }

  /** The state after any list of steps, from a client that was never connected. */
  function Run(cfg: Config, threads: nat, steps: seq<Step>): State {
    RunFrom(cfg, Init(threads), steps)
  }
}
