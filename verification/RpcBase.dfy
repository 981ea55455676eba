/** The first half of the client's invariant: handles, lock, and what each connection carries. */
module RpcBase {
  import opened Bytes
  import opened Errors
  import opened Frames
  import opened Envelopes
  import opened CppCodec
  import opened RpcConn
  import opened RpcRun

  predicate Holds(pc: Pc) {
    pc.Sending? || pc.Receiving?
  }

  /** The three handles are all null or all refer to the one open connection. */
  ghost predicate Handles(s: State) {
    && s.transport == s.framed == s.codec
    && (s.codec.Some? ==> s.codec.value < |s.conns|)
    && (forall c :: 0 <= c < |s.conns| ==> (s.conns[c].end.connected <==> s.codec == Some(c)))
  }

  /** At most one thread is inside `codec_->send` or `codec_->recv`, it owns the mutex, and the codec
      it uses is not taken away under it. */
  ghost predicate Locking(s: State) {
    && (s.owner.Some? ==> s.owner.value < |s.threads| && Holds(s.threads[s.owner.value]))
    && (forall t :: 0 <= t < |s.threads| && Holds(s.threads[t]) ==> s.owner == Some(t) && s.codec.Some?)
  }

  function PhaseOf(s: State): Phase {
    if s.owner.None? || s.owner.value >= |s.threads| then AtRest
    else
      match s.threads[s.owner.value]
      case Sending(r, _, done) => Writing(r, done)
      case Receiving(r, part) => Awaiting(r, part)
      case _ => AtRest
  }

  ghost predicate AllConns(cfg: Config, conns: seq<Conn>) {
    forall c :: 0 <= c < |conns| ==> ConnOk(cfg.wire, conns[c])
  }

  ghost predicate Live(cfg: Config, s: State)
    requires Handles(s)
  {
    s.codec.Some? ==> LiveOk(cfg.wire, PhaseOf(s), s.conns[s.codec.value])
  }

  ghost predicate Base(cfg: Config, s: State) {
    Handles(s) && Locking(s) && AllConns(cfg, s.conns) && Live(cfg, s)
  }

  /** A thread that does not hold the lock moves on without taking it. */
  lemma MoveKeeps(cfg: Config, s: State, t: nat, pc: Pc)
    requires Base(cfg, s) && t < |s.threads| && s.owner != Some(t) && !Holds(pc)
    ensures Base(cfg, SetPc(s, t, pc))
  {
    var s1 := SetPc(s, t, pc);
    assert PhaseOf(s1) == PhaseOf(s);
  }

  lemma OpenKeeps(cfg: Config, s: State)
    requires Base(cfg, s) && s.codec.None? && s.owner.None?
    ensures Base(cfg, OpenConn(s))
  {
    var s1 := OpenConn(s);
    forall c | 0 <= c < |s1.conns| ensures s1.conns[c].end.connected <==> s1.codec == Some(c) {
    }
    assert ConnOk(cfg.wire, NEW_CONN);
  }

  /** Dropping the handles, by the lock holder or while the lock is free. */
  lemma DropKeeps(cfg: Config, s: State, t: nat, pc: Pc, why: Loss)
    requires Handles(s) && Locking(s) && AllConns(cfg, s.conns)
    requires t < |s.threads| && (s.owner.None? || s.owner == Some(t)) && !Holds(pc)
    ensures Base(cfg, SetPc(DropHandles(s, why).(owner := None), t, pc))
  {
    var s1 := SetPc(DropHandles(s, why).(owner := None), t, pc);
    forall c | 0 <= c < |s1.conns| ensures ConnOk(cfg.wire, s1.conns[c]) && !s1.conns[c].end.connected {
      GiveUpKeeps(cfg, s.conns[c], why);
    }
  }

  lemma GiveUpKeeps(cfg: Config, k: Conn, why: Loss)
    requires ConnOk(cfg.wire, k)
    ensures ConnOk(cfg.wire, GiveUp(k, why)) && !GiveUp(k, why).end.connected
  {
  }

  lemma DropAtRest(cfg: Config, s: State, why: Loss)
    requires Base(cfg, s) && s.owner.None?
    ensures Base(cfg, DropHandles(s, why))
  {
    var s1 := DropHandles(s, why);
    forall c | 0 <= c < |s1.conns| ensures ConnOk(cfg.wire, s1.conns[c]) && !s1.conns[c].end.connected {
      GiveUpKeeps(cfg, s.conns[c], why);
    }
  }

  /** The lock holder's connection changes, and with it where the holder stands. */
  lemma HolderKeeps(cfg: Config, s: State, t: nat, pc: Pc, k: Conn)
    requires Handles(s) && Locking(s) && AllConns(cfg, s.conns)
    requires t < |s.threads| && s.codec.Some? && (s.owner.None? || s.owner == Some(t))
    requires k.end.connected && ConnOk(cfg.wire, k)
    requires match pc
             case Sending(r, _, done) => LiveOk(cfg.wire, Writing(r, done), k)
             case Receiving(r, part) => LiveOk(cfg.wire, Awaiting(r, part), k)
             case _ => LiveOk(cfg.wire, AtRest, k)
    ensures Base(cfg, SetPc(SetConn(s, s.codec.value, k).(owner := if Holds(pc) then Some(t) else None), t, pc))
  {
    hide ConnOk, LiveOk;
    var s1 := SetPc(SetConn(s, s.codec.value, k).(owner := if Holds(pc) then Some(t) else None), t, pc);
    forall c | 0 <= c < |s1.conns| ensures s1.conns[c].end.connected <==> s1.codec == Some(c) {
    }
    forall c | 0 <= c < |s1.conns| ensures ConnOk(cfg.wire, s1.conns[c]) {
    }
  }

  lemma StartSendKeeps(cfg: Config, s: State, t: nat, r: Envelope, retry: bool)
    requires Base(cfg, s) && t < |s.threads| && s.owner.None? && s.codec.Some?
    requires Sendable(r)
    requires var k := s.conns[s.codec.value];
             forall i :: 0 <= i < |k.begun| ==> k.begun[i].requestId < r.requestId
    ensures Base(cfg, StartSend(cfg, s, t, r, retry))
  {
    if Legal(cfg.wire.enc(r)) {
      var k := s.conns[s.codec.value];
      BeginKeeps(cfg.wire, k, r);
      HolderKeeps(cfg, s, t, Sending(r, retry, 0), Begin(k, r));
    } else {
      DropKeeps(cfg, s, t, Notifying(r, SendCause(retry, FrameTooLarge)), After(FrameTooLarge));
    }
  }

  /** The lock holder goes on holding it. */
  lemma HolderMoves(cfg: Config, s: State, t: nat, pc: Pc, k: Conn)
    requires Handles(s) && Locking(s) && AllConns(cfg, s.conns)
    requires t < |s.threads| && s.codec.Some? && s.owner == Some(t)
    requires k.end.connected && ConnOk(cfg.wire, k)
    requires match pc
             case Sending(r, _, done) => LiveOk(cfg.wire, Writing(r, done), k)
             case Receiving(r, part) => LiveOk(cfg.wire, Awaiting(r, part), k)
             case _ => false
    ensures Base(cfg, SetPc(SetConn(s, s.codec.value, k), t, pc))
  {
    HolderKeeps(cfg, s, t, pc, k);
    assert SetConn(s, s.codec.value, k).(owner := Some(t)) == SetConn(s, s.codec.value, k);
  }

  /** What a send makes of the thread and of its connection. */
  lemma SentParts(cfg: Config, s: State, t: nat, n: nat) returns (pc: Pc, k: Conn)
    requires Base(cfg, s) && CanSend(cfg, s, t, n)
    ensures s.owner == Some(t) && k.end.connected && ConnOk(cfg.wire, k)
    ensures match pc
            case Sending(r, _, done) => LiveOk(cfg.wire, Writing(r, done), k)
            case Receiving(r, part) => LiveOk(cfg.wire, Awaiting(r, part), k)
            case _ => false
    ensures Sent(cfg, s, t, n) == SetPc(SetConn(s, s.codec.value, k), t, pc)
  {
    hide ConnOk, LiveOk, AllConns;
    var Sending(r, retry, i) := s.threads[t];
    var k0, f := s.conns[s.codec.value], FrameOf(cfg.wire, r);
    ConnKnown(cfg, s, s.codec.value);
    AcceptKeeps(cfg.wire, k0, r, i, i + n);
    k := Accept(k0, r, f, i, i + n);
    pc := if i + n < |f| then Sending(r, retry, i + n) else Receiving(r, []);
  }

  lemma ConnKnown(cfg: Config, s: State, c: nat)
    requires AllConns(cfg, s.conns) && c < |s.conns|
    ensures ConnOk(cfg.wire, s.conns[c])
  {
  }

  /** The kernel accepts some more bytes of the frame. */
  lemma SentKeeps(cfg: Config, s: State, t: nat, n: nat)
    requires Base(cfg, s) && CanSend(cfg, s, t, n)
    ensures Base(cfg, Sent(cfg, s, t, n))
  {
    hide Handles, Locking, AllConns, Live, Sent, LiveOk, ConnOk;
    var pc, k := SentParts(cfg, s, t, n);
    HolderMoves(cfg, s, t, pc, k);
  }

  lemma RecvKeeps(cfg: Config, s: State, t: nat, n: nat)
    requires Faithful(cfg.wire) && Base(cfg, s) && OnConn(s, t) && s.threads[t].Receiving?
    ensures Base(cfg, RecvStep(cfg, s, t, n))
  {
    hide ConnOk, ParseOne;
    var Receiving(r, part) := s.threads[t];
    var k := s.conns[s.codec.value];
    if 1 <= n <= Need(part) && n <= |k.down| {
      var s1, part1 := SetConn(s, s.codec.value, ClientRead(k, n)), part + k.down[..n];
      ClientReadKeeps(cfg.wire, r, part, k, n);
      match ParseOne(part1) {
        case Incomplete => HolderKeeps(cfg, s, t, Receiving(r, part1), ClientRead(k, n));
        case Oversize(_) =>
        case Complete(payload, _) =>
          if cfg.wire.dec(payload).Some? {
            HolderKeeps(cfg, s, t, Idle, ClientRead(k, n));
          } else {
            ReadKeepsRest(cfg, s, ClientRead(k, n));
            DropKeeps(cfg, s1, t, Notifying(r, RecvFailed(SerializationError)), After(SerializationError));
          }
      }
    }
  }

  lemma ReadKeepsRest(cfg: Config, s: State, k: Conn)
    requires Base(cfg, s) && s.codec.Some? && k.end.connected && ConnOk(cfg.wire, k)
    ensures var s1 := SetConn(s, s.codec.value, k);
            Handles(s1) && Locking(s1) && AllConns(cfg, s1.conns)
  {
  }

  /** A handler moves: it neither knows nor changes what the client's threads do. */
  lemma ServerKeeps(cfg: Config, s: State, step: Step)
    requires Faithful(cfg.wire) && Base(cfg, s)
    requires step.ServerRead? || step.ServerDispatch? || step.ServerWrite? || step.ServerStops?
    ensures Base(cfg, ServerStep(cfg, s, step))
  {
    hide ConnOk, LiveOk;
    if step.c < |s.conns| {
      var k, ph := s.conns[step.c], PhaseOf(s);
      match step
      case ServerRead(c, n) =>
        if CanRead(k, n) {
          HandlerReadKeeps(cfg.wire, ph, k, n);
          HandlerKeeps(cfg, s, c, HandlerRead(k, n));
        }
      case ServerDispatch(c, h) =>
        if CanDispatch(cfg.wire, k) {
          HandlerDispatchKeeps(cfg.wire, cfg.services, ph, k, h);
          HandlerKeeps(cfg, s, c, HandlerDispatch(cfg.wire, cfg.services, k, h));
        }
      case ServerWrite(c, n) =>
        if CanWrite(k, n) {
          HandlerWriteKeeps(cfg.wire, ph, k, n);
          HandlerKeeps(cfg, s, c, HandlerWrite(k, n));
        }
      case ServerStops(c) =>
        HandlerStopKeeps(cfg.wire, ph, k);
        HandlerKeeps(cfg, s, c, HandlerStop(k));
    }
  }

  lemma HandlerKeeps(cfg: Config, s: State, c: nat, k: Conn)
    requires Base(cfg, s) && c < |s.conns| && k.end.connected == s.conns[c].end.connected && ConnOk(cfg.wire, k)
    requires LiveOk(cfg.wire, PhaseOf(s), s.conns[c]) ==> LiveOk(cfg.wire, PhaseOf(s), k)
    ensures Base(cfg, SetConn(s, c, k))
  {
    var s1 := SetConn(s, c, k);
    assert PhaseOf(s1) == PhaseOf(s);
    forall d | 0 <= d < |s1.conns| ensures s1.conns[d].end.connected <==> s1.codec == Some(d) {
    }
    forall d | 0 <= d < |s1.conns| ensures ConnOk(cfg.wire, s1.conns[d]) {
    }
  }
}
