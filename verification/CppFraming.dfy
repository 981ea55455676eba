/** The C++ byte transport and its framing, as the classes the SDK declares.

    `Descriptor` stands for the kernel. Its scripts `readScript` and `writeScript` say how each system
    call turns out; an exhausted script means that every call succeeds in full. Quantifying over
    scripts quantifies over all schedules of partial reads, partial writes, signals and failures. */
module CppFraming {
  import opened Bytes
  import opened Errors
  import opened Frames

  const EINTR: nat := 4

  /** One system call: at most `extra + 1` bytes are moved, or it fails and moves none. */
  datatype Syscall = Moves(extra: nat) | Fails(errno: nat)

  ghost predicate NoFault(script: seq<Syscall>) {
    forall i :: 0 <= i < |script| && script[i].Fails? ==> script[i].errno == EINTR
  }

  /** System calls consume the script from the front. */
  ghost predicate Consumed(before: seq<Syscall>, after: seq<Syscall>) {
    |after| <= |before| && after == before[|before| - |after|..]
  }

  /** The last system call made is the one that failed, with this errno, and it was not a signal. */
  ghost predicate LastFailed(before: seq<Syscall>, after: seq<Syscall>, err: Option<Error>) {
    err.Some? && err.value.System? ==>
      && err.value.errno != EINTR && Consumed(before, after) && |after| < |before|
      && before[|before| - |after| - 1] == Fails(err.value.errno)
  }

  /** The last system call made has failed, and it was not a signal. */
  ghost predicate CallFailed(before: seq<Syscall>, after: seq<Syscall>) {
    && Consumed(before, after) && |after| < |before|
    && before[|before| - |after| - 1].Fails? && before[|before| - |after| - 1].errno != EINTR
  }

  lemma ConsumedAfter(before: seq<Syscall>, mid: seq<Syscall>, after: seq<Syscall>)
    requires Consumed(before, mid) && Consumed(mid, after)
    ensures Consumed(before, after)
    ensures forall err :: LastFailed(mid, after, err) ==> LastFailed(before, after, err)
    ensures CallFailed(mid, after) ==> CallFailed(before, after)
  {
    var j := |before| - |mid|;
    assert forall i :: 0 <= i < |mid| ==> mid[i] == before[j + i];
  }

  lemma NoneFailed(before: seq<Syscall>, after: seq<Syscall>)
    ensures forall err: Option<Error> :: !(err.Some? && err.value.System?) ==> LastFailed(before, after, err)
  {
  }

  lemma ConsumedNone(script: seq<Syscall>)
    ensures Consumed(script, script)
  {
  }

  function Min(a: nat, b: nat): nat {
    if a < b then a else b
  }

  class Descriptor {
    var incoming: bytes          // what the peer sent and nobody has read yet; EOF follows
    var readScript: seq<Syscall>
    var outgoing: bytes          // every byte the kernel has accepted
    var writeScript: seq<Syscall>
    var open: bool

    constructor (incoming: bytes, readScript: seq<Syscall>, writeScript: seq<Syscall>)
      ensures this.incoming == incoming && this.readScript == readScript
      ensures this.outgoing == [] && this.writeScript == writeScript && open
    {
      this.incoming, this.readScript, this.outgoing, this.writeScript := incoming, readScript, [], writeScript;
      open := true;
    }

    /** close(2). */
    method Release()
      modifies this`open
      ensures !open
    {
      open := false;
    }

    /** read(2): `n == -1` reports `errno`. */
    method Read(buf: array<byte>, off: nat, len: nat) returns (n: int, errno: nat)
      requires off + len <= buf.Length
      modifies this`incoming, this`readScript, buf
      ensures -1 <= n <= len && n <= |old(incoming)|
      ensures n == 0 ==> len == 0 || old(incoming) == []
      ensures n == -1 ==> incoming == old(incoming) && buf[..] == old(buf[..])
                          && old(readScript) != [] && old(readScript)[0] == Fails(errno)
      ensures n >= 0 ==> incoming == old(incoming)[n..]
                         && buf[..] == old(buf[..off]) + old(incoming)[..n] + old(buf[off + n..])
      ensures readScript == if old(readScript) == [] then [] else old(readScript)[1..]
    {
      errno := 0;
      if readScript != [] && readScript[0].Fails? {
        n, errno, readScript := -1, readScript[0].errno, readScript[1..];
        return;
      }
      var k := Min(len, |incoming|);
      if readScript != [] {
        k, readScript := Min(k, readScript[0].extra + 1), readScript[1..];
      }
      Copy(buf, off, incoming[..k]);
      n, incoming := k, incoming[k..];
    }

    static method Copy(buf: array<byte>, off: nat, data: bytes)
      requires off + |data| <= buf.Length
      modifies buf
      ensures buf[..] == old(buf[..off]) + data + old(buf[off + |data|..])
    {
      ghost var before := buf[..];
      for i := 0 to |data|
        invariant forall j :: 0 <= j < buf.Length ==>
                    buf[j] == if off <= j < off + i then data[j - off] else before[j]
      {
        buf[off + i] := data[i];
      }
    }

    /** send(2) on a positive length accepts at least one byte or fails having accepted none. */
    method Write(data: bytes) returns (n: int, errno: nat)
      modifies this`outgoing, this`writeScript
      ensures -1 <= n <= |data|
      ensures n == 0 ==> data == []
      ensures n == -1 ==> outgoing == old(outgoing) && old(writeScript) != [] && old(writeScript)[0] == Fails(errno)
      ensures n >= 0 ==> outgoing == old(outgoing) + data[..n]
      ensures writeScript == if old(writeScript) == [] then [] else old(writeScript)[1..]
    {
      errno := 0;
      if writeScript != [] && writeScript[0].Fails? {
        n, errno, writeScript := -1, writeScript[0].errno, writeScript[1..];
        return;
      }
      var k := |data|;
      if writeScript != [] {
        k, writeScript := Min(k, writeScript[0].extra + 1), writeScript[1..];
      }
      n, outgoing := k, outgoing + data[..k];
    }
  }

  class UnixSocketConnection {
    const fd: Descriptor
    var connected: bool

    constructor (fd: Descriptor)
      ensures this.fd == fd && connected
    {
      this.fd, connected := fd, true;
    }

    /** Loops over partial writes. A failure means that some bytes were not accepted. */
    method Send(data: bytes) returns (total: nat, err: Option<Error>)
      modifies this, fd`outgoing, fd`writeScript
      ensures total <= |data|
      ensures fd.outgoing == old(fd.outgoing) + data[..total]
      ensures err.None? ==> total == |data|
      ensures err.Some? ==> total < |data| && err.value.System?
      ensures connected == (old(connected) && err.None?)
      ensures Consumed(old(fd.writeScript), fd.writeScript)
      ensures LastFailed(old(fd.writeScript), fd.writeScript, err)
      ensures NoFault(old(fd.writeScript)) ==> err.None? && NoFault(fd.writeScript)
    {
      total := 0;
      while total < |data|
        invariant connected == old(connected)
        invariant total <= |data|
        invariant fd.outgoing == old(fd.outgoing) + data[..total]
        invariant Consumed(old(fd.writeScript), fd.writeScript)
        invariant NoFault(old(fd.writeScript)) ==> NoFault(fd.writeScript)
        decreases |data| - total, |fd.writeScript|
      {
        var n, errno := fd.Write(data[total..]);
        if n < 0 {
          if errno == EINTR { continue; }
          connected := false;
          return total, Some(System(errno));
        }
        if n == 0 { break; }
        assert data[..total] + data[total..][..n] == data[..total + n];
        total := total + n;
      }
      err := None;
    }

    /** One successful read, or EOF (0 bytes), or an error; signals are retried. */
    method Recv(buf: array<byte>, off: nat, len: nat) returns (received: nat, err: Option<Error>)
      requires off + len <= buf.Length
      modifies this, fd`incoming, fd`readScript, buf
      ensures received <= len && received <= |old(fd.incoming)|
      ensures fd.incoming == old(fd.incoming)[received..]
      ensures buf[..] == old(buf[..off]) + old(fd.incoming)[..received] + old(buf[off + received..])
      ensures err.Some? ==> received == 0 && err.value.System?
      ensures received == 0 && err.None? ==> len == 0 || old(fd.incoming) == []
      ensures connected == (old(connected) && received > 0)
      ensures Consumed(old(fd.readScript), fd.readScript)
      ensures LastFailed(old(fd.readScript), fd.readScript, err)
      ensures NoFault(old(fd.readScript)) ==> err.None? && NoFault(fd.readScript)
    {
      while true
        invariant fd.incoming == old(fd.incoming) && buf[..] == old(buf[..]) && connected == old(connected)
        invariant Consumed(old(fd.readScript), fd.readScript)
        invariant NoFault(old(fd.readScript)) ==> NoFault(fd.readScript)
        decreases |fd.readScript|
      {
        var n, errno := fd.Read(buf, off, len);
        if n < 0 {
          if errno == EINTR { continue; }
          connected := false;
          return 0, Some(System(errno));
        }
        if n == 0 {
          connected := false;
          return 0, None;
        }
        return n, None;
      }
    }

    /** The descriptor is released exactly when no send or receive has failed and no EOF was read. */
    method Close()
      modifies this, fd`open
      ensures !connected
      ensures fd.open == (old(fd.open) && !old(connected))
    {
      var was := connected;
      connected := false;
      if was {
        fd.Release();
      }
    }
  }

  /** What a receive returns and leaves unread when no read fails. */
  datatype Received = Received(payload: bytes, err: Option<Error>, unread: bytes)

  function ReceivedOf(s: bytes): Received {
    match ParseOne(s)
    case Complete(payload, rest) => Received(payload, None, rest)
    case Incomplete => Received([], Some(ConnectionReset), [])
    case Oversize(_) => Received([], Some(FrameTooLarge), s[4..])
  }

  class FramedConnection {
    const conn: UnixSocketConnection

    constructor (conn: UnixSocketConnection)
      ensures this.conn == conn
    {
      this.conn := conn;
    }

    /** Either the whole frame is accepted, or nothing (too large), or a strict prefix of it. */
    method SendFrame(data: bytes) returns (err: Option<Error>)
      modifies conn, conn.fd`outgoing, conn.fd`writeScript
      ensures err == Some(FrameTooLarge) <==> !Legal(data)
      ensures err == Some(FrameTooLarge) ==> conn.fd.outgoing == old(conn.fd.outgoing)
      ensures err.None? ==> conn.fd.outgoing == old(conn.fd.outgoing) + Frame(data)
      ensures err.Some? && Legal(data) ==>
                err.value.System?
                && exists k :: 0 <= k < |Frame(data)| && conn.fd.outgoing == old(conn.fd.outgoing) + Frame(data)[..k]
      ensures Consumed(old(conn.fd.writeScript), conn.fd.writeScript)
      ensures LastFailed(old(conn.fd.writeScript), conn.fd.writeScript, err)
      ensures NoFault(old(conn.fd.writeScript)) ==> NoFault(conn.fd.writeScript) && (Legal(data) ==> err.None?)
    {
      if |data| > MAX_FRAME_SIZE {
        return Some(FrameTooLarge);
      }
      var header := Header(|data|);
      ghost var whole := Frame(data);
      var sent, e := conn.Send(header);
      assert header[..sent] == whole[..sent];
      if e.Some? {
        return e;
      }
      if data != [] {
        ghost var mid := conn.fd.writeScript;
        var sent2, e2 := conn.Send(data);
        ConsumedAfter(old(conn.fd.writeScript), mid, conn.fd.writeScript);
        assert header + data[..sent2] == whole[..4 + sent2];
        assert conn.fd.outgoing == old(conn.fd.outgoing) + header + data[..sent2]
               == old(conn.fd.outgoing) + whole[..4 + sent2];
        if e2.Some? {
          return e2;
        }
      }
      assert whole == whole[..4 + |data|];
      err := None;
    }

    /** Fills `buf[..n]`, looping over partial reads. */
    method ReadExact(buf: array<byte>, n: nat) returns (err: Option<Error>)
      requires n <= buf.Length
      modifies conn, conn.fd`incoming, conn.fd`readScript, buf
      ensures err.None? ==> n <= |old(conn.fd.incoming)| && buf[..n] == old(conn.fd.incoming)[..n]
                            && conn.fd.incoming == old(conn.fd.incoming)[n..]
      ensures err == Some(ConnectionReset) ==> |old(conn.fd.incoming)| < n && conn.fd.incoming == []
      ensures err.Some? ==> err.value.System? || err.value.ConnectionReset?
      ensures Consumed(old(conn.fd.readScript), conn.fd.readScript)
      ensures LastFailed(old(conn.fd.readScript), conn.fd.readScript, err)
      ensures NoFault(old(conn.fd.readScript)) ==>
                NoFault(conn.fd.readScript) && (err.Some? ==> err.value.ConnectionReset?)
    {
      ghost var stream := conn.fd.incoming;
      var total: nat := 0;
      while total < n
        invariant total <= n && total <= |stream|
        invariant buf[..total] == stream[..total] && conn.fd.incoming == stream[total..]
        invariant Consumed(old(conn.fd.readScript), conn.fd.readScript)
        invariant NoFault(old(conn.fd.readScript)) ==> NoFault(conn.fd.readScript)
      {
        ghost var mid := conn.fd.readScript;
        var received, e := conn.Recv(buf, total, n - total);
        ConsumedAfter(old(conn.fd.readScript), mid, conn.fd.readScript);
        if e.Some? { return e; }
        if received == 0 {
          return Some(ConnectionReset);
        }
        assert stream[..total] + stream[total..][..received] == stream[..total + received];
        total := total + received;
      }
      err := None;
    }

    /** Refines `ParseOne` under every schedule; a partial payload is never returned. */
    method RecvFrame() returns (payload: bytes, err: Option<Error>)
      modifies conn, conn.fd`incoming, conn.fd`readScript
      ensures if err.Some? && err.value.System? then payload == []
              else Received(payload, err, conn.fd.incoming) == ReceivedOf(old(conn.fd.incoming))
      ensures Consumed(old(conn.fd.readScript), conn.fd.readScript)
      ensures LastFailed(old(conn.fd.readScript), conn.fd.readScript, err)
      ensures NoFault(old(conn.fd.readScript)) ==> NoFault(conn.fd.readScript) && !(err.Some? && err.value.System?)
    {
      ghost var stream := conn.fd.incoming;
      hide NoFault, Consumed, LastFailed;
      var header := new byte[4];
      err := ReadExact(header, 4);
      NoneFailed(old(conn.fd.readScript), conn.fd.readScript);
      if err.Some? {
        return [], err;
      }
      var h := header[..];
      assert h == header[..4] == stream[..4];
      var len := HeaderValue(h);
      if len > MAX_FRAME_SIZE {
        return [], Some(FrameTooLarge);
      }
      if len == 0 {
        return [], None;
      }
      var body := new byte[len];
      ghost var mid := conn.fd.readScript;
      err := ReadExact(body, len);
      ConsumedAfter(old(conn.fd.readScript), mid, conn.fd.readScript);
      NoneFailed(old(conn.fd.readScript), conn.fd.readScript);
      if err.Some? {
        return [], err;
      }
      assert body[..] == body[..len] == stream[4..][..len] == stream[4..4 + len];
      assert stream[4..][len..] == stream[4 + len..];
      payload := body[..];
    }

    method Close()
      modifies conn, conn.fd`open
      ensures !conn.connected
      ensures conn.fd.open == (old(conn.fd.open) && !old(conn.connected))
    {
      conn.Close();
    }
  }

  /** Everything receives return on a stream when no read fails, and the error that ends them. */
  datatype Reception = Reception(payloads: seq<bytes>, err: Error)

  function AllReceived(s: bytes): Reception {
    Reception(ParseAll(s).frames, if ParseAll(s).oversize then FrameTooLarge else ConnectionReset)
  }

  lemma NextReceived(s: bytes)
    ensures var r, all := ReceivedOf(s), ParseAll(s);
            match r.err
            case None =>
              && |r.unread| < |s| && all.frames == [r.payload] + ParseAll(r.unread).frames
              && all.oversize == ParseAll(r.unread).oversize
            case Some(e) => all.frames == [] && e == (if all.oversize then FrameTooLarge else ConnectionReset)
  {
  }

  /** Receiving until the first error. Under every schedule, what was returned is the first payloads of
      the stream; when no read failed it is all of them, and the error says whether the rest of the
      stream is oversize or cut short. */
  method ReceiveUntilError(framed: FramedConnection) returns (payloads: seq<bytes>, err: Error)
    modifies framed.conn, framed.conn.fd`incoming, framed.conn.fd`readScript
    ensures payloads <= AllReceived(old(framed.conn.fd.incoming)).payloads
    ensures !err.System? ==> Reception(payloads, err) == AllReceived(old(framed.conn.fd.incoming))
    ensures NoFault(old(framed.conn.fd.readScript)) ==> !err.System?
    ensures LastFailed(old(framed.conn.fd.readScript), framed.conn.fd.readScript, Some(err))
  {
    ghost var whole := ParseAll(framed.conn.fd.incoming);
    ConsumedNone(framed.conn.fd.readScript);
    hide NoFault, Consumed, LastFailed, ParseOne;
    payloads := [];
    while true
      invariant NoFault(old(framed.conn.fd.readScript)) ==> NoFault(framed.conn.fd.readScript)
      invariant Consumed(old(framed.conn.fd.readScript), framed.conn.fd.readScript)
      invariant payloads + ParseAll(framed.conn.fd.incoming).frames == whole.frames
      invariant ParseAll(framed.conn.fd.incoming).oversize == whole.oversize
      decreases |framed.conn.fd.incoming|
    {
      ghost var before := ParseAll(framed.conn.fd.incoming);
      ghost var mid := framed.conn.fd.readScript;
      ghost var stream := framed.conn.fd.incoming;
      var payload, e := framed.RecvFrame();
      NextReceived(stream);
      ConsumedAfter(old(framed.conn.fd.readScript), mid, framed.conn.fd.readScript);
      if e.Some? {
        return payloads, e.value;
      }
      ghost var after := ParseAll(framed.conn.fd.incoming);
      assert before.frames == [payload] + after.frames;
      Associative(payloads, [payload], after.frames);
      payloads := payloads + [payload];
    }
  }
}
