/** `Client` of the C++ SDK as the class it is, seen by the thread that runs `Call`.

    Wherever the code releases the mutex the method `Yield` stands for the other threads: they may
    leave the client in any consistent state. Sockets are abstract: whether a connect, a send or a
    receive succeeds, and what is received, is arbitrary. `RpcRun` puts the same pieces together for
    all threads at once. */
module ClientCall {
  import opened Bytes
  import opened Errors
  import opened Envelopes
  import opened Dispatcher
  import opened Backoff

  /** What the thread did on the outside: sends, on_disconnect callbacks, connect attempts. */
  datatype Work = Work(sends: nat, notices: nat, tries: nat)

  /** A request given to `codec_->send`, and the connection of that codec. */
  datatype Sent = Sent(connection: nat, request: Envelope)

  datatype Result =
    | Response(envelope: Envelope)
    | Refused                        // not_connected, before any request was made
    | SendFailed(err: Error)
    | RecvFailed(err: Error)
    | IdMismatch

  datatype Reconnect = Reconnect(maxAttempts: int, baseDelay: nat, maxDelay: nat)

  function Only(c: Option<nat>): set<nat> {
    if c.Some? then {c.value} else {}
  }

  newtype int64 = x: int | -0x8000_0000_0000_0000 <= x < 0x8000_0000_0000_0000

  class Client {
    const reconnect: Option<Reconnect>
    var transport: Option<nat>
    var framed: Option<nat>
    var codec: Option<nat>
    var nextRequestId: nat
    var connections: nat             // how many were opened; they are numbered in that order
    var faulted: set<nat>            // connections whose flag a failed send or receive has cleared
    var released: set<nat>           // connections whose descriptor `close` has released
    var work: Work                   // history: the work of the calling thread
    var sent: seq<Sent>              // history: what that thread has sent, or tried to
    var received: seq<Envelope>      // history: the envelopes that thread has received

    /** The handles are all null or all set and refer to the same connection, whose descriptor is not
        released. Every other connection was released or lost to a failure of the transport, and
        none was both: `close` does nothing after a failure. */
    ghost predicate Valid()
      reads this
    {
      && transport == framed == codec
      && (codec.Some? ==> codec.value < connections && codec.value !in released)
      && (forall c :: 0 <= c < connections <==> c in released || c in faulted || codec == Some(c))
      && released !! faulted
      && (reconnect.Some? ==> reconnect.value.baseDelay < 0x2_0000_0000
                              && reconnect.value.maxDelay < 0x8000_0000_0000_0000)
    }

    /** Between calls, and whenever the mutex is free, the flag of the connection is set as well. */
    ghost predicate AtRest()
      reads this
    {
      Valid() && (codec.Some? ==> codec.value !in faulted)
    }

    /** Ids never decrease, and what was released or lost stays so. */
    twostate predicate Later()
      reads this
    {
      && nextRequestId >= old(nextRequestId) && connections >= old(connections)
      && old(released) <= released && old(faulted) <= faulted
    }

    /** The calling thread sends and receives nothing. */
    twostate predicate Silent()
      reads this
    {
      sent == old(sent) && received == old(received)
    }

    /** Connection `c` was given up: it was released if and only if its flag was still set. */
    predicate GivenUp(c: nat, faulty: bool)
      reads this
    {
      (c in released <==> !faulty) && (c in faulted <==> faulty)
    }

    function Limit(): nat {
      if reconnect.None? then 0
      else if reconnect.value.maxAttempts < 0 then 0x7FFF_FFFF
      else reconnect.value.maxAttempts
    }

    /** Other threads run while the mutex is free. */
    method Yield()
      requires AtRest()
      modifies this
      ensures AtRest() && Later() && Silent() && work == old(work)
    {
      var moves: nat :| 0 <= moves;
      while moves > 0
        invariant AtRest() && Later() && Silent() && work == old(work)
      {
        moves := moves - 1;
        if * {
          nextRequestId := nextRequestId + 1;
        } else if codec.None? {
          transport, framed, codec := Some(connections), Some(connections), Some(connections);
          connections := connections + 1;
        } else {
          if * {
            Lose();
          }
          Drop();
        }
      }
    }

    /** A send or receive of the current connection has failed: the flag is cleared. */
    method Lose()
      requires Valid() && codec.Some?
      modifies this`faulted
      ensures Valid() && faulted == old(faulted) + {codec.value}
    {
      faulted := faulted + {codec.value};
    }

    /** Closes the connection and resets the handles. */
    method Drop()
      requires Valid()
      modifies this`transport, this`framed, this`codec, this`released
      ensures AtRest() && codec.None?
      ensures released == old(released) + (Only(old(framed)) - faulted)
    {
      if framed.Some? {
        if framed.value !in faulted {
          released := released + {framed.value};
        }
      }
      framed := None;
      codec := None;
      transport := None;
    }

    /** The descriptor of a connection that was in use is released. */
    method Disconnect()
      requires AtRest()
      modifies this
      ensures AtRest() && codec.None?
      ensures old(codec).Some? ==> GivenUp(old(codec).value, false)
      ensures nextRequestId == old(nextRequestId) && connections == old(connections) && work == old(work)
      ensures faulted == old(faulted) && Silent()
    {
      Drop();
    }

    /** Succeeds only when the client was not connected, and then on a new connection. */
    method ConnectLocked() returns (err: Option<Error>)
      requires AtRest()
      modifies this`transport, this`framed, this`codec, this`connections, this`work
      ensures AtRest() && work == old(work).(tries := old(work).tries + 1)
      ensures err == Some(AlreadyConnected) <==> old(codec).Some?
      ensures err.None? ==> codec == Some(old(connections)) && connections == old(connections) + 1
      ensures err.Some? ==> codec == old(codec) && connections == old(connections)
    {
      work := work.(tries := work.tries + 1);
      if codec.Some? {
        return Some(AlreadyConnected);
      }
      transport := Some(connections);
      if * {
        var errno: nat :| 0 <= errno;
        transport := None;
        return Some(System(errno));
      }
      framed := Some(connections);
      codec := Some(connections);
      connections := connections + 1;
      err := None;
    }

    /** The connection is given up before other threads can run, and the callback runs without the
        mutex. Its descriptor is released if and only if no send or receive of it has failed. */
    method HandleDisconnect()
      requires Valid()
      modifies this
      ensures AtRest() && Later() && Silent() && work == old(work).(notices := old(work).notices + 1)
      ensures old(framed).Some? ==> GivenUp(old(framed).value, old(framed).value in old(faulted))
    {
      Drop();
      work := work.(notices := work.notices + 1);
      Yield();
    }

    /** The delay in 64-bit arithmetic. */
    function Delay(rc: Reconnect, attempt: nat): (delay: int)
      requires rc.baseDelay < 0x2_0000_0000
      ensures delay == CppDelay(rc.baseDelay, rc.maxDelay, attempt)
    {
      NoOverflow(rc.baseDelay);
      var ms := (rc.baseDelay * Pow2(Min(attempt, 30))) as int64;
      Min(ms as int, rc.maxDelay)
    }

    /** Tries until a connect succeeds or the attempts are used up; attempt `k` is preceded by the
        `k`-th backoff delay, computed without overflow. */
    method AttemptReconnect() returns (err: Option<Error>, delays: seq<int>)
      requires AtRest() && reconnect.Some?
      modifies this
      ensures AtRest() && Later() && Silent() && work == old(work).(tries := old(work).tries + |delays|)
      ensures err.None? ==> codec.Some? && codec.value >= old(connections) && 1 <= |delays| <= Limit()
      ensures err.Some? ==> err == Some(NotConnected) && |delays| == Limit()
      ensures forall k :: 0 <= k < |delays| ==>
                delays[k] == CppDelay(reconnect.value.baseDelay, reconnect.value.maxDelay, k)
    {
      var rc := reconnect.value;
      delays := [];
      for attempt := 0 to Limit()
        invariant AtRest() && Later() && Silent()
        invariant |delays| == attempt && work == old(work).(tries := old(work).tries + attempt)
        invariant forall k :: 0 <= k < |delays| ==> delays[k] == CppDelay(rc.baseDelay, rc.maxDelay, k)
      {
        delays := delays + [Delay(rc, attempt)];
        Yield();
        var e := ConnectLocked();
        if e.None? {
          return None, delays;
        }
      }
      err := Some(NotConnected);
    }

    /** A failure of the transport clears the flag; a frame that is too large does not. */
    method Send(request: Envelope) returns (err: Option<Error>)
      requires AtRest() && codec.Some?
      modifies this`work, this`faulted, this`sent
      ensures sent == old(sent) + [Sent(codec.value, request)]
      ensures Valid() && work == old(work).(sends := old(work).sends + 1)
      ensures faulted == old(faulted) + (if err.Some? && OfTransport(err.value) then Only(codec) else {})
    {
      work := work.(sends := work.sends + 1);
      sent := sent + [Sent(codec.value, request)];
      if * {
        var errno: nat :| 0 <= errno;
        Lose();
        return Some(System(errno));
      } else if * {
        return Some(FrameTooLarge);
      }
      err := None;
    }

    /** EOF and failed reads clear the flag; a bad frame or envelope does not. */
    method Recv() returns (response: Envelope, err: Option<Error>)
      requires AtRest() && codec.Some?
      modifies this`faulted, this`received
      ensures Valid()
      ensures faulted == old(faulted) + (if err.Some? && OfTransport(err.value) then Only(codec) else {})
      ensures received == old(received) + (if err.None? then [response] else [])
    {
      response := *;
      if * {
        var fault: Fault := *;
        Lose();
        return response, Some(FaultError(fault));
      } else if * {
        return response, Some(SerializationError);
      } else if * {
        return response, Some(FrameTooLarge);
      }
      received := received + [response];
      err := None;
    }

    /** What the thread has done since `before`. */
    function Since(before: Work): Work
      requires before.sends <= work.sends && before.notices <= work.notices && before.tries <= work.tries
      reads this
    {
      Work(work.sends - before.sends, work.notices - before.notices, work.tries - before.tries)
    }

    twostate predicate MoreWork()
      reads this
    {
      && old(work).sends <= work.sends && old(work).notices <= work.notices && old(work).tries <= work.tries
    }

    /** Sends the request, and once more if the first send fails and a reconnect succeeds. The
        connection of a failed send is given up, so a second send is on a connection opened since. */
    method SendWithRetry(request: Envelope) returns (err: Option<Error>)
      requires AtRest() && codec.Some?
      modifies this
      ensures AtRest() && Later() && MoreWork()
      ensures var did := Since(old(work));
              && 1 <= did.sends <= 2 && did.tries <= Limit()
              && did.notices == (if err.Some? then did.sends else did.sends - 1)
              && (did.sends == 2 ==> reconnect.Some? && did.tries >= 1)
              && (did.sends == 1 ==> (err.None? ==> did.tries == 0) && (err.Some? ==> did.tries == Limit()))
              && (did.sends == 2 || err.Some? ==> codec != old(codec))
              && (did.sends == 1 && err.Some? ==> GivenUp(old(codec).value, OfTransport(err.value)))
      ensures received == old(received) && |sent| == |old(sent)| + Since(old(work)).sends
      ensures sent[..|old(sent)| + 1] == old(sent) + [Sent(old(codec).value, request)]
      ensures Since(old(work)).sends == 2 ==>
                sent[|old(sent)| + 1].request == request && sent[|old(sent)| + 1].connection >= old(connections)
      ensures err.None? ==> codec == Some(sent[|sent| - 1].connection)
    {
      err := Send(request);
      if err.None? {
        return None;
      }
      HandleDisconnect();
      if reconnect.None? {
        return err;
      }
      var failed, _ := AttemptReconnect();
      if failed.Some? {
        return err;
      }
      err := Send(request);
      if err.Some? {
        HandleDisconnect();
      }
    }

    /** The one envelope a call sends, first and, if that fails, again. */
    predicate SendsOnly(from: nat, request: Envelope)
      reads this
    {
      forall i :: from <= i < |sent| ==> sent[i].request == request
    }

    /** At most one envelope was received since there were `before`, and it decides what is returned. */
    predicate Decides(before: seq<Envelope>, id: nat, result: Result)
      reads this
    {
      if result.Response? || result.IdMismatch? then
        && |received| == |before| + 1 && received[..|before|] == before
        && var e := received[|before|];
           result == if e.requestId == id then Response(e) else IdMismatch
      else received == before
    }

    /** The second half of `call`: the request is sent, and its response received and checked. */
    method Exchange(request: Envelope) returns (result: Result)
      requires AtRest() && codec.Some?
      modifies this
      ensures AtRest() && Later() && MoreWork() && !result.Refused?
      ensures var did := Since(old(work));
              && 1 <= did.sends <= 2 && did.notices <= 2 && did.tries <= Limit()
              && (did.sends == 2 ==> reconnect.Some? && did.tries >= 1)
              && (result.SendFailed? || result.RecvFailed? ==> did.notices == did.sends)
              && (result.Response? || result.IdMismatch? ==> did.notices == did.sends - 1)
      ensures |sent| == |old(sent)| + Since(old(work)).sends && sent[..|old(sent)|] == old(sent)
      ensures SendsOnly(|old(sent)|, request) && Decides(old(received), request.requestId, result)
    {
      var sendErr := SendWithRetry(request);
      assert sent[..|old(sent)|] == sent[..|old(sent)| + 1][..|old(sent)|] == old(sent);
      assert sent[|old(sent)|] == sent[..|old(sent)| + 1][|old(sent)|];
      if sendErr.Some? {
        return SendFailed(sendErr.value);
      }
      var response, recvErr := Recv();
      if recvErr.Some? {
        HandleDisconnect();
        return RecvFailed(recvErr.value);
      }
      if response.requestId != request.requestId {
        return IdMismatch;
      }
      result := Response(response);
    }

    /** Bounded work, exactly: each call makes at most two sends and at most `Limit` connect attempts
        per reconnect, and on_disconnect is fired once for every failed send and receive. The codec is
        never used when it is null. Every envelope sent is the request that was asked for; and what is
        received decides: it is returned exactly if it carries the id of that request. */
    method Call(service: bytes, name: bytes, payload: bytes) returns (result: Result, id: nat)
      requires AtRest()
      modifies this
      ensures AtRest() && Later() && MoreWork()
      ensures var did := Since(old(work));
              && did.sends <= 2 && did.notices <= 2 && did.tries <= 2 * Limit()
              && (did.sends == 0 <==> result.Refused?)
              && (result.Refused? ==> did.notices == 0 && did.tries == Limit())
              && (did.sends == 2 ==> reconnect.Some? && did.tries >= 1)
              && (result.SendFailed? || result.RecvFailed? ==> did.notices == did.sends)
              && (result.Response? || result.IdMismatch? ==> did.notices == did.sends - 1)
      ensures !result.Refused? ==> old(nextRequestId) <= id < nextRequestId
      ensures old(codec).Some? ==> !result.Refused? && id == old(nextRequestId)
      ensures reconnect.None? && old(codec).None? ==> result.Refused?
      ensures |sent| == |old(sent)| + Since(old(work)).sends && sent[..|old(sent)|] == old(sent)
      ensures SendsOnly(|old(sent)|, Envelope(REQUEST, id, service, name, payload, OK, [], map[]))
      ensures Decides(old(received), id, result)
    {
      id := 0;
      if codec.None? && reconnect.Some? {
        var err, _ := AttemptReconnect();
        if err.Some? {
          return Refused, id;
        }
      }
      if codec.None? {
        return Refused, id;
      }
      id := nextRequestId;
      nextRequestId := nextRequestId + 1;
      result := Exchange(Envelope(0, id, service, name, payload, 0, [], map[]));
    }
  }
}
