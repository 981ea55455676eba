/** The C++ server's loop over the requests of one connection. */
module ServerLoop {
  import opened Bytes
  import opened Frames
  import opened CppFraming
  import opened Dispatcher
  import opened CppCodec
  import opened Exchanges

  /** What the requests on the stream are answered with: the i-th frame is decoded and dispatched,
      the i-th handler run being `handlers(i)`. */
  ghost predicate Answers(wire: Wire, services: Services, handlers: nat -> HandlerResult,
                          frames: seq<bytes>, served: seq<Exchange>)
  {
    && |served| <= |frames|
    && forall i :: 0 <= i < |served| ==>
         && wire.dec(frames[i]) == Some(served[i].request)
         && served[i].response == Dispatch(services, served[i].request, handlers(i))
  }

  /** `after` is `before` and a response that was refused for its size or cut short. */
  ghost predicate CutShort(before: bytes, after: bytes, payload: bytes) {
    if !Legal(payload) then after == before
    else exists k :: 0 <= k < |Frame(payload)| && after == before + Frame(payload)[..k]
  }

  /** The bytes written for `served`, of which the first `sent` were sent in full. */
  ghost predicate Wrote(wire: Wire, before: bytes, after: bytes, served: seq<Exchange>, sent: nat) {
    && sent <= |served| <= sent + 1
    && AllLegal(Responses(wire, served[..sent]))
    && var whole := before + Stream(Responses(wire, served[..sent]));
       if sent == |served| then after == whole else CutShort(whole, after, wire.enc(served[sent].response))
  }

  /** Why the loop stops when no system call fails. */
  ghost predicate StoppedByContent(wire: Wire, frames: seq<bytes>, served: seq<Exchange>, sent: nat)
    requires sent <= |served| <= |frames|
  {
    || (sent == |served| == |frames|)
    || (sent == |served| < |frames| && wire.dec(frames[sent]).None?)
    || (sent < |served| && !Legal(wire.enc(served[sent].response)))
  }

  datatype Turn =
    | Closed
    | Undecodable
    | Replied(exchange: Exchange)
    | NotSent(exchange: Exchange)

  predicate MadeFrom(wire: Wire, services: Services, handler: HandlerResult, payload: bytes, x: Exchange) {
    wire.dec(payload) == Some(x.request) && x.response == Dispatch(services, x.request, handler)
  }

  /** One iteration of the loop. */
  method ServeOne(framed: FramedConnection, wire: Wire, services: Services, handler: HandlerResult)
    returns (turn: Turn)
    modifies framed.conn, framed.conn.fd
    ensures var before, after := old(framed.conn.fd.incoming), framed.conn.fd.incoming;
            if turn.Closed? then
              CallFailed(old(framed.conn.fd.readScript), framed.conn.fd.readScript) || !ParseOne(before).Complete?
            else ParseOne(before).Complete? && ParseOne(before).rest == after
                 && match turn
                    case Undecodable => wire.dec(ParseOne(before).payload) == None
                    case Replied(x) => MadeFrom(wire, services, handler, ParseOne(before).payload, x)
                    case NotSent(x) => MadeFrom(wire, services, handler, ParseOne(before).payload, x)
    ensures var before, after := old(framed.conn.fd.outgoing), framed.conn.fd.outgoing;
            match turn
            case Replied(x) => Legal(wire.enc(x.response)) && after == before + Frame(wire.enc(x.response))
            case NotSent(x) => CutShort(before, after, wire.enc(x.response))
            case _ => after == before
    ensures Consumed(old(framed.conn.fd.readScript), framed.conn.fd.readScript)
    ensures Consumed(old(framed.conn.fd.writeScript), framed.conn.fd.writeScript)
    ensures turn.NotSent? ==>
              || CallFailed(old(framed.conn.fd.writeScript), framed.conn.fd.writeScript)
              || !Legal(wire.enc(turn.exchange.response))
  {
    var payload, err := framed.RecvFrame();
    if err.Some? {
      return Closed;
    }
    var request := wire.dec(payload);
    if request.None? {
      return Undecodable;
    }
    var response := Dispatch(services, request.value, handler);
    var sendErr := framed.SendFrame(wire.enc(response));
    turn := if sendErr.Some? then NotSent(Exchange(request.value, response))
            else Replied(Exchange(request.value, response));
  }

  /** In-order service. Whatever arrives and however reads and writes turn out, the requests served
      are the first frames of the stream in order, the responses written are theirs in the same
      order, at most the last one is missing or cut short, and no other byte is written. The loop
      goes on after an error response: it stops only when a system call has failed, at the end of the
      stream, at a frame it cannot decode, or at a response too large to send. */
  method HandleConnection(framed: FramedConnection, wire: Wire, services: Services, handlers: nat -> HandlerResult)
    returns (served: seq<Exchange>, sent: nat)
    modifies framed.conn, framed.conn.fd
    ensures Answers(wire, services, handlers, ParseAll(old(framed.conn.fd.incoming)).frames, served)
    ensures Wrote(wire, old(framed.conn.fd.outgoing), framed.conn.fd.outgoing, served, sent)
    ensures || CallFailed(old(framed.conn.fd.readScript), framed.conn.fd.readScript)
            || CallFailed(old(framed.conn.fd.writeScript), framed.conn.fd.writeScript)
            || StoppedByContent(wire, ParseAll(old(framed.conn.fd.incoming)).frames, served, sent)
  {
    ghost var frames := ParseAll(framed.conn.fd.incoming).frames;
    ghost var out := framed.conn.fd.outgoing;
    served, sent := [], 0;
    NothingSent(wire, out);
    while true
      invariant sent == |served| <= |frames|
      invariant frames[sent..] == ParseAll(framed.conn.fd.incoming).frames
      invariant Answers(wire, services, handlers, frames, served)
      invariant Wrote(wire, out, framed.conn.fd.outgoing, served, sent)
      invariant Consumed(old(framed.conn.fd.readScript), framed.conn.fd.readScript)
      invariant Consumed(old(framed.conn.fd.writeScript), framed.conn.fd.writeScript)
      decreases |framed.conn.fd.incoming|
    {
      ghost var before, written := framed.conn.fd.incoming, framed.conn.fd.outgoing;
      ghost var readBefore, writeBefore := framed.conn.fd.readScript, framed.conn.fd.writeScript;
      var turn := ServeOne(framed, wire, services, handlers(sent));
      ConsumedAfter(old(framed.conn.fd.readScript), readBefore, framed.conn.fd.readScript);
      ConsumedAfter(old(framed.conn.fd.writeScript), writeBefore, framed.conn.fd.writeScript);
      NextFrame(frames, sent, before);
      match turn
      case Closed =>
        break;
      case Undecodable =>
        break;
      case NotSent(x) =>
        NextAnswer(wire, services, handlers, frames, served, x);
        NextNotSent(wire, out, written, framed.conn.fd.outgoing, served, x);
        served := served + [x];
        break;
      case Replied(x) =>
        NextAnswer(wire, services, handlers, frames, served, x);
        NextSent(wire, out, written, served, x);
        served, sent := served + [x], sent + 1;
    }
  }

  lemma NothingSent(wire: Wire, out: bytes)
    ensures Wrote(wire, out, out, [], 0)
  {
    assert out + [] == out;
  }

  lemma NextFrame(frames: seq<bytes>, n: nat, stream: bytes)
    requires n <= |frames| && frames[n..] == ParseAll(stream).frames
    ensures if ParseOne(stream).Complete?
            then n < |frames| && frames[n] == ParseOne(stream).payload
                 && frames[n + 1..] == ParseAll(ParseOne(stream).rest).frames
            else n == |frames|
  {
    if ParseOne(stream).Complete? {
      assert frames[n..][1..] == frames[n + 1..];
    }
  }

  lemma NextAnswer(wire: Wire, services: Services, handlers: nat -> HandlerResult,
                   frames: seq<bytes>, served: seq<Exchange>, x: Exchange)
    requires Answers(wire, services, handlers, frames, served) && |served| < |frames|
    requires wire.dec(frames[|served|]) == Some(x.request)
    requires x.response == Dispatch(services, x.request, handlers(|served|))
    ensures Answers(wire, services, handlers, frames, served + [x])
  {
  }

  lemma NextNotSent(wire: Wire, before: bytes, written: bytes, after: bytes, served: seq<Exchange>, x: Exchange)
    requires Wrote(wire, before, written, served, |served|)
    requires CutShort(written, after, wire.enc(x.response))
    ensures Wrote(wire, before, after, served + [x], |served|)
  {
    assert (served + [x])[..|served|] == served == served[..|served|];
  }

  lemma NextSent(wire: Wire, before: bytes, written: bytes, served: seq<Exchange>, x: Exchange)
    requires Wrote(wire, before, written, served, |served|) && Legal(wire.enc(x.response))
    ensures Wrote(wire, before, written + Frame(wire.enc(x.response)), served + [x], |served| + 1)
  {
    var all := served + [x];
    assert all[..|served| + 1] == all && served[..|served|] == served;
    AppendResponse(before, Responses(wire, served), wire.enc(x.response));
    assert Responses(wire, all) == Responses(wire, served) + [wire.enc(x.response)];
  }

  lemma AppendResponse(before: bytes, payloads: seq<bytes>, r: bytes)
    requires AllLegal(payloads) && Legal(r)
    ensures AllLegal(payloads + [r])
    ensures before + Stream(payloads + [r]) == before + Stream(payloads) + Frame(r)
  {
    StreamSnoc(payloads, r);
    Associative(before, Stream(payloads), Frame(r));
  }
}
