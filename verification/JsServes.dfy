/** The TypeScript server's loop goes on: what it does with each request, error responses included, and
    that on a live connection every request that has arrived can be answered. */
module JsServes {
  import opened Bytes
  import opened Frames
  import opened Dispatcher
  import opened Exchanges
  import R = JsFraming
  import P = JsReceives
  import opened JsServer

  // ---------------------------------------------------------------- only writes fail as writes

  /** The loop ends because of a failed write only if one did fail, or the connection was gone. */
  lemma {:induction false} OnlyWritesFail(wire: Wire, services: Services, steps: seq<Step>)
    ensures var l := Run(wire, services, steps);
            l.pc == Ended(WriteFailed) ==> !l.rx.sock.connected || WriteFails in steps
    decreases |steps|
  {
    if steps != [] {
      var init, step := steps[..|steps| - 1], steps[|steps| - 1];
      OnlyWritesFail(wire, services, init);
      StepFails(wire, services, Run(wire, services, init), step);
      assert forall x :: x in init ==> x in steps;
      assert step in steps;
    }
  }

  lemma StepFails(wire: Wire, services: Services, l: Loop, step: Step)
    ensures var l1 := Apply(wire, services, l, step);
            && (!l.rx.sock.connected ==> !l1.rx.sock.connected)
            && (l1.pc == Ended(WriteFailed) && l.pc != Ended(WriteFailed) ==>
                  !l1.rx.sock.connected || step.WriteFails?)
            && (l.pc == Ended(WriteFailed) ==> l1.pc == l.pc)
  {
    ReceiverMoves(l.rx, R.Call);
  }

  // ---------------------------------------------------------------- a request comes in

  lemma TwoMore(wire: Wire, services: Services, steps: seq<Step>, a: Step, b: Step)
    ensures Run(wire, services, steps + [a, b])
         == Apply(wire, services, Apply(wire, services, Run(wire, services, steps), a), b)
  {
    hide Apply;
    Next(wire, services, steps, a);
    Next(wire, services, steps + [a], b);
    assert steps + [a, b] == steps + [a] + [b];
  }

  /** The continuations of `recvFrame` run to their end, or wait. */
  lemma ResumesTwice(wire: Wire, services: Services, l: Loop)
    requires R.Inv(l.rx) && Position(wire, l) && l.pc.Receiving?
    ensures Apply(wire, services, Apply(wire, services, l, Resume), Resume)
         == Received(wire, l.(rx := P.Continued(l.rx)))
  {
    var r1 := R.Continue(l.rx);
    var l1 := Received(wire, l.(rx := r1));
    ReceiverMoves(l.rx, R.Resume);
    StillReading(l.rx);
    hide R.Continue, R.Inv;
    assert Apply(wire, services, l, Resume) == l1;
    if l1.pc.Receiving? {
      assert Apply(wire, services, l1, Resume) == Received(wire, l1.(rx := R.Continue(r1)));
    } else {
      P.IdleStays(r1);
    }
  }

  /** What the loop makes of the bytes it has not read. */
  ghost predicate Proceeds(wire: Wire, l: Loop, l1: Loop) {
    && l1.served == l.served && l1.sent == l.sent && l1.out == l.out && l1.tail == l.tail
    && l1.rx.arrived == l.rx.arrived && l1.rx.sock.connected == l.rx.sock.connected
    && match ParseOne(P.Unread(l.rx))
       case Complete(payload, rest) =>
         && l1.rx.frames == l.rx.frames + [payload] && P.Unread(l1.rx) == rest
         && l1.pc == (match wire.dec(payload)
                      case None => Ended(Undecodable)
                      case Some(request) => Dispatching(request))
       case Oversize(_) => l1.pc == Ended(ReceiveFailed) && l1.rx.failure == Some(R.TooLarge)
       case Incomplete =>
         if R.Waiting(l1.rx) then l1.pc.Receiving?
         else l1.pc == Ended(ReceiveFailed) && !l.rx.sock.connected
  }

  lemma ReceivedProceeds(wire: Wire, l: Loop)
    requires R.Inv(l.rx) && Position(wire, l) && l.pc.Receiving?
    ensures Proceeds(wire, l, Received(wire, l.(rx := P.Continued(l.rx))))
  {
    P.CallEnds(l.rx);
    P.InvReturns(l.rx);
    P.FailedIsIdle(P.Continued(l.rx));
    hide R.Inv, P.Continued, ParseOne, P.Unread;
    ReturnsProceeds(wire, l, P.Continued(l.rx));
  }

  lemma ReturnsProceeds(wire: Wire, l: Loop, r1: R.Receiver)
    requires l.pc.Receiving? && |l.rx.frames| == |l.served|
    requires P.Returns(l.rx, r1) && r1.arrived == l.rx.arrived && r1.sock.connected == l.rx.sock.connected
    ensures Proceeds(wire, l, Received(wire, l.(rx := r1)))
  {
    hide R.Inv, ParseOne, P.Unread;
  }

  /** A receive in progress, after every run: the next request is dispatched exactly if its frame has
      arrived whole and decodes; else the loop ends, if the frame cannot be read or decoded, or waits. */
  lemma ReceivesNext(wire: Wire, services: Services, steps: seq<Step>)
    requires Run(wire, services, steps).pc.Receiving?
    ensures Proceeds(wire, Run(wire, services, steps), Run(wire, services, steps + [Resume, Resume]))
  {
    RunKeeps(wire, services, steps);
    TwoMore(wire, services, steps, Resume, Resume);
    hide Run, Apply, Proceeds, R.Inv, Position;
    ResumesTwice(wire, services, Run(wire, services, steps));
    ReceivedProceeds(wire, Run(wire, services, steps));
  }

  /** At its test, on a live connection, the loop starts to receive. */
  lemma TestReceives(wire: Wire, services: Services, steps: seq<Step>)
    requires var l := Run(wire, services, steps); l.pc.Testing? && l.rx.sock.connected
    ensures var l, l1 := Run(wire, services, steps), Run(wire, services, steps + [Test]);
            && l1.pc.Receiving? && l1 == l.(pc := l1.pc, rx := l1.rx)
            && l1.rx.arrived == l.rx.arrived && l1.rx.frames == l.rx.frames && l1.rx.sock.connected
  {
    RunKeeps(wire, services, steps);
    Next(wire, services, steps, Test);
    ReceiverMoves(Run(wire, services, steps).rx, R.Call);
  }

  // ---------------------------------------------------------------- its response goes out

  /** A request dispatched on a live connection is answered whole, whatever its handler did, and the
      loop is back at its test: an error response is written like any other. */
  lemma RepliesNext(wire: Wire, services: Services, steps: seq<Step>, h: HandlerResult) returns (writes: seq<Step>)
    requires var l := Run(wire, services, steps); l.pc.Dispatching? && l.rx.sock.connected && !h.Fails?
    requires var l := Run(wire, services, steps); Legal(wire.enc(JsDispatch(services, l.pc.request, h)))
    ensures forall x :: x in writes ==> x.Accepted?
    ensures var l := Run(wire, services, steps);
            var response := JsDispatch(services, l.pc.request, h);
            Run(wire, services, steps + [Settle(h)] + writes)
              == l.(pc := Testing, served := l.served + [Exchange(l.pc.request, response)], sent := l.sent + 1,
                    out := l.out + Frame(wire.enc(response)), tail := [])
  {
    var l := Run(wire, services, steps);
    var f := Frame(wire.enc(JsDispatch(services, l.pc.request, h)));
    Next(wire, services, steps, Settle(h));
    hide Run, JsDispatch;
    writes := Finishes(wire, services, steps + [Settle(h)], f, 0);
    assert f[0..] == f;
  }

  // ---------------------------------------------------------------- the loop goes on

  predicate OnlyOurs(steps: seq<Step>) {
    forall x :: x in steps ==> x.Test? || x.Resume? || x.Settle? || x.Accepted?
  }

  /** The decoder accepts the frame, and the response to it can be sent. */
  ghost predicate Answerable(wire: Wire, services: Services, frame: bytes, h: HandlerResult) {
    && !h.Fails? && wire.dec(frame).Some?
    && Legal(wire.enc(JsDispatch(services, wire.dec(frame).value, h)))
  }

  /** Every frame from `from` on was served, with the results `h`, and every response was sent. */
  ghost predicate CaughtUp(wire: Wire, services: Services, l: Loop, from: nat, h: nat -> HandlerResult) {
    var frames := ParseAll(l.rx.arrived).frames;
    && |l.served| == |frames| == l.sent && l.tail == []
    && (forall i :: from <= i < |frames| ==>
          && Answerable(wire, services, frames[i], h(i))
          && l.served[i].response == JsDispatch(services, wire.dec(frames[i]).value, h(i)))
    && if ParseAll(l.rx.arrived).oversize then l.pc == Ended(ReceiveFailed) else l.pc.Receiving?
  }

  function Rank(pc: Pc): nat {
    match pc
    case Sending(_, _) => 3
    case Testing => 2
    case Receiving => 1
    case _ => 0
  }

  /** What is known of a loop between steps. */
  lemma Facts(wire: Wire, services: Services, steps: seq<Step>)
    ensures var l := Run(wire, services, steps);
            var frames := ParseAll(l.rx.arrived).frames;
            && |l.rx.frames| <= |frames| && l.rx.frames == frames[..|l.rx.frames|]
            && (R.Waiting(l.rx) || l.rx.failure.Some? ==> l.rx.frames == frames)
            && (R.Waiting(l.rx) ==> !ParseAll(l.rx.arrived).oversize)
            && (l.rx.failure.Some? && l.rx.sock.connected ==> ParseAll(l.rx.arrived).oversize)
            && |l.served| <= |l.rx.frames| <= |l.served| + 1
            && (l.pc.Dispatching? <==> !l.pc.Ended? && |l.rx.frames| == |l.served| + 1)
            && (l.pc.Dispatching? ==> wire.dec(l.rx.frames[|l.served|]) == Some(l.pc.request))
            && (l.pc.Sending? ==> l.pc.done < |l.pc.frame| && l.sent + 1 == |l.served|)
            && (l.pc.Testing? || l.pc.Receiving? || l.pc.Dispatching? ==> l.sent == |l.served| && l.tail == [])
            && (l.pc == Ended(Undecodable) ==>
                  |l.rx.frames| == |l.served| + 1 && wire.dec(l.rx.frames[|l.served|]).None?)
            && (l.pc == Ended(ReceiveFailed) ==> |l.rx.frames| == |l.served| == l.sent && l.tail == [])
  {
    RunKeeps(wire, services, steps);
    R.InvRefines(Run(wire, services, steps).rx);
  }

  /** One stretch of the loop's own steps. */
  lemma Advances(wire: Wire, services: Services, steps: seq<Step>, h: HandlerResult) returns (more: seq<Step>)
    requires var l := Run(wire, services, steps);
             && !l.pc.Ended? && l.rx.sock.connected
             && (l.pc.Dispatching? ==> !h.Fails? && Legal(wire.enc(JsDispatch(services, l.pc.request, h))))
    ensures OnlyOurs(more)
    ensures Stretch(wire, services, Run(wire, services, steps), Run(wire, services, steps + more), h)
  {
    hide Run, Apply, ParseAll, ParseOne, JsDispatch, P.Unread;
    var l := Run(wire, services, steps);
    match l.pc
    case Testing =>
      more := [Test];
      TestReceives(wire, services, steps);
    case Receiving =>
      more := [Resume, Resume];
      ReceivesNext(wire, services, steps);
      Facts(wire, services, steps);
    case Dispatching(_) =>
      var writes := RepliesNext(wire, services, steps, h);
      more := [Settle(h)] + writes;
      assert steps + more == steps + [Settle(h)] + writes;
    case Sending(f, i) =>
      Facts(wire, services, steps);
      more := Finishes(wire, services, steps, f, i);
  }

  /** It brings the loop nearer to having served everything, unless nothing more has arrived. */
  ghost predicate Stretch(wire: Wire, services: Services, l: Loop, l1: Loop, h: HandlerResult) {
    && l1.rx.arrived == l.rx.arrived && l1.rx.sock.connected
    && match l.pc
       case Testing => l1.pc.Receiving? && l1.served == l.served
       case Receiving =>
         && l1.served == l.served
         && (l1.pc.Dispatching? || l1.pc == Ended(Undecodable)
             || (l1.pc == Ended(ReceiveFailed) && l1.rx.failure.Some?) || (l1.pc.Receiving? && R.Waiting(l1.rx)))
       case Dispatching(request) =>
         !h.Fails? && l1.pc.Testing? && l1.served == l.served + [Exchange(request, JsDispatch(services, request, h))]
       case _ => l1.pc.Testing? && l1.served == l.served
  }

  lemma ThenAll(wire: Wire, services: Services, l: Loop, l1: Loop, l2: Loop, h: nat -> HandlerResult)
    requires Stretch(wire, services, l, l1, h(|l.served|)) && l2.rx.arrived == l1.rx.arrived
    requires |l.served| <= |l1.served| <= |l2.served| && l1.served == l2.served[..|l1.served|]
    requires l.pc.Dispatching? ==>
               && |l.served| < |ParseAll(l.rx.arrived).frames|
               && Answerable(wire, services, ParseAll(l.rx.arrived).frames[|l.served|], h(|l.served|))
               && wire.dec(ParseAll(l.rx.arrived).frames[|l.served|]) == Some(l.pc.request)
    requires CaughtUp(wire, services, l2, |l1.served|, h)
    ensures CaughtUp(wire, services, l2, |l.served|, h)
    ensures l.served == l2.served[..|l.served|]
  {
    if l.pc.Dispatching? {
      assert l2.served[|l.served|] == l1.served[|l.served|];
      assert l1.served[..|l.served|] == l.served;
    }
  }

  /** On a live connection every request that has arrived can be answered, from every reachable state
      and whatever the handlers do: if the decoder accepts the frames and the responses fit, the
      loop's own steps serve them all, write every response whole, and come back to receiving, or end
      because the next frame is too large. */
  lemma {:induction false} EveryRequestAnswered(wire: Wire, services: Services, steps: seq<Step>,
                                                h: nat -> HandlerResult)
    returns (more: seq<Step>)
    requires !Run(wire, services, steps).pc.Ended? && Run(wire, services, steps).rx.sock.connected
    requires var l := Run(wire, services, steps);
             var frames := ParseAll(l.rx.arrived).frames;
             forall i :: |l.served| <= i < |frames| ==> Answerable(wire, services, frames[i], h(i))
    ensures OnlyOurs(more)
    ensures var l, l1 := Run(wire, services, steps), Run(wire, services, steps + more);
            && l1.rx.arrived == l.rx.arrived && |l.served| <= |l1.served| && l.served == l1.served[..|l.served|]
            && CaughtUp(wire, services, l1, |l.served|, h)
    decreases |ParseAll(Run(wire, services, steps).rx.arrived).frames| - |Run(wire, services, steps).served|,
              Rank(Run(wire, services, steps).pc)
  {
    var l := Run(wire, services, steps);
    Facts(wire, services, steps);
    hide Run, ParseAll, JsDispatch;
    var first := Advances(wire, services, steps, h(|l.served|));
    var l1 := Run(wire, services, steps + first);
    Facts(wire, services, steps + first);
    if l.pc.Receiving? && !l1.pc.Dispatching? {
      more := first;
    } else {
      var rest := EveryRequestAnswered(wire, services, steps + first, h);
      more := first + rest;
      assert steps + first + rest == steps + more;
      ThenAll(wire, services, l, l1, Run(wire, services, steps + more), h);
    }
  }

  // ---------------------------------------------------------------- the peer, and its end

  /** The socket has neither ended nor been closed. */
  predicate Open(steps: seq<Step>) {
    forall i :: 0 <= i < |steps| ==> !steps[i].End? && !steps[i].Close?
  }

  /** The chunks that came in while it was open. */
  function Delivered(steps: seq<Step>): bytes {
    if steps == [] then []
    else
      var init, last := steps[..|steps| - 1], steps[|steps| - 1];
      Delivered(init) + (if last.Chunk? && Open(init) then last.chunk else [])
  }

  lemma StepOpen(wire: Wire, services: Services, l: Loop, step: Step)
    ensures var l1 := Apply(wire, services, l, step);
            && (l1.rx.sock.connected <==> l.rx.sock.connected && !step.End? && !step.Close?)
            && l1.rx.arrived == l.rx.arrived + (if step.Chunk? && l.rx.sock.connected then step.chunk else [])
  {
    P.StepOpen(l.rx, R.Call);
    P.StepOpen(l.rx, R.Resume);
    match step
    case Chunk(chunk) => P.StepOpen(l.rx, R.Chunk(chunk));
    case End(code) => P.StepOpen(l.rx, R.End(code));
    case Close => P.StepOpen(l.rx, R.Close);
    case _ => hide R.Step;
  }

  /** What the loop reads is the concatenation of the chunks delivered until the socket ended or was
      closed. */
  lemma {:induction false} Arrives(wire: Wire, services: Services, steps: seq<Step>)
    ensures Run(wire, services, steps).rx.arrived == Delivered(steps)
    ensures Run(wire, services, steps).rx.sock.connected <==> Open(steps)
    decreases |steps|
  {
    if steps != [] {
      var init, last := steps[..|steps| - 1], steps[|steps| - 1];
      Arrives(wire, services, init);
      hide Apply;
      StepOpen(wire, services, Run(wire, services, init), last);
    }
  }

  /** How many more bytes of the write in progress a dead connection can still have accepted: the payload
      is not begun once its header is out. */
  function BytesLeft(l: Loop): nat {
    match l.pc
    case Sending(f, i) =>
      if i < 4 <= |f| then 4 - i else if i == 4 then 0 else if i < |f| then |f| - i else 0
    case _ => 0
  }

  /** How many more requests the loop may dispatch on it. */
  function TurnsLeft(l: Loop): nat {
    if l.pc.Receiving? || l.pc.Dispatching? then 1 else 0
  }

  function RepliesLeft(l: Loop): nat {
    if l.pc.Sending? then 1 else 0
  }

  /** `l1` has used up some of what `l` had left. */
  ghost predicate WithinLeft(l: Loop, l1: Loop) {
    && !l1.rx.sock.connected
    && |l1.out| + BytesLeft(l1) <= |l.out| + BytesLeft(l)
    && |l1.served| + TurnsLeft(l1) <= |l.served| + TurnsLeft(l)
    && l1.sent + RepliesLeft(l1) <= l.sent + RepliesLeft(l)
  }

  lemma WritesWithin(l: Loop, f: bytes, i: nat, n: nat)
    requires !l.rx.sock.connected && l.pc == Sending(f, i) && i < |f| && |f| >= 4
    ensures WithinLeft(l, Write(l, f, i, n))
  {
  }

  lemma StepWithin(wire: Wire, services: Services, l: Loop, step: Step)
    requires !l.rx.sock.connected && (l.pc.Sending? ==> l.pc.done < |l.pc.frame| && |l.pc.frame| >= 4)
    ensures WithinLeft(l, Apply(wire, services, l, step))
  {
    StepOpen(wire, services, l, step);
    if step.Accepted? && l.pc.Sending? {
      WritesWithin(l, l.pc.frame, l.pc.done, step.n);
    }
    hide Write, R.Step, R.Continue;
  }

  /** On a dead connection the loop comes to an end: however the run goes on, it writes no more than the
      rest of the piece that was being written, dispatches at most the request it was receiving, and
      completes at most the response it was sending. */
  lemma {:induction false} DeadLoopEnds(wire: Wire, services: Services, steps: seq<Step>, later: seq<Step>)
    requires !Open(steps)
    ensures WithinLeft(Run(wire, services, steps), Run(wire, services, steps + later))
    decreases |later|
  {
    Arrives(wire, services, steps);
    if later == [] {
      assert steps + later == steps;
    } else {
      var init, last := later[..|later| - 1], later[|later| - 1];
      DeadLoopEnds(wire, services, steps, init);
      hide Apply, Run, BytesLeft, TurnsLeft, RepliesLeft;
      Next(wire, services, steps + init, last);
      assert steps + init + [last] == steps + later;
      SendingFrame(wire, services, steps + init);
      StepWithin(wire, services, Run(wire, services, steps + init), last);
    }
  }

  lemma SendingFrame(wire: Wire, services: Services, steps: seq<Step>)
    ensures var l := Run(wire, services, steps); l.pc.Sending? ==> l.pc.done < |l.pc.frame| && |l.pc.frame| >= 4
  {
    RunKeeps(wire, services, steps);
  }
}
