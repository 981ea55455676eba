/** What a call of `recvFrame` comes to: with no more than its two continuations, it returns the next
    frame of the stream, or fails as that frame tells it to, or the frame is not there yet. */
module JsReceives {
  import opened Bytes
  import opened Frames
  import opened JsFraming
  import S = JsSocket

  /** The bytes that have arrived after the frames returned so far. */
  ghost function Unread(r: Receiver): bytes {
    if AllLegal(r.frames) && |Stream(r.frames)| <= |r.arrived| then r.arrived[|Stream(r.frames)|..] else []
  }

  /** The call in progress has come to its end, or waits. */
  function Continued(r: Receiver): Receiver {
    Continue(Continue(r))
  }

  lemma ContinueKeeps(r: Receiver)
    requires Inv(r)
    ensures Inv(Continue(r)) && Continue(r).arrived == r.arrived
    ensures Continue(r).sock.connected == r.sock.connected
  {
    match r.pc
    case Idle =>
    case Header4(_) => HeaderResumeKeeps(r);
    case Body(_, _) => BodyResumeKeeps(r);
  }

  /** The call has returned a frame, or failed, or waits. */
  predicate Ended(r: Receiver, r1: Receiver) {
    || (r1.pc.Idle? && r1.failure.None? && |r1.frames| == |r.frames| + 1 && r1.frames[..|r.frames|] == r.frames)
    || (r1.pc.Idle? && r1.failure.Some? && r1.frames == r.frames)
    || (Waiting(r1) && r1.frames == r.frames)
  }

  lemma BodyEnds(r: Receiver)
    requires Inv(r) && r.pc.Body?
    ensures Ended(r, Continue(r))
    ensures Waiting(r) ==> Continue(r) == r
  {
    ReadOutcome(r.sock, r.pc.ticket, r.pc.length);
  }

  lemma HeaderEnds(r: Receiver)
    requires Inv(r) && r.pc.Header4?
    ensures Ended(r, Continue(r)) || (Continue(r).pc.Body? && Continue(r).frames == r.frames)
    ensures Waiting(r) ==> Continue(r) == r
  {
    ReadOutcome(r.sock, r.pc.ticket, 4);
  }

  lemma WaitingStays(r: Receiver)
    requires Inv(r) && Waiting(r)
    ensures Continue(r) == r && !r.pc.Idle? && r.failure.None?
  {
    if r.pc.Body? {
      BodyEnds(r);
    } else {
      HeaderEnds(r);
    }
  }

  lemma CallEnds(r: Receiver)
    requires Inv(r) && !r.pc.Idle?
    ensures Ended(r, Continued(r)) && Inv(Continued(r)) && Continued(r).arrived == r.arrived
    ensures Continued(r).sock.connected == r.sock.connected
  {
    var r1 := Continue(r);
    ContinueKeeps(r);
    ContinueKeeps(r1);
    hide Inv, Continue;
    if r.pc.Body? {
      BodyEnds(r);
    } else {
      HeaderEnds(r);
    }
    if Waiting(r1) {
      WaitingStays(r1);
    } else if r1.pc.Idle? {
      IdleStays(r1);
    } else {
      BodyEnds(r1);
    }
  }

  lemma IdleStays(r: Receiver)
    requires r.pc.Idle?
    ensures Continue(r) == r
  {
  }

  lemma UnreadIsTail(r: Receiver)
    requires Inv(r)
    ensures Unread(r) == Tail(r)
  {
  }

  /** One frame more was returned: it was the next one. */
  lemma NextFrame(r: Receiver, r1: Receiver)
    requires Inv(r) && Inv(r1) && r1.arrived == r.arrived
    requires |r1.frames| == |r.frames| + 1 && r1.frames[..|r.frames|] == r.frames
    ensures ParseOne(Tail(r)) == Complete(r1.frames[|r.frames|], Tail(r1))
  {
    var p := r1.frames[|r.frames|];
    assert r1.frames == r.frames + [p];
    ReturnFrame(r.frames, p, Tail(r1));
    assert Stream(r.frames) + Tail(r) == Stream(r.frames) + (Frame(p) + Tail(r1));
    assert Tail(r) == (Stream(r.frames) + Tail(r))[|Stream(r.frames)|..];
    assert Frame(p) + Tail(r1) == (Stream(r.frames) + (Frame(p) + Tail(r1)))[|Stream(r.frames)|..];
    ParseFrame(p, Tail(r1));
  }

  /** What the call comes to is what one parse step makes of the unread bytes. */
  ghost predicate Returns(r: Receiver, r1: Receiver) {
    match ParseOne(Unread(r))
    case Complete(payload, rest) =>
      r1.pc.Idle? && r1.failure.None? && r1.frames == r.frames + [payload] && Unread(r1) == rest
    case Oversize(_) =>
      r1.pc.Idle? && r1.failure == Some(TooLarge) && r1.frames == r.frames
    case Incomplete =>
      && r1.frames == r.frames
      && if Waiting(r1) then r1.failure.None?
         else !r.sock.connected && r1.pc.Idle? && r1.failure.Some? && r1.failure.value.Reset?
  }

  lemma InvReturns(r: Receiver)
    requires Inv(r) && !r.pc.Idle?
    ensures Returns(r, Continued(r))
  {
    hide Continued, Inv, ParseOne, Tail, Unread;
    CallEnds(r);
    EndedReturns(r, Continued(r));
  }

  lemma EndedReturns(r: Receiver, r1: Receiver)
    requires Inv(r) && Inv(r1) && Ended(r, r1) && r1.arrived == r.arrived && r1.sock.connected == r.sock.connected
    ensures Returns(r, r1)
  {
    hide Inv, ParseOne, Tail, Unread;
    UnreadIsTail(r);
    UnreadIsTail(r1);
    TailDecides(r1);
    NeverShort(r1);
    if r1.frames == r.frames {
      SameUnread(r, r1);
      if Waiting(r1) {
        WaitingStays(r1);
      }
    } else {
      NextFrame(r, r1);
      assert r1.frames == r.frames + [r1.frames[|r.frames|]];
    }
  }

  lemma SameUnread(r: Receiver, r1: Receiver)
    requires r1.frames == r.frames && r1.arrived == r.arrived
    ensures Unread(r1) == Unread(r)
  {
  }

  lemma FailedIsIdle(r: Receiver)
    requires Inv(r)
    ensures r.failure.Some? ==> r.pc.Idle?
  {
  }

  /** A failed call failed for one of two reasons. */
  lemma NeverShort(r: Receiver)
    requires Inv(r)
    ensures r.failure.Some? ==>
              r.failure.value == TooLarge || (r.failure.value.Reset? && !r.sock.connected)
  {
  }

  // ---------------------------------------------------------------- the main results

  lemma RunSnoc(actions: seq<Action>, a: Action)
    ensures Run(actions + [a]) == Step(Run(actions), a)
  {
    hide Step;
    assert (actions + [a])[..|actions|] == actions;
  }

  lemma RunTwice(actions: seq<Action>)
    ensures Run(actions + [Resume, Resume]) == Continued(Run(actions))
  {
    hide Continue;
    RunSnoc(actions, Resume);
    RunSnoc(actions + [Resume], Resume);
    assert actions + [Resume] + [Resume] == actions + [Resume, Resume];
  }

  /** A call in progress, after every run. Once its continuations have run, it has returned the next
      frame of the stream exactly if that frame has arrived whole; it has failed for its size exactly
      if the header says so; and otherwise it waits for the peer, or was rejected because the
      connection is dead. */
  lemma CallReturns(actions: seq<Action>)
    requires !Run(actions).pc.Idle?
    ensures Returns(Run(actions), Run(actions + [Resume, Resume]))
  {
    RunKeeps(actions);
    RunTwice(actions);
    hide Run;
    InvReturns(Run(actions));
  }

  lemma CallStarts(actions: seq<Action>)
    requires Run(actions).pc.Idle? && Run(actions).failure.None?
    ensures var r, r1 := Run(actions), Run(actions + [Call]);
            && !r1.pc.Idle? && r1.frames == r.frames && r1.arrived == r.arrived
            && r1.sock.connected == r.sock.connected
  {
    assert (actions + [Call])[..|actions|] == actions;
  }

  /** A call made after any run, unless one has failed: the same. */
  lemma NextCallReturns(actions: seq<Action>)
    requires Run(actions).pc.Idle? && Run(actions).failure.None?
    ensures Returns(Run(actions), Run(actions + [Call, Resume, Resume]))
  {
    CallStarts(actions);
    CallReturns(actions + [Call]);
    assert actions + [Call, Resume, Resume] == actions + [Call] + [Resume, Resume];
    assert Unread(Run(actions + [Call])) == Unread(Run(actions));
  }

  // ---------------------------------------------------------------- what arrives, and until when

  /** The socket has neither ended nor been closed. */
  predicate Open(actions: seq<Action>) {
    forall i :: 0 <= i < |actions| ==> !actions[i].End? && !actions[i].Close?
  }

  /** The chunks that came in while it was open. */
  function Delivered(actions: seq<Action>): bytes {
    if actions == [] then []
    else
      var init, last := actions[..|actions| - 1], actions[|actions| - 1];
      Delivered(init) + (if last.Chunk? && Open(init) then last.chunk else [])
  }

  lemma StepOpen(r: Receiver, a: Action)
    ensures var r1 := Step(r, a);
            && (r1.sock.connected <==> r.sock.connected && !a.End? && !a.Close?)
            && r1.arrived == r.arrived + (if a.Chunk? && r.sock.connected then a.chunk else [])
  {
    if a.Chunk? {
      S.DrainKeepsReads(r.sock.(buffer := r.sock.buffer + a.chunk));
    }
  }

  /** The stream of a run is the concatenation of the chunks delivered until the socket ended or was
      closed. */
  lemma {:induction false} Arrives(actions: seq<Action>)
    ensures Run(actions).arrived == Delivered(actions)
    ensures Run(actions).sock.connected <==> Open(actions)
  {
    if actions != [] {
      var init, last := actions[..|actions| - 1], actions[|actions| - 1];
      Arrives(init);
      hide Step;
      StepOpen(Run(init), last);
    }
  }

  /** A dead socket on which no read is pending has none pending later. */
  lemma DeadStays(r: Receiver)
    requires !r.sock.connected && !Waiting(r)
    ensures !Continue(r).sock.connected && !Waiting(Continue(r))
  {
  }

  /** The event that ends the connection ends the call in progress: with the next frame, if that has
      arrived whole, or with an error; it is the error of the event if the call was waiting. */
  lemma EndReturns(actions: seq<Action>, code: S.Code)
    requires !Run(actions).pc.Idle?
    ensures var r, r0 := Run(actions), Run(actions + [End(code)]);
            var r1 := Run(actions + [End(code)] + [Resume, Resume]);
            && Unread(r0) == Unread(r) && r0.frames == r.frames
            && Returns(r0, r1) && !Waiting(r1)
            && (Waiting(r) ==> r1.failure == Some(Reset(code)))
  {
    var r, ends := Run(actions), actions + [End(code)];
    RunKeeps(actions);
    RunSnoc(actions, End(code));
    CallReturns(ends);
    RunTwice(ends);
    assert Unread(Run(ends)) == Unread(r);
    hide Run, Returns;
    DeadStays(Run(ends));
    DeadStays(Continue(Run(ends)));
    if Waiting(r) {
      EndRejects(r, code);
      IdleStays(Continue(Run(ends)));
    }
  }

  /** A call made on a dead connection never waits. */
  lemma DeadCallReturns(actions: seq<Action>)
    requires Run(actions).pc.Idle? && Run(actions).failure.None? && !Open(actions)
    ensures !Waiting(Run(actions + [Call, Resume, Resume]))
  {
    RunKeeps(actions);
    Arrives(actions);
    RunSnoc(actions, Call);
    RunTwice(actions + [Call]);
    assert actions + [Call, Resume, Resume] == actions + [Call] + [Resume, Resume];
    DeadStays(Run(actions + [Call]));
    DeadStays(Continue(Run(actions + [Call])));
  }

  /** The continuation of a call that waited when the connection ended. */
  lemma EndRejects(r: Receiver, code: S.Code)
    requires Inv(r) && Waiting(r)
    ensures Continue(Step(r, End(code))).pc.Idle?
    ensures Continue(Step(r, End(code))).failure == Some(Reset(code))
  {
    var t := r.pc.ticket;
    LookupLast(r.sock.settled, t, S.Rejected(code));
    assert S.Ended(r.sock, code).settled == r.sock.settled + [S.Settlement(t, S.Rejected(code))];
  }

  /** These actions are the reader's own. */
  predicate OnlyReads(actions: seq<Action>) {
    forall i :: 0 <= i < |actions| ==> actions[i].Call? || actions[i].Resume?
  }

  predicate Stopped(r: Receiver) {
    Waiting(r) || r.failure.Some?
  }

  /** Every frame that has arrived can be returned, with no further event: by calling again until a
      call waits or fails. */
  lemma {:induction false} AllCanBeReceived(actions: seq<Action>) returns (more: seq<Action>)
    ensures OnlyReads(more)
    ensures var r := Run(actions + more);
            && r.arrived == Run(actions).arrived && r.frames == ParseAll(r.arrived).frames
            && Stopped(r)
    decreases |Unread(Run(actions))|, !Stopped(Run(actions))
  {
    var r := Run(actions);
    RefinesParser(actions);
    hide Run, ParseAll, Unread;
    if Stopped(r) {
      more := [];
      assert actions + more == actions;
    } else {
      var first := NextReads(r);
      ReadsOn(actions);
      var rest := AllCanBeReceived(actions + first);
      more := first + rest;
      assert actions + first + rest == actions + more;
    }
  }

  lemma Shrinks(r: Receiver, r1: Receiver)
    requires Inv(r) && Returns(r, r1) && r1.arrived == r.arrived
    ensures |Unread(r1)| < |Unread(r)| || (Stopped(r1) && Unread(r1) == Unread(r))
  {
    UnreadIsTail(r);
  }

  /** A call made by an idle reader, or the one in progress, with both continuations. */
  function NextReads(r: Receiver): seq<Action> {
    if r.pc.Idle? then [Call, Resume, Resume] else [Resume, Resume]
  }

  lemma CallReads(actions: seq<Action>)
    requires !Run(actions).pc.Idle?
    ensures Returns(Run(actions), Run(actions + [Resume, Resume]))
    ensures Run(actions + [Resume, Resume]).arrived == Run(actions).arrived
  {
    RunKeeps(actions);
    CallReturns(actions);
    RunTwice(actions);
    hide Run, Returns, Continued, Inv;
    CallEnds(Run(actions));
  }

  lemma NextCallReads(actions: seq<Action>)
    requires Run(actions).pc.Idle? && Run(actions).failure.None?
    ensures Returns(Run(actions), Run(actions + [Call, Resume, Resume]))
    ensures Run(actions + [Call, Resume, Resume]).arrived == Run(actions).arrived
  {
    NextCallReturns(actions);
    CallStarts(actions);
    hide Run, Returns;
    CallReads(actions + [Call]);
    assert actions + [Call, Resume, Resume] == actions + [Call] + [Resume, Resume];
  }

  lemma ReadsOn(actions: seq<Action>)
    requires !Stopped(Run(actions))
    ensures var r, r1 := Run(actions), Run(actions + NextReads(Run(actions)));
            && r1.arrived == r.arrived
            && (|Unread(r1)| < |Unread(r)| || (Stopped(r1) && Unread(r1) == Unread(r)))
  {
    RunKeeps(actions);
    hide Run, Returns, Unread, Inv;
    if Run(actions).pc.Idle? {
      NextCallReads(actions);
    } else {
      CallReads(actions);
    }
    Shrinks(Run(actions), Run(actions + NextReads(Run(actions))));
  }
}
