/** The second half of the client's invariant: whose each request id is, and where its request went. */
module RpcIds {
  import opened Bytes
  import opened Protobuf
  import opened Envelopes
  import opened CppCodec
  import Exchanges
  import opened RpcConn
  import opened RpcRun
  import opened RpcBase

  /** The threads that have built a request and not yet returned from `call`. */
  predicate HasRequest(pc: Pc) {
    pc.Sending? || pc.Receiving? || pc.Notifying? || pc.RetryBackoff?
  }

  /** The request may still be written, or was only written in part. */
  predicate Unsent(pc: Pc) {
    pc.Sending? || pc.RetryBackoff? || (pc.Notifying? && !pc.cause.RecvFailed?)
  }

  /** No connection has accepted the whole frame of request `x`. */
  ghost predicate NotWhole(conns: seq<Conn>, x: nat) {
    forall c, i :: 0 <= c < |conns| && 0 <= i < |conns[c].whole| ==> conns[c].whole[i].requestId != x
  }

  ghost predicate Issued(s: State) {
    && 1 <= s.nextId <= TWO_64
    && (forall x :: x in s.issued <==> 1 <= x < s.nextId)
    && (forall x :: x in s.issued ==> s.issued[x].requestId == x && Sendable(s.issued[x]))
  }

  /** Every request on a connection is the one issued under its id. */
  ghost predicate Begun(s: State) {
    forall c, i :: 0 <= c < |s.conns| && 0 <= i < |s.conns[c].begun| ==>
      && s.conns[c].begun[i].requestId in s.issued
      && s.issued[s.conns[c].begun[i].requestId] == s.conns[c].begun[i]
  }

  /** A request is accepted whole by at most one connection. */
  ghost predicate OneHome(conns: seq<Conn>) {
    forall c, i, d, j | && 0 <= c < |conns| && 0 <= i < |conns[c].whole|
                        && 0 <= d < |conns| && 0 <= j < |conns[d].whole| ::
      conns[c].whole[i].requestId == conns[d].whole[j].requestId ==> c == d
  }

  /** The id belongs to thread `t` alone, and its call has not returned. */
  ghost predicate Mine(s: State, t: nat, r: Envelope) {
    && r.requestId in s.issued && s.issued[r.requestId] == r
    && r.requestId !in s.results
    && (forall u :: 0 <= u < |s.threads| && u != t && HasRequest(s.threads[u]) ==>
          s.threads[u].request.requestId != r.requestId)
  }

  ghost predicate Holders(s: State) {
    && (forall x :: x in s.results ==> x in s.issued)
    && (forall t :: 0 <= t < |s.threads| && HasRequest(s.threads[t]) ==> Mine(s, t, s.threads[t].request))
    && (forall t :: 0 <= t < |s.threads| && Unsent(s.threads[t]) ==>
          NotWhole(s.conns, s.threads[t].request.requestId))
  }

  /** Some handler dispatched the request of id `x` and made `response` of it. */
  ghost predicate Answered(s: State, x: nat, response: Envelope) {
    x in s.issued && exists c, i :: 0 <= c < |s.conns| && 0 <= i < |s.conns[c].served|
                                    && s.conns[c].served[i] == Exchanges.Exchange(s.issued[x], response)
  }

  /** What the returned outcome says about the request. */
  ghost predicate OutcomeOk(s: State, x: nat, o: Outcome) {
    match o
    case Success(response) => Answered(s, x, response)
    case SendError(_) => NotWhole(s.conns, x)
    case RecvError(_) => true
    case Mismatch(_) => false
  }

  ghost predicate Outcomes(s: State) {
    forall x :: x in s.results ==> OutcomeOk(s, x, s.results[x])
  }

  ghost predicate Ids(s: State) {
    Issued(s) && Begun(s) && OneHome(s.conns) && Holders(s) && Outcomes(s)
  }

  // ---------------------------------------------------------------- what leaves the histories alone

  /** The connections of `a` are still there in `b` with the same requests and no fewer exchanges;
      connections that are new in `b` carry none. */
  ghost predicate Grown(a: seq<Conn>, b: seq<Conn>) {
    && |a| <= |b|
    && (forall c :: 0 <= c < |a| ==> a[c].begun == b[c].begun && a[c].whole == b[c].whole
                                     && a[c].served <= b[c].served)
    && (forall c :: |a| <= c < |b| ==> b[c].begun == [] && b[c].whole == [])
  }

  lemma GrownKeeps(a: seq<Conn>, b: seq<Conn>)
    requires Grown(a, b)
    ensures OneHome(a) ==> OneHome(b)
    ensures forall x :: NotWhole(a, x) ==> NotWhole(b, x)
  {
  }

  lemma GrownAnswered(s: State, s1: State, x: nat, response: Envelope)
    requires Grown(s.conns, s1.conns) && x in s1.issued && x in s.issued && s1.issued[x] == s.issued[x]
    requires Answered(s, x, response)
    ensures Answered(s1, x, response)
  {
    var c, i :| 0 <= c < |s.conns| && 0 <= i < |s.conns[c].served|
                && s.conns[c].served[i] == Exchanges.Exchange(s.issued[x], response);
    assert s1.conns[c].served[i] == s.conns[c].served[i];
  }

  /** Thread `t` moves to `pc`, whose request, if any, is its own; no history changes. */
  lemma MoveIds(s: State, s1: State, t: nat, pc: Pc)
    requires Ids(s) && t < |s.threads|
    requires Grown(s.conns, s1.conns) && s1.threads == s.threads[t := pc]
    requires s1.nextId == s.nextId && s1.issued == s.issued && s1.results == s.results
    requires HasRequest(pc) ==> Mine(s, t, pc.request)
    requires Unsent(pc) ==> NotWhole(s.conns, pc.request.requestId)
    ensures Ids(s1)
  {
    GrownKeeps(s.conns, s1.conns);
    MoveHolders(s, s1, t, pc);
    GrownOutcomes(s, s1);
  }

  lemma MoveHolders(s: State, s1: State, t: nat, pc: Pc)
    requires Holders(s) && t < |s.threads|
    requires s1.threads == s.threads[t := pc] && s1.issued == s.issued && s1.results == s.results
    requires forall x :: NotWhole(s.conns, x) ==> NotWhole(s1.conns, x)
    requires HasRequest(pc) ==> Mine(s, t, pc.request)
    requires Unsent(pc) ==> NotWhole(s.conns, pc.request.requestId)
    ensures Holders(s1)
  {
    forall u | 0 <= u < |s1.threads| && HasRequest(s1.threads[u]) ensures Mine(s1, u, s1.threads[u].request) {
      if u != t {
        assert Mine(s, u, s.threads[u].request);
      }
    }
  }

  lemma GrownOutcomes(s: State, s1: State)
    requires Outcomes(s) && Grown(s.conns, s1.conns) && s1.issued == s.issued && s1.results == s.results
    ensures Outcomes(s1)
  {
    GrownKeeps(s.conns, s1.conns);
    forall x | x in s1.results ensures OutcomeOk(s1, x, s1.results[x]) {
      if s.results[x].Success? {
        GrownAnswered(s, s1, x, s.results[x].response);
      }
    }
  }

  lemma GrownIds(s: State, s1: State)
    requires Ids(s) && Grown(s.conns, s1.conns) && s1.threads == s.threads
    requires s1.nextId == s.nextId && s1.issued == s.issued && s1.results == s.results
    ensures Ids(s1)
  {
    GrownKeeps(s.conns, s1.conns);
    GrownOutcomes(s, s1);
    forall u | 0 <= u < |s1.threads| && HasRequest(s1.threads[u]) ensures Mine(s1, u, s1.threads[u].request) {
      assert Mine(s, u, s.threads[u].request);
    }
  }

  // ---------------------------------------------------------------- issuing an id

  /** The next id is nobody's. */
  lemma IssueKeeps(cfg: Config, s: State, t: nat, r: Envelope)
    requires AllConns(cfg, s.conns) && Ids(s) && s.nextId < TWO_64 && r.requestId == s.nextId && Sendable(r)
    ensures Ids(Issue(s, r)) && Mine(Issue(s, r), t, r) && NotWhole(s.conns, r.requestId)
    ensures forall c, i :: 0 <= c < |s.conns| && 0 <= i < |s.conns[c].begun| ==>
              s.conns[c].begun[i].requestId < r.requestId
  {
    var s1 := Issue(s, r);
    forall c, i | 0 <= c < |s.conns| && 0 <= i < |s.conns[c].begun|
      ensures s.conns[c].begun[i].requestId in s.issued
    {
    }
    forall c, i | 0 <= c < |s.conns| && 0 <= i < |s.conns[c].whole|
      ensures s.conns[c].whole[i].requestId != r.requestId
    {
      WholeBegun(cfg, s.conns[c], i);
    }
    IssueOthers(s, r);
  }

  lemma IssueOthers(s: State, r: Envelope)
    requires Ids(s) && s.nextId < TWO_64 && r.requestId == s.nextId
    ensures Holders(Issue(s, r)) && Outcomes(Issue(s, r))
  {
    var s1 := Issue(s, r);
    forall u | 0 <= u < |s1.threads| && HasRequest(s1.threads[u]) ensures Mine(s1, u, s1.threads[u].request) {
      assert Mine(s, u, s.threads[u].request);
    }
    forall x | x in s1.results ensures OutcomeOk(s1, x, s1.results[x]) {
      if s.results[x].Success? {
        SameAnswered(s, s1, x, s.results[x].response);
      }
    }
  }

  lemma SameAnswered(s: State, s1: State, x: nat, response: Envelope)
    requires s.conns == s1.conns && x in s.issued && x in s1.issued && s1.issued[x] == s.issued[x]
    requires Answered(s, x, response)
    ensures Answered(s1, x, response)
  {
  }

  lemma WholeBegun(cfg: Config, k: Conn, i: nat)
    requires ConnOk(cfg.wire, k) && i < |k.whole|
    ensures i < |k.begun| && k.begun[i] == k.whole[i]
  {
    assert k.whole[i] == k.begun[..|k.whole|][i];
  }

  // ---------------------------------------------------------------- writing a request

  /** Thread `t` starts to write its request on connection `c`. */
  lemma BeginIds(s: State, t: nat, c: nat, r: Envelope, pc: Pc)
    requires Ids(s) && t < |s.threads| && c < |s.conns|
    requires Mine(s, t, r) && NotWhole(s.conns, r.requestId)
    requires pc.Sending? && pc.request == r
    ensures Ids(SetPc(SetConn(s, c, Begin(s.conns[c], r)).(owner := Some(t)), t, pc))
  {
    var s1 := SetPc(SetConn(s, c, Begin(s.conns[c], r)).(owner := Some(t)), t, pc);
    forall d | 0 <= d < |s.conns|
      ensures s1.conns[d].whole == s.conns[d].whole && s1.conns[d].served == s.conns[d].served
    {
    }
    SameWholeKeeps(s.conns, s1.conns);
    MoveHolders(s, s1, t, pc);
    SameServedOutcomes(s, s1);
    BeginBegun(s, c, r);
  }

  lemma BeginBegun(s: State, c: nat, r: Envelope)
    requires Begun(s) && c < |s.conns| && r.requestId in s.issued && s.issued[r.requestId] == r
    ensures Begun(SetConn(s, c, Begin(s.conns[c], r)))
  {
  }

  ghost predicate SameWhole(a: seq<Conn>, b: seq<Conn>) {
    |a| == |b| && forall c :: 0 <= c < |a| ==> a[c].whole == b[c].whole && a[c].served == b[c].served
  }

  lemma SameWholeKeeps(a: seq<Conn>, b: seq<Conn>)
    requires SameWhole(a, b)
    ensures OneHome(a) ==> OneHome(b)
    ensures forall x :: NotWhole(a, x) ==> NotWhole(b, x)
  {
  }

  lemma SameServedOutcomes(s: State, s1: State)
    requires Outcomes(s) && SameWhole(s.conns, s1.conns) && s1.issued == s.issued && s1.results == s.results
    ensures Outcomes(s1)
  {
    SameWholeKeeps(s.conns, s1.conns);
    forall x | x in s1.results ensures OutcomeOk(s1, x, s1.results[x]) {
      if s.results[x].Success? {
        var c, i :| 0 <= c < |s.conns| && 0 <= i < |s.conns[c].served|
                    && s.conns[c].served[i] == Exchanges.Exchange(s.issued[x], s.results[x].response);
        assert s1.conns[c].served[i] == s.conns[c].served[i];
      }
    }
  }

  /** The last byte of the request is accepted: it has found its one home. */
  lemma WholeIds(s: State, t: nat, c: nat, k: Conn, r: Envelope)
    requires Ids(s) && t < |s.threads| && c < |s.conns|
    requires s.threads[t].Sending? && s.threads[t].request == r
    requires k.whole == s.conns[c].whole + [r] && k.begun == s.conns[c].begun && k.served == s.conns[c].served
    ensures Ids(SetPc(SetConn(s, c, k), t, Receiving(r, [])))
  {
    var s1 := SetPc(SetConn(s, c, k), t, Receiving(r, []));
    NewHome(s.conns, c, k, r);
    assert Mine(s, t, r);
    forall u | 0 <= u < |s1.threads| && HasRequest(s1.threads[u])
      ensures Mine(s1, u, s1.threads[u].request)
      ensures Unsent(s1.threads[u]) ==> NotWhole(s1.conns, s1.threads[u].request.requestId)
    {
      if u != t {
        assert Mine(s, u, s.threads[u].request);
      }
    }
    WholeOutcomes(s, s1, c, k, r);
  }

  lemma NewHome(conns: seq<Conn>, c: nat, k: Conn, r: Envelope)
    requires OneHome(conns) && c < |conns| && k.whole == conns[c].whole + [r] && NotWhole(conns, r.requestId)
    ensures OneHome(conns[c := k])
    ensures forall x :: NotWhole(conns, x) && x != r.requestId ==> NotWhole(conns[c := k], x)
  {
    var after := conns[c := k];
    forall d, i | 0 <= d < |after| && 0 <= i < |after[d].whole|
      ensures (d == c && i == |conns[c].whole|) || (i < |conns[d].whole| && after[d].whole[i] == conns[d].whole[i])
    {
    }
  }

  lemma WholeOutcomes(s: State, s1: State, c: nat, k: Conn, r: Envelope)
    requires Outcomes(s) && c < |s.conns| && s1.conns == s.conns[c := k] && k.served == s.conns[c].served
    requires s1.issued == s.issued && s1.results == s.results && r.requestId !in s.results
    requires forall x :: NotWhole(s.conns, x) && x != r.requestId ==> NotWhole(s1.conns, x)
    ensures Outcomes(s1)
  {
    forall x | x in s1.results ensures OutcomeOk(s1, x, s1.results[x]) {
      if s.results[x].Success? {
        var d, i :| 0 <= d < |s.conns| && 0 <= i < |s.conns[d].served|
                    && s.conns[d].served[i] == Exchanges.Exchange(s.issued[x], s.results[x].response);
        assert s1.conns[d].served[i] == s.conns[d].served[i];
      }
    }
  }

  /** The call returns: its id passes from the thread to the results. */
  lemma FinishIds(s: State, t: nat, r: Envelope, o: Outcome)
    requires Ids(s) && t < |s.threads| && HasRequest(s.threads[t]) && s.threads[t].request == r
    requires OutcomeOk(s, r.requestId, o)
    ensures Ids(Finish(s, t, r, o))
  {
    var s1 := Finish(s, t, r, o);
    assert Mine(s, t, r);
    forall u | 0 <= u < |s1.threads| && HasRequest(s1.threads[u]) ensures Mine(s1, u, s1.threads[u].request) {
      assert Mine(s, u, s.threads[u].request);
    }
    forall x | x in s1.results ensures OutcomeOk(s1, x, s1.results[x]) {
      if s1.results[x].Success? {
        SameAnswered(s, s1, x, s1.results[x].response);
      }
    }
  }
}
