/** The wire format both SDKs share: a 4-byte big-endian length and then the payload.

    `ParseOne` says what one receive makes of a byte stream that ends in EOF, `ParseAll` what
    repeated receives make of it. The C++ and the TypeScript receivers are proved against these
    two functions in `CppFraming` and `JsFraming`. */
module Frames {
  import opened Bytes

  const MAX_FRAME_SIZE: nat := 16777216

  /** The header bytes `send_frame` computes with shifts and masks. */
  function Header(n: nat): (h: bytes)
    requires n < 0x1_0000_0000
    ensures |h| == 4
  {
    [(n / 0x100_0000) as byte, (n / 0x1_0000 % 0x100) as byte, (n / 0x100 % 0x100) as byte, (n % 0x100) as byte]
  }

  function HeaderValue(h: bytes): (n: nat)
    requires |h| == 4
    ensures n < 0x1_0000_0000
  {
    h[0] as nat * 0x100_0000 + h[1] as nat * 0x1_0000 + h[2] as nat * 0x100 + h[3] as nat
  }

  /** The header is exact for every 32-bit length. */
  lemma HeaderRoundTrip(n: nat)
    requires n < 0x1_0000_0000
    ensures HeaderValue(Header(n)) == n
  {
    assert n / 0x100 / 0x100 == n / 0x1_0000;
    assert n / 0x1_0000 / 0x100 == n / 0x100_0000;
  }

  /** Every four bytes are the header of exactly one length. */
  lemma HeaderUnique(h: bytes)
    requires |h| == 4
    ensures Header(HeaderValue(h)) == h
  {
    var n := HeaderValue(h);
    var a, b, c, d := h[0] as nat, h[1] as nat, h[2] as nat, h[3] as nat;
    assert n == ((a * 0x100 + b) * 0x100 + c) * 0x100 + d;
    assert n / 0x100 == (a * 0x100 + b) * 0x100 + c && n % 0x100 == d;
    assert n / 0x1_0000 == n / 0x100 / 0x100 == a * 0x100 + b;
    assert n / 0x100_0000 == n / 0x1_0000 / 0x100 == a;
  }

  function Frame(payload: bytes): (f: bytes)
    requires |payload| < 0x1_0000_0000
    ensures |f| == 4 + |payload|
  {
    Header(|payload|) + payload
  }

  predicate Legal(payload: bytes) {
    |payload| <= MAX_FRAME_SIZE
  }

  ghost predicate AllLegal(payloads: seq<bytes>) {
    forall i :: 0 <= i < |payloads| ==> Legal(payloads[i])
  }

  /** The bytes written for a list of payloads. */
  function Stream(payloads: seq<bytes>): bytes
    requires AllLegal(payloads)
  {
    if payloads == [] then [] else Frame(payloads[0]) + Stream(payloads[1..])
  }

  // ---------------------------------------------------------------- one receive

  datatype Parsed =
    | Complete(payload: bytes, rest: bytes)
    | Incomplete
    | Oversize(length: nat)

  /** One receive on a stream of which `s` is all that is left before EOF. */
  function ParseOne(s: bytes): (r: Parsed)
    ensures r.Complete? ==> |r.rest| < |s|
  {
    if |s| < 4 then Incomplete
    else
      var n := HeaderValue(s[..4]);
      if n > MAX_FRAME_SIZE then Oversize(n)
      else if |s| < 4 + n then Incomplete
      else Complete(s[4..4 + n], s[4 + n..])
  }

  lemma FrameSplit(payload: bytes)
    requires |payload| < 0x1_0000_0000
    ensures Frame(payload)[..4] == Header(|payload|)
    ensures HeaderValue(Frame(payload)[..4]) == |payload|
    ensures Frame(payload)[4..] == payload
  {
    HeaderRoundTrip(|payload|);
    assert Frame(payload)[..4] == Header(|payload|);
  }

  /** A whole frame is read as its payload, whatever follows it. */
  lemma ParseFrame(payload: bytes, rest: bytes)
    requires Legal(payload)
    ensures ParseOne(Frame(payload) + rest) == Complete(payload, rest)
  {
    var s := Frame(payload) + rest;
    FrameSplit(payload);
    assert s[..4] == Frame(payload)[..4];
    assert s[4..4 + |payload|] == payload;
    assert s[4 + |payload|..] == rest;
  }

  /** `ParseOne` yields a frame exactly when the stream starts with that frame. */
  lemma ParseOneComplete(s: bytes, payload: bytes, rest: bytes)
    ensures ParseOne(s) == Complete(payload, rest) <==> Legal(payload) && s == Frame(payload) + rest
  {
    if ParseOne(s) == Complete(payload, rest) {
      HeaderUnique(s[..4]);
      assert s == s[..4] + s[4..4 + |payload|] + s[4 + |payload|..];
    }
    if Legal(payload) && s == Frame(payload) + rest {
      ParseFrame(payload, rest);
    }
  }

  /** A frame cut short at any byte is never read, not even in part. */
  lemma CutFrameIncomplete(payload: bytes, k: nat)
    requires Legal(payload) && k < 4 + |payload|
    ensures ParseOne(Frame(payload)[..k]) == Incomplete
  {
    FrameSplit(payload);
    if k >= 4 {
      assert Frame(payload)[..k][..4] == Frame(payload)[..4];
    }
  }

  // ---------------------------------------------------------------- repeated receives

  /** What repeated receives return: the payloads, the bytes no receive returned, and whether the
      last receive was rejected for its size (otherwise it met EOF). */
  datatype Parse = Parse(frames: seq<bytes>, rest: bytes, oversize: bool)

  function ParseAll(s: bytes): (p: Parse)
    ensures AllLegal(p.frames)
    ensures p.oversize == ParseOne(p.rest).Oversize?
    ensures !p.oversize ==> ParseOne(p.rest).Incomplete?
    decreases |s|
  {
    match ParseOne(s)
    case Complete(payload, rest) =>
      var p := ParseAll(rest);
      Parse([payload] + p.frames, p.rest, p.oversize)
    case Incomplete => Parse([], s, false)
    case Oversize(_) => Parse([], s, true)
  }

  /** Nothing is lost, invented or reordered: the frames and the rest are the stream. */
  lemma {:induction false} ParseAllConserves(s: bytes)
    ensures s == Stream(ParseAll(s).frames) + ParseAll(s).rest
    decreases |s|
  {
    match ParseOne(s)
    case Complete(payload, rest) =>
      ParseOneComplete(s, payload, rest);
      ParseAllConserves(rest);
      var p := ParseAll(rest);
      assert ([payload] + p.frames)[1..] == p.frames;
      Associative(Frame(payload), Stream(p.frames), p.rest);
    case _ =>
  }

  lemma ParseStep(payload: bytes, rest: bytes)
    requires Legal(payload)
    ensures var p := ParseAll(rest); ParseAll(Frame(payload) + rest) == Parse([payload] + p.frames, p.rest, p.oversize)
  {
    ParseFrame(payload, rest);
  }

  lemma {:induction false} ParseStream(payloads: seq<bytes>, rest: bytes)
    requires AllLegal(payloads)
    ensures ParseAll(Stream(payloads) + rest)
         == Parse(payloads + ParseAll(rest).frames, ParseAll(rest).rest, ParseAll(rest).oversize)
  {
    if payloads == [] {
      assert Stream(payloads) + rest == rest;
      assert payloads + ParseAll(rest).frames == ParseAll(rest).frames;
    } else {
      var head, tail := payloads[0], payloads[1..];
      ParseStream(tail, rest);
      ParseStep(head, Stream(tail) + rest);
      Associative(Frame(head), Stream(tail), rest);
      Associative([head], tail, ParseAll(rest).frames);
      assert [head] + tail == payloads;
    }
  }

  lemma {:induction false} StreamAppend(a: seq<bytes>, b: seq<bytes>)
    requires AllLegal(a) && AllLegal(b)
    ensures AllLegal(a + b) && Stream(a + b) == Stream(a) + Stream(b)
  {
    if a == [] {
      assert a + b == b;
    } else {
      StreamAppend(a[1..], b);
      assert (a + b)[1..] == a[1..] + b;
      Associative(Frame(a[0]), Stream(a[1..]), Stream(b));
    }
  }

  lemma StreamSnoc(payloads: seq<bytes>, last: bytes)
    requires AllLegal(payloads) && Legal(last)
    ensures AllLegal(payloads + [last]) && Stream(payloads + [last]) == Stream(payloads) + Frame(last)
  {
    StreamAppend(payloads, [last]);
    assert Stream([last]) == Frame(last) + [] == Frame(last);
  }

  /** Prefix safety: cut a stream of legal frames at any byte, and the receiver gets the first few
      payloads in order plus a strict prefix of the next frame, and never rejects a size. */
  lemma {:induction false} PrefixSafety(payloads: seq<bytes>, k: nat)
    requires AllLegal(payloads) && k <= |Stream(payloads)|
    ensures var p := ParseAll(Stream(payloads)[..k]);
            && !p.oversize
            && |p.frames| <= |payloads| && p.frames == payloads[..|p.frames|]
            && (if |p.frames| == |payloads| then p.rest == [] && k == |Stream(payloads)|
                else StrictPrefix(p.rest, Frame(payloads[|p.frames|])))
  {
    if payloads != [] {
      var f, tail := Frame(payloads[0]), Stream(payloads[1..]);
      if k < |f| {
        assert Stream(payloads)[..k] == f[..k];
        CutFrameIncomplete(payloads[0], k);
      } else {
        SplitPrefix(f, tail, k);
        PrefixSafety(payloads[1..], k - |f|);
        ParseStep(payloads[0], tail[..k - |f|]);
      }
    }
  }

  lemma SplitPrefix(a: bytes, b: bytes, k: nat)
    requires |a| <= k <= |a| + |b|
    ensures (a + b)[..k] == a + b[..k - |a|]
  {
  }

  /** Unique decodability: two lists of legal payloads with the same bytes are the same list. */
  lemma StreamInjective(a: seq<bytes>, b: seq<bytes>)
    requires AllLegal(a) && AllLegal(b) && Stream(a) == Stream(b)
    ensures a == b
  {
    ParseStream(a, []);
    ParseStream(b, []);
    assert Stream(a) + [] == Stream(a) && Stream(b) + [] == Stream(b);
    assert a == a + ParseAll([]).frames && b == b + ParseAll([]).frames;
  }

  /** Parsing is incremental: more bytes never change the frames already parsed. */
  lemma ParseAllExtends(s: bytes, t: bytes)
    ensures ParseAll(s + t).frames == ParseAll(s).frames + ParseAll(ParseAll(s).rest + t).frames
    ensures ParseAll(s + t).rest == ParseAll(ParseAll(s).rest + t).rest
  {
    var p := ParseAll(s);
    ParseAllConserves(s);
    assert s + t == Stream(p.frames) + (p.rest + t);
    ParseStream(p.frames, p.rest + t);
  }

  /** `send_frame` sends the header and the payload separately: how far the current send goes. */
  function SendLimit(frame: bytes, done: nat): nat {
    if done < 4 <= |frame| then 4 else |frame|
  }
}
