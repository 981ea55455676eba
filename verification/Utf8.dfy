/** Well-formed UTF-8, which the C++ protobuf parser requires of string fields, against an independent
    definition: what encoding a list of Unicode scalar values gives. */
module Utf8 {
  import opened Bytes

  /** Well-formed UTF-8 (RFC 3629, section 4). */
  predicate IsUtf8(s: bytes)
    decreases |s|
  {
    if s == [] then true
    else if s[0] < 0x80 then IsUtf8(s[1..])
    else if 0xC2 <= s[0] < 0xE0 then Tails(s, 1) && IsUtf8(s[2..])
    else if 0xE0 <= s[0] < 0xF0 then
      && Tails(s, 2) && (s[0] == 0xE0 ==> s[1] >= 0xA0) && (s[0] == 0xED ==> s[1] < 0xA0) && IsUtf8(s[3..])
    else if 0xF0 <= s[0] < 0xF5 then
      && Tails(s, 3) && (s[0] == 0xF0 ==> s[1] >= 0x90) && (s[0] == 0xF4 ==> s[1] < 0x90) && IsUtf8(s[4..])
    else false
  }

  predicate Tails(s: bytes, n: nat) {
    n < |s| && forall i :: 1 <= i <= n ==> 0x80 <= s[i] < 0xC0
  }

  // ---------------------------------------------------------------- the encoding

  /** A Unicode scalar value: any code point but the surrogates. */
  type Scalar = c: nat | c <= 0x10_FFFF && !(0xD800 <= c <= 0xDFFF)

  function Continuation(c: nat): byte {
    (0x80 + c % 64) as byte
  }

  /** The table of RFC 3629, section 3: seven, eleven, sixteen or twenty-one bits. */
  function EncodeScalar(c: Scalar): bytes {
    if c < 0x80 then [c as byte]
    else if c < 0x800 then [(0xC0 + c / 64) as byte, Continuation(c)]
    else if c < 0x1_0000 then [(0xE0 + c / 4096) as byte, Continuation(c / 64), Continuation(c)]
    else [(0xF0 + c / 262144) as byte, Continuation(c / 4096), Continuation(c / 64), Continuation(c)]
  }

  function EncodeText(text: seq<Scalar>): bytes {
    if text == [] then [] else EncodeScalar(text[0]) + EncodeText(text[1..])
  }

  // ---------------------------------------------------------------- encoded text is well-formed

  /** The bounds that tell a scalar value from a surrogate or an overlong form. */
  lemma Digits(c: nat)
    ensures c == 64 * (c / 64) + c % 64 && c / 4096 == c / 64 / 64 && c / 262144 == c / 64 / 64 / 64
  {
  }

  lemma ScalarThen(c: Scalar, rest: bytes)
    ensures IsUtf8(EncodeScalar(c) + rest) == IsUtf8(rest)
  {
    var s := EncodeScalar(c) + rest;
    Digits(c);
    Digits(c / 64);
    Digits(c / 4096);
    assert s[|EncodeScalar(c)|..] == rest;

  }

  lemma {:induction false} TextIsUtf8(text: seq<Scalar>)
    ensures IsUtf8(EncodeText(text))
  {
    if text != [] {
      TextIsUtf8(text[1..]);
      ScalarThen(text[0], EncodeText(text[1..]));
    }
  }

  // ---------------------------------------------------------------- well-formed bytes are encoded text

  lemma Join(q: nat, d: nat)
    requires d < 64
    ensures (64 * q + d) / 64 == q && (64 * q + d) % 64 == d
  {
  }

  /** The six bits of a continuation byte. */
  function Bits(s: bytes, i: nat): nat
    requires i < |s| && 0x80 <= s[i] < 0xC0
  {
    (s[i] - 0x80) as nat
  }

  lemma TwoBytes(s: bytes) returns (c: Scalar)
    requires s != [] && 0xC2 <= s[0] < 0xE0 && Tails(s, 1)
    ensures EncodeScalar(c) == s[..2]
  {
    var a := (s[0] - 0xC0) as nat;
    Join(a, Bits(s, 1));
    c := 64 * a + Bits(s, 1);
  }

  lemma ThreeBytes(s: bytes) returns (c: Scalar)
    requires s != [] && 0xE0 <= s[0] < 0xF0 && Tails(s, 2)
    requires (s[0] == 0xE0 ==> s[1] >= 0xA0) && (s[0] == 0xED ==> s[1] < 0xA0)
    ensures EncodeScalar(c) == s[..3]
  {
    var a := (s[0] - 0xE0) as nat;
    var b := 64 * a + Bits(s, 1);
    Join(a, Bits(s, 1));
    Join(b, Bits(s, 2));
    c := 64 * b + Bits(s, 2);
    Digits(c);
  }

  lemma FourBytes(s: bytes) returns (c: Scalar)
    requires s != [] && 0xF0 <= s[0] < 0xF5 && Tails(s, 3)
    requires (s[0] == 0xF0 ==> s[1] >= 0x90) && (s[0] == 0xF4 ==> s[1] < 0x90)
    ensures EncodeScalar(c) == s[..4]
  {
    var a := (s[0] - 0xF0) as nat;
    var b := 64 * a + Bits(s, 1);
    var d := 64 * b + Bits(s, 2);
    Join(a, Bits(s, 1));
    Join(b, Bits(s, 2));
    Join(d, Bits(s, 3));
    c := 64 * d + Bits(s, 3);
    Digits(c);
  }

  /** The scalar value that the first one to four bytes encode. */
  lemma FirstScalar(s: bytes) returns (c: Scalar)
    requires IsUtf8(s) && s != []
    ensures EncodeScalar(c) <= s && IsUtf8(s[|EncodeScalar(c)|..])
  {
    if s[0] < 0x80 {
      c := s[0] as nat;
    } else if s[0] < 0xE0 {
      c := TwoBytes(s);
    } else if s[0] < 0xF0 {
      c := ThreeBytes(s);
    } else {
      c := FourBytes(s);
    }
  }

  lemma {:induction false} Utf8IsText(s: bytes) returns (text: seq<Scalar>)
    requires IsUtf8(s)
    ensures EncodeText(text) == s
    decreases |s|
  {
    if s == [] {
      text := [];
    } else {
      var c := FirstScalar(s);
      var rest := Utf8IsText(s[|EncodeScalar(c)|..]);
      text := [c] + rest;
      assert text[1..] == rest;
    }
  }

  // ---------------------------------------------------------------- main results

  /** The bytes encode a text. */
  ghost predicate IsText(s: bytes) {
    exists text :: EncodeText(text) == s
  }

  /** The predicate accepts exactly the encodings of lists of scalar values. */
  lemma Utf8Exactly(s: bytes)
    ensures IsUtf8(s) <==> IsText(s)
  {
    if IsUtf8(s) {
      var text := Utf8IsText(s);
      assert EncodeText(text) == s;
    }
    if IsText(s) {
      var text :| EncodeText(text) == s;
      TextIsUtf8(text);
    }
  }

  /** No two scalar values begin alike. */
  lemma ScalarUnique(c: Scalar, d: Scalar, a: bytes, b: bytes)
    requires EncodeScalar(c) + a == EncodeScalar(d) + b
    ensures c == d && a == b
  {
    var s, t := EncodeScalar(c) + a, EncodeScalar(d) + b;
    assert s[0] == EncodeScalar(c)[0] && t[0] == EncodeScalar(d)[0];
    assert |EncodeScalar(c)| == |EncodeScalar(d)|;
    assert s[..|EncodeScalar(c)|] == EncodeScalar(c) && t[..|EncodeScalar(d)|] == EncodeScalar(d);
    assert a == s[|EncodeScalar(c)|..] && b == t[|EncodeScalar(d)|..];
    Digits(c);
    Digits(c / 64);
    Digits(c / 4096);
    Digits(d);
    Digits(d / 64);
    Digits(d / 4096);
  }

  /** The text is determined by its bytes: there is one encoding of each, and no overlong one. */
  lemma {:induction false} TextUnique(t: seq<Scalar>, u: seq<Scalar>)
    requires EncodeText(t) == EncodeText(u)
    ensures t == u
  {
    if t != [] && u != [] {
      ScalarUnique(t[0], u[0], EncodeText(t[1..]), EncodeText(u[1..]));
      TextUnique(t[1..], u[1..]);
    }
  }
}
