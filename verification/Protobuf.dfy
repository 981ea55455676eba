/** The wire primitives of the Protocol Buffers encoding that the generated code calls through
    `Reader` and `Writer` (Protocol Buffers Encoding, sections "Base 128 Varints",
    "Length-Delimited Records" and "Groups"). A read takes what is left of the buffer and returns
    the value and what is left after it. */
module Protobuf {
  import opened Bytes

  datatype DecodeError = OutOfRange | BadWireType(wireType: nat)

  datatype Read<+T> = Ok(value: T, rest: bytes) | Err(error: DecodeError)

  const TWO_32: nat := 0x1_0000_0000
  const TWO_64: nat := 0x1_0000_0000_0000_0000

  // ---------------------------------------------------------------- varints

  /** A value kept to a machine width. */
  function Truncate(v: nat, width: nat): (r: nat)
    requires width > 0
    ensures r < width
    ensures v < width ==> r == v
  {
    v % width
  }

  function EncodeVarint(n: nat): (s: bytes)
    ensures |s| >= 1
  {
    if n < 128 then [n as byte] else [(128 + n % 128) as byte] + EncodeVarint(n / 128)
  }

  /** A varint of at most `k` bytes, before truncation to a machine width. */
  function ReadDigits(s: bytes, k: nat): (r: Read<nat>)
    ensures r.Ok? ==> |r.rest| < |s|
    decreases k
  {
    if s == [] || k == 0 then Err(OutOfRange)
    else if s[0] < 128 then Ok(s[0] as nat, s[1..])
    else
      match ReadDigits(s[1..], k - 1)
      case Err(e) => Err(e)
      case Ok(v, rest) => Ok(s[0] as nat - 128 + 128 * v, rest)
  }

  function ReadVarint(s: bytes, width: nat): (r: Read<nat>)
    requires width > 0
    ensures r.Ok? ==> |r.rest| < |s| && r.value < width
  {
    match ReadDigits(s, 10)
    case Err(e) => Err(e)
    case Ok(v, rest) => Ok(Truncate(v, width), rest)
  }

  function ReadUint32(s: bytes): (r: Read<nat>)
    ensures r.Ok? ==> |r.rest| < |s| && r.value < TWO_32
  {
    ReadVarint(s, TWO_32)
  }

  function ReadUint64(s: bytes): (r: Read<nat>)
    ensures r.Ok? ==> |r.rest| < |s| && r.value < TWO_64
  {
    ReadVarint(s, TWO_64)
  }

  /** `int32` writes a negative value as its 64-bit two's complement. */
  function EncodeInt32(v: int): bytes
    requires -0x8000_0000 <= v < 0x8000_0000
  {
    if v < 0 then EncodeVarint(v + TWO_64) else EncodeVarint(v)
  }

  function ReadInt32(s: bytes): (r: Read<int>)
    ensures r.Ok? ==> |r.rest| < |s|
  {
    match ReadUint32(s)
    case Err(e) => Err(e)
    case Ok(v, rest) => Ok(if v < 0x8000_0000 then v else v - TWO_32, rest)
  }

  function Pow128(k: nat): nat {
    if k == 0 then 1 else 128 * Pow128(k - 1)
  }

  lemma Pow128One()
    ensures Pow128(1) == 128
  {
  }

  lemma {:induction false} DigitsRoundTrip(n: nat, k: nat, rest: bytes)
    requires k > 0 && n < Pow128(k)
    ensures ReadDigits(EncodeVarint(n) + rest, k) == Ok(n, rest)
    decreases k
  {
    var s := EncodeVarint(n);
    if n < 128 {
      assert (s + rest)[1..] == rest;
    } else {
      Pow128One();
      DigitsRoundTrip(n / 128, k - 1, rest);
      assert (s + rest)[1..] == EncodeVarint(n / 128) + rest;
    }
  }

  lemma Pow128Ten()
    ensures Pow128(10) > TWO_64
  {
    assert Pow128(2) == 128 * (128 * Pow128(0)) == 16384;
    assert Pow128(4) == 128 * (128 * Pow128(2));
    assert Pow128(6) == 128 * (128 * Pow128(4));
    assert Pow128(8) == 128 * (128 * Pow128(6));
    assert Pow128(10) == 128 * (128 * Pow128(8));
  }

  lemma VarintRoundTrip(n: nat, width: nat, rest: bytes)
    requires n < TWO_64 && width > 0
    ensures ReadVarint(EncodeVarint(n) + rest, width) == Ok(Truncate(n, width), rest)
  {
    Pow128Ten();
    DigitsRoundTrip(n, 10, rest);
  }

  /** The first `n` bytes are a varint: all but the last have the continuation bit. */
  ghost predicate IsVarint(s: bytes, n: nat) {
    1 <= n <= |s| && s[n - 1] < 128 && forall i :: 0 <= i < n - 1 ==> s[i] >= 128
  }

  /** `d * 128^k`. */
  function Shifted(d: nat, k: nat): nat {
    if k == 0 then d else 128 * Shifted(d, k - 1)
  }

  /** The number whose base-128 digits, lowest first, are the low seven bits of the first `n` bytes. */
  function DigitSum(s: bytes, n: nat): nat
    requires n <= |s|
  {
    if n == 0 then 0 else DigitSum(s, n - 1) + Shifted(s[n - 1] as nat % 128, n - 1)
  }

  lemma {:induction false} DigitSumFront(s: bytes, n: nat)
    requires 1 <= n <= |s|
    ensures DigitSum(s, n) == s[0] as nat % 128 + 128 * DigitSum(s[1..], n - 1)
  {
    if n == 1 {
      assert DigitSum(s, 1) == DigitSum(s, 0) + Shifted(s[0] as nat % 128, 0);
    } else {
      DigitSumFront(s, n - 1);
      assert s[1..][n - 2] == s[n - 1];
    }
  }

  lemma {:induction false} DigitsExactly(s: bytes, k: nat)
    ensures match ReadDigits(s, k)
            case Ok(v, rest) =>
              var n := |s| - |rest|;
              n <= k && IsVarint(s, n) && v == DigitSum(s, n) && rest == s[n..]
            case Err(e) => e == OutOfRange && forall n: nat :: n <= k ==> !IsVarint(s, n)
    decreases k
  {
    if s != [] && k > 0 {
      if s[0] < 128 {
        assert DigitSum(s, 1) == DigitSum(s, 0) + Shifted(s[0] as nat % 128, 0);
      } else {
        DigitsExactly(s[1..], k - 1);
        DigitsContinue(s, k);
      }
    }
  }

  lemma DigitsContinue(s: bytes, k: nat)
    requires s != [] && k > 0 && s[0] >= 128
    ensures forall n: nat :: n >= 1 && IsVarint(s, n) ==> IsVarint(s[1..], n - 1)
    ensures forall n: nat :: IsVarint(s[1..], n) ==> IsVarint(s, n + 1)
    ensures forall n: nat :: n < |s| ==> DigitSum(s, n + 1) == s[0] as nat - 128 + 128 * DigitSum(s[1..], n)
  {
    forall n: nat | IsVarint(s[1..], n) ensures IsVarint(s, n + 1) {
      forall i | 0 <= i < n ensures s[i] >= 128 {
        assert i > 0 ==> s[1..][i - 1] == s[i];
      }
    }
    forall n: nat | n < |s| ensures DigitSum(s, n + 1) == s[0] as nat - 128 + 128 * DigitSum(s[1..], n) {
      DigitSumFront(s, n + 1);
    }
  }

  /** Reading a varint succeeds exactly if one of at most ten bytes is there, be it the shortest form of
      its value or not, and gives its value cut to the width. */
  lemma VarintExactly(s: bytes, width: nat)
    requires width > 0
    ensures ReadVarint(s, width).Ok? <==> exists n: nat :: n <= 10 && IsVarint(s, n)
    ensures forall n: nat :: n <= 10 && IsVarint(s, n) ==> ReadVarint(s, width) == Ok(DigitSum(s, n) % width, s[n..])
  {
    DigitsExactly(s, 10);
    forall n: nat, m: nat | IsVarint(s, n) && IsVarint(s, m) ensures n == m {
    }
  }

  lemma Uint32RoundTrip(n: nat, rest: bytes)
    requires n < TWO_32
    ensures ReadUint32(EncodeVarint(n) + rest) == Ok(n, rest)
  {
    hide Truncate;
    VarintRoundTrip(n, TWO_32, rest);
  }

  lemma Uint64RoundTrip(n: nat, rest: bytes)
    requires n < TWO_64
    ensures ReadUint64(EncodeVarint(n) + rest) == Ok(n, rest)
  {
    hide Truncate;
    VarintRoundTrip(n, TWO_64, rest);
  }

  /** The low 32 bits of a negative number's 64-bit two's complement. */
  lemma TwosComplementLow(v: int)
    requires -0x8000_0000 <= v < 0
    ensures Truncate(v + TWO_64, TWO_32) == v + TWO_32
  {
    assert v + TWO_64 == (TWO_32 - 1) * TWO_32 + (v + TWO_32);
  }

  lemma Int32RoundTrip(v: int, rest: bytes)
    requires -0x8000_0000 <= v < 0x8000_0000
    ensures ReadInt32(EncodeInt32(v) + rest) == Ok(v, rest)
  {
    if v < 0 {
      TwosComplementLow(v);
      VarintRoundTrip(v + TWO_64, TWO_32, rest);
    } else {
      Uint32RoundTrip(v, rest);
    }
  }

  // ---------------------------------------------------------------- length-delimited records

  function EncodeBytes(b: bytes): bytes {
    EncodeVarint(|b|) + b
  }

  function Take(s: bytes, n: nat): (r: Read<bytes>)
    ensures r.Ok? ==> |r.rest| == |s| - n
  {
    if |s| < n then Err(OutOfRange) else Ok(s[..n], s[n..])
  }

  function ReadBytes(s: bytes): (r: Read<bytes>)
    ensures r.Ok? ==> |r.rest| < |s|
  {
    match ReadUint32(s)
    case Err(e) => Err(e)
    case Ok(n, rest) => Take(rest, n)
  }

  lemma BytesRoundTrip(b: bytes, rest: bytes)
    requires |b| < TWO_32
    ensures ReadBytes(EncodeBytes(b) + rest) == Ok(b, rest)
  {
    var after := b + rest;
    Uint32RoundTrip(|b|, after);
    assert EncodeBytes(b) + rest == EncodeVarint(|b|) + after;
    assert Take(after, |b|) == Ok(b, rest);
  }

  // ---------------------------------------------------------------- skipping

  function SkipType(s: bytes, wireType: nat): (r: Read<()>)
    ensures r.Ok? ==> |r.rest| <= |s|
    decreases |s|, 1
  {
    match wireType
    case 0 => Done(ReadUint64(s))
    case 1 => Done(Take(s, 8))
    case 2 => Done(ReadBytes(s))
    case 3 => SkipGroup(s)
    case 5 => Done(Take(s, 4))
    case _ => Err(BadWireType(wireType))
  }

  /** Skips fields up to and including the end-group tag. */
  function SkipGroup(s: bytes): (r: Read<()>)
    ensures r.Ok? ==> |r.rest| < |s|
    decreases |s|, 0
  {
    match ReadUint32(s)
    case Err(e) => Err(e)
    case Ok(tag, rest) =>
      if Truncate(tag, 8) == 4 then Ok((), rest)
      else
        match SkipType(rest, Truncate(tag, 8))
        case Err(e) => Err(e)
        case Ok(_, rest2) => SkipGroup(rest2)
  }

  function Done<T>(r: Read<T>): Read<()> {
    match r
    case Ok(_, rest) => Ok((), rest)
    case Err(e) => Err(e)
  }

  // ---------------------------------------------------------------- reads are local

  lemma {:induction false} DigitsLocal(a: bytes, k: nat, b: bytes)
    requires ReadDigits(a, k).Ok?
    ensures ReadDigits(a + b, k) == Ok(ReadDigits(a, k).value, ReadDigits(a, k).rest + b)
    decreases k
  {
    assert (a + b)[1..] == a[1..] + b;
    if a[0] >= 128 {
      DigitsLocal(a[1..], k - 1, b);
    }
  }

  lemma BytesLocal(a: bytes, b: bytes)
    requires ReadBytes(a).Ok?
    ensures ReadBytes(a + b) == Ok(ReadBytes(a).value, ReadBytes(a).rest + b)
  {
    DigitsLocal(a, 10, b);
    var n, rest := ReadUint32(a).value, ReadUint32(a).rest;
    assert (rest + b)[..n] == rest[..n] && (rest + b)[n..] == rest[n..] + b;
  }

  lemma {:induction false} SkipTypeLocal(a: bytes, wireType: nat, b: bytes)
    requires SkipType(a, wireType).Ok?
    ensures SkipType(a + b, wireType) == Ok((), SkipType(a, wireType).rest + b)
    decreases |a|, 1
  {
    match wireType
    case 0 => DigitsLocal(a, 10, b);
    case 1 => assert (a + b)[8..] == a[8..] + b;
    case 2 => BytesLocal(a, b);
    case 3 => SkipGroupLocal(a, b);
    case 5 => assert (a + b)[4..] == a[4..] + b;
    case _ =>
  }

  lemma {:induction false} SkipGroupLocal(a: bytes, b: bytes)
    requires SkipGroup(a).Ok?
    ensures SkipGroup(a + b) == Ok((), SkipGroup(a).rest + b)
    decreases |a|, 0
  {
    DigitsLocal(a, 10, b);
    var tag, rest := ReadUint32(a).value, ReadUint32(a).rest;
    if Truncate(tag, 8) != 4 {
      SkipTypeLocal(rest, Truncate(tag, 8), b);
      SkipGroupLocal(SkipType(rest, Truncate(tag, 8)).rest, b);
    }
  }

  // ---------------------------------------------------------------- well-formed unknown fields

  /** A value of a field the reader does not know, by wire type; groups nest. */
  datatype Value =
    | Varint(n: nat)
    | Fixed64(b: bytes)
    | Delimited(b: bytes)
    | Group(fields: Fields)
    | Fixed32(b: bytes)

  datatype Fields = NoFields | Field(number: nat, value: Value, more: Fields)

  function WireType(v: Value): nat {
    match v
    case Varint(_) => 0
    case Fixed64(_) => 1
    case Delimited(_) => 2
    case Group(_) => 3
    case Fixed32(_) => 5
  }

  predicate WellFormed(number: nat, v: Value)
    decreases v
  {
    && number < 0x2000_0000
    && match v
       case Varint(n) => n < TWO_64
       case Fixed64(b) => |b| == 8
       case Delimited(b) => |b| < TWO_32
       case Group(fields) => AllWellFormed(fields)
       case Fixed32(b) => |b| == 4
  }

  predicate AllWellFormed(fields: Fields)
    decreases fields
  {
    match fields
    case NoFields => true
    case Field(number, value, more) => WellFormed(number, value) && AllWellFormed(more)
  }

  function Tag(number: nat, wireType: nat): bytes {
    EncodeVarint(number * 8 + wireType)
  }

  /** What follows the tag. A group ends with the end-group tag of its own number. */
  function EncodeValue(number: nat, v: Value): bytes
    decreases v
  {
    match v
    case Varint(n) => EncodeVarint(n)
    case Fixed64(b) => b
    case Delimited(b) => EncodeBytes(b)
    case Group(fields) => EncodeFields(fields) + Tag(number, 4)
    case Fixed32(b) => b
  }

  function EncodeFields(fields: Fields): bytes
    decreases fields
  {
    match fields
    case NoFields => []
    case Field(number, value, more) => Tag(number, WireType(value)) + EncodeValue(number, value) + EncodeFields(more)
  }

  lemma TagParts(number: nat, wireType: nat)
    requires wireType < 8
    ensures Truncate(number * 8 + wireType, 8) == wireType
  {
  }

  lemma TagRoundTrip(number: nat, wireType: nat, rest: bytes)
    requires number < 0x2000_0000 && wireType < 8
    ensures ReadUint32(Tag(number, wireType) + rest) == Ok(number * 8 + wireType, rest)
  {
    Uint32RoundTrip(number * 8 + wireType, rest);
  }

  /** Skipping consumes a well-formed value exactly, however deeply groups nest. */
  lemma {:induction false} SkipsValue(number: nat, v: Value, rest: bytes)
    requires WellFormed(number, v)
    ensures SkipType(EncodeValue(number, v) + rest, WireType(v)) == Ok((), rest)
    decreases v, 1
  {
    match v
    case Varint(n) => Uint64RoundTrip(n, rest);
    case Fixed64(b) => assert (b + rest)[8..] == rest;
    case Delimited(b) => BytesRoundTrip(b, rest);
    case Fixed32(b) => assert (b + rest)[4..] == rest;
    case Group(fields) =>
      SkipsFields(fields, number, rest);
      assert EncodeFields(fields) + Tag(number, 4) + rest == EncodeFields(fields) + (Tag(number, 4) + rest);
  }

  lemma {:induction false} SkipsField(number: nat, v: Value, tail: bytes)
    requires WellFormed(number, v)
    ensures SkipGroup(Tag(number, WireType(v)) + (EncodeValue(number, v) + tail)) == SkipGroup(tail)
    decreases v, 2
  {
    var after := EncodeValue(number, v) + tail;
    TagRoundTrip(number, WireType(v), after);
    SkipsValue(number, v, tail);
    TagParts(number, WireType(v));
    GroupStep(Tag(number, WireType(v)) + after, number * 8 + WireType(v), after, tail);
  }

  lemma GroupEnd(number: nat, rest: bytes)
    requires number < 0x2000_0000
    ensures SkipGroup(Tag(number, 4) + rest) == Ok((), rest)
  {
    TagRoundTrip(number, 4, rest);
    TagParts(number, 4);
    GroupClose(Tag(number, 4) + rest, number * 8 + 4, rest);
  }

  lemma GroupClose(s: bytes, tag: nat, rest: bytes)
    requires ReadUint32(s) == Ok(tag, rest) && Truncate(tag, 8) == 4
    ensures SkipGroup(s) == Ok((), rest)
  {
  }

  lemma {:induction false} SkipsFields(fields: Fields, number: nat, rest: bytes)
    requires AllWellFormed(fields) && number < 0x2000_0000
    ensures SkipGroup(EncodeFields(fields) + (Tag(number, 4) + rest)) == Ok((), rest)
    decreases fields, 0
  {
    var end := Tag(number, 4) + rest;
    match fields
    case NoFields =>
      assert EncodeFields(fields) + end == end;
      GroupEnd(number, rest);
    case Field(n, v, more) =>
      SkipsFields(more, number, rest);
      SkipsField(n, v, EncodeFields(more) + end);
      Regroup(Tag(n, WireType(v)), EncodeValue(n, v), EncodeFields(more), end);
  }

  lemma Regroup(a: bytes, b: bytes, c: bytes, d: bytes)
    ensures a + b + c + d == a + (b + (c + d))
  {
  }

  lemma GroupStep(s: bytes, tag: nat, after: bytes, tail: bytes)
    requires ReadUint32(s) == Ok(tag, after) && Truncate(tag, 8) != 4
    requires SkipType(after, Truncate(tag, 8)) == Ok((), tail)
    ensures SkipGroup(s) == SkipGroup(tail)
  {
  }
}
