/** The laws of the Envelope codec: round trip, merge, and indifference to unknown fields. */
module EnvelopeLaws {
  import opened Bytes
  import opened Protobuf
  import opened Envelopes

  // ---------------------------------------------------------------- one field

  lemma OneByteTag(tag: byte, rest: bytes)
    requires tag < 128
    ensures ReadUint32([tag] + rest) == Ok(tag as nat, rest)
  {
    assert EncodeVarint(tag as nat) == [tag];
    Uint32RoundTrip(tag as nat, rest);
  }

  lemma TwoPairs(read: bytes -> Read<Part>, s: bytes, key: bytes, second: bytes, value: bytes, rest: bytes)
    requires Shrinks(read)
    requires read(s) == Ok(Key(key), second) && read(second) == Ok(Value(value), rest)
    ensures Pairs(read, s, |s| - |rest|, [], []) == Ok((key, value), rest)
  {
    assert Pairs(read, second, |second| - |rest|, key, []) == Pairs(read, rest, 0, key, value);
  }

  lemma PartRoundTrip(tag: byte, b: bytes, rest: bytes)
    requires (tag == 10 || tag == 18) && |b| < TWO_32
    ensures ReadPart([tag] + (EncodeBytes(b) + rest)) == Ok(if tag == 10 then Key(b) else Value(b), rest)
  {
    OneByteTag(tag, EncodeBytes(b) + rest);
    BytesRoundTrip(b, rest);
  }

  lemma EntryHeader(e: bytes, rest: bytes)
    requires |e| < TWO_32
    ensures ReadEntry(EncodeBytes(e) + rest) == ReadPairs(e + rest, |e|, [], [])
  {
    Uint32RoundTrip(|e|, e + rest);
    assert EncodeBytes(e) + rest == EncodeVarint(|e|) + (e + rest);
  }

  lemma EntryRoundTrip(key: bytes, value: bytes, rest: bytes)
    requires |EncodeEntry(key, value)| < TWO_32
    ensures ReadEntry(EncodeBytes(EncodeEntry(key, value)) + rest) == Ok((key, value), rest)
  {
    EntryHeader(EncodeEntry(key, value), rest);
    PartRoundTrip(10, key, [18] + (EncodeBytes(value) + rest));
    PartRoundTrip(18, value, rest);
    EntryPairs(ReadPart, key, value, rest);
  }

  lemma EntryShape(k: bytes, v: bytes, rest: bytes)
    ensures [10] + k + [18] + v + rest == [10] + (k + ([18] + (v + rest)))
  {
  }

  lemma EntryPairs(read: bytes -> Read<Part>, key: bytes, value: bytes, rest: bytes)
    requires Shrinks(read)
    requires var second := [18] + (EncodeBytes(value) + rest);
             && read([10] + (EncodeBytes(key) + second)) == Ok(Key(key), second)
             && read(second) == Ok(Value(value), rest)
    ensures Pairs(read, EncodeEntry(key, value) + rest, |EncodeEntry(key, value)|, [], []) == Ok((key, value), rest)
  {
    EntryShape(EncodeBytes(key), EncodeBytes(value), rest);
    TwoPairs(read, EncodeEntry(key, value) + rest, key, [18] + (EncodeBytes(value) + rest), value, rest);
  }

  /** The tag `encode` writes before an item. */
  function TagByte(item: Item): byte
    requires !item.Unknown?
  {
    match item
    case Kind(_) => 8
    case RequestId(_) => 16
    case ServiceName(_) => 26
    case MethodName(_) => 34
    case Payload(_) => 42
    case Status(_) => 48
    case ErrorMessage(_) => 58
    case Meta(_, _) => 66
  }

  lemma BodyRoundTrip(item: Item, rest: bytes)
    requires Encodable(item) && |EncodeItem(item)| < TWO_32
    ensures EncodeItem(item) == [TagByte(item)] + EncodeItem(item)[1..]
    ensures ReadBody(EncodeItem(item)[1..] + rest, TagByte(item) as nat) == Ok(item, rest)
  {
    match item
    case Kind(v) => Int32RoundTrip(v, rest);
    case RequestId(id) => Uint64RoundTrip(id, rest);
    case ServiceName(b) => BytesRoundTrip(b, rest);
    case MethodName(b) => BytesRoundTrip(b, rest);
    case Payload(b) => BytesRoundTrip(b, rest);
    case Status(v) => Int32RoundTrip(v, rest);
    case ErrorMessage(b) => BytesRoundTrip(b, rest);
    case Meta(k, v) => EntryRoundTrip(k, v, rest);
  }

  lemma ItemFrom(s: bytes, tag: nat, body: bytes, item: Item, rest: bytes)
    requires ReadUint32(s) == Ok(tag, body) && ReadBody(body, tag) == Ok(item, rest)
    ensures ReadItem(s) == Ok(item, rest)
  {
  }

  lemma ItemRoundTrip(item: Item, rest: bytes)
    requires Encodable(item) && |EncodeItem(item)| < TWO_32
    ensures ReadItem(EncodeItem(item) + rest) == Ok(item, rest)
  {
    BodyRoundTrip(item, rest);
    var tag, body := TagByte(item), EncodeItem(item)[1..];
    OneByteTag(tag, body + rest);
    ItemFrom([tag] + (body + rest), tag as nat, body + rest, item, rest);
    Associative([tag], body, rest);
  }

  // ---------------------------------------------------------------- decoding is local

  lemma PartLocal(a: bytes, b: bytes)
    requires ReadPart(a).Ok?
    ensures ReadPart(a + b) == Ok(ReadPart(a).value, ReadPart(a).rest + b)
  {
    DigitsLocal(a, 10, b);
    var tag, rest := ReadUint32(a).value, ReadUint32(a).rest;
    if InField(tag, 8) || InField(tag, 16) {
      BytesLocal(rest, b);
    } else {
      SkipTypeLocal(rest, Truncate(tag, 8), b);
    }
  }

  ghost predicate Local(read: bytes -> Read<Part>) {
    forall a, b :: read(a).Ok? ==> read(a + b) == Ok(read(a).value, read(a).rest + b)
  }

  lemma ReadPartLocal()
    ensures Local(ReadPart)
  {
    forall a, b | ReadPart(a).Ok? ensures ReadPart(a + b) == Ok(ReadPart(a).value, ReadPart(a).rest + b) {
      PartLocal(a, b);
    }
  }

  lemma {:induction false} PairsLocal(
      read: bytes -> Read<Part>, a: bytes, left: int, key: bytes, value: bytes, b: bytes)
    requires Shrinks(read) && Local(read)
    requires Pairs(read, a, left, key, value).Ok?
    ensures Pairs(read, a + b, left, key, value)
         == Ok(Pairs(read, a, left, key, value).value, Pairs(read, a, left, key, value).rest + b)
    decreases |a|
  {
    if left > 0 {
      var p, rest := read(a).value, read(a).rest;
      assert read(a + b) == Ok(p, rest + b);
      PairsLocal(read, rest, left - (|a| - |rest|), KeyOr(p, key), ValueOr(p, value), b);
    }
  }

  lemma EntryLocal(a: bytes, b: bytes)
    requires ReadEntry(a).Ok?
    ensures ReadEntry(a + b) == Ok(ReadEntry(a).value, ReadEntry(a).rest + b)
  {
    DigitsLocal(a, 10, b);
    ReadPartLocal();
    PairsLocal(ReadPart, ReadUint32(a).rest, ReadUint32(a).value, [], [], b);
  }

  lemma BodyLocal(a: bytes, tag: nat, b: bytes)
    requires ReadBody(a, tag).Ok?
    ensures ReadBody(a + b, tag) == Ok(ReadBody(a, tag).value, ReadBody(a, tag).rest + b)
  {
    if InField(tag, 8) || InField(tag, 16) || InField(tag, 48) {
      DigitsLocal(a, 10, b);
    } else if InField(tag, 64) {
      EntryLocal(a, b);
    } else if 24 <= tag < 64 {
      BytesLocal(a, b);
    } else {
      SkipTypeLocal(a, Truncate(tag, 8), b);
    }
  }

  lemma ItemLocal(a: bytes, b: bytes)
    requires ReadItem(a).Ok?
    ensures ReadItem(a + b) == Ok(ReadItem(a).value, ReadItem(a).rest + b)
  {
    DigitsLocal(a, 10, b);
    BodyLocal(ReadUint32(a).rest, ReadUint32(a).value, b);
  }

  lemma {:induction false} DecodeAppend(m: Message, a: bytes, b: bytes)
    requires DecodeInto(m, a).Decoded?
    ensures DecodeInto(m, a + b) == DecodeInto(DecodeInto(m, a).message, b)
    decreases |a|
  {
    if a == [] {
      assert a + b == b;
    } else {
      ItemLocal(a, b);
      DecodeAppend(Store(m, ReadItem(a).value), ReadItem(a).rest, b);
    }
  }

  // ---------------------------------------------------------------- the round trip

  lemma {:induction false} ItemsRoundTrip(m: Message, items: seq<Item>)
    requires AllEncodable(items) && |EncodeItems(items)| < TWO_32
    ensures DecodeInto(m, EncodeItems(items)) == Decoded(StoreAll(m, items))
    decreases |items|
  {
    if items != [] {
      var n := |items| - 1;
      var last := EncodeItem(items[n]);
      ItemsRoundTrip(m, items[..n]);
      DecodeAppend(m, EncodeItems(items[..n]), last);
      OneItem(StoreAll(m, items[..n]), items[n]);
    }
  }

  lemma OneItem(m: Message, item: Item)
    requires Encodable(item) && |EncodeItem(item)| < TWO_32
    ensures DecodeInto(m, EncodeItem(item)) == Decoded(Store(m, item))
  {
    ItemRoundTrip(item, []);
    assert EncodeItem(item) + [] == EncodeItem(item);
  }

  /** The entries of `m` at `keys`, on top of `base`. */
  function Overlay(base: Metadata, keys: seq<bytes>, m: Metadata): Metadata
    requires forall k :: k in keys ==> k in m
  {
    map k | k in base.Keys + (set k | k in keys) :: if k in keys then m[k] else base[k]
  }

  lemma {:induction false} StoreMeta(x: Message, items: seq<Item>, keys: seq<bytes>, m: Metadata)
    requires StoreAll(x, items).metadata.Some?
    requires forall k :: k in keys ==> k in m
    ensures StoreAll(x, items + MetaItems(keys, m))
         == StoreAll(x, items).(metadata := Some(Overlay(StoreAll(x, items).metadata.value, keys, m)))
    decreases |keys|
  {
    hide Overlay, StoreAll;
    if keys == [] {
      EmptyOverlay(StoreAll(x, items).metadata.value, m);
      assert items + MetaItems(keys, m) == items;
    } else {
      var n := |keys| - 1;
      var all, some := items + MetaItems(keys, m), items + MetaItems(keys[..n], m);
      StoreMeta(x, items, keys[..n], m);
      assert all == some + [Meta(keys[n], m[keys[n]])];
      StoreLast(x, some, Meta(keys[n], m[keys[n]]));
      OverlayStep(StoreAll(x, items).metadata.value, keys, m);
    }
  }

  lemma EmptyOverlay(base: Metadata, m: Metadata)
    ensures Overlay(base, [], m) == base
  {
  }

  lemma OverlayStep(base: Metadata, keys: seq<bytes>, m: Metadata)
    requires keys != []
    requires forall k :: k in keys ==> k in m
    ensures var n := |keys| - 1;
            Overlay(base, keys, m) == Overlay(base, keys[..n], m)[keys[n] := m[keys[n]]]
  {
    var n := |keys| - 1;
    assert forall k :: k in keys <==> k == keys[n] || k in keys[..n];
  }

  lemma StoreLast(m: Message, items: seq<Item>, item: Item)
    ensures StoreAll(m, items + [item]) == Store(StoreAll(m, items), item)
  {
    assert (items + [item])[..|items|] == items;
  }

  lemma StoreIf(m: Message, items: seq<Item>, present: bool, item: Item)
    ensures var before := StoreAll(m, items);
            StoreAll(m, items + If(present, item)) == if present then Store(before, item) else before
  {
    if present {
      StoreLast(m, items, item);
    } else {
      assert items + [] == items;
    }
  }

  lemma StoreFour(m: Message)
    ensures StoreAll(FRESH, FourScalars(m))
         == FRESH.(kind := m.kind, requestId := m.requestId, serviceName := m.serviceName, methodName := m.methodName)
  {
    var s1 := If(m.kind.Some?, Kind(Or(m.kind, 0)));
    var s2 := s1 + If(m.requestId.Some?, RequestId(Or(m.requestId, 0)));
    var s3 := s2 + If(m.serviceName.Some?, ServiceName(Or(m.serviceName, [])));
    assert [] + s1 == s1;
    StoreIf(FRESH, [], m.kind.Some?, Kind(Or(m.kind, 0)));
    StoreIf(FRESH, s1, m.requestId.Some?, RequestId(Or(m.requestId, 0)));
    StoreIf(FRESH, s2, m.serviceName.Some?, ServiceName(Or(m.serviceName, [])));
    StoreIf(FRESH, s3, m.methodName.Some?, MethodName(Or(m.methodName, [])));
  }

  /** Three optional fields on top of `items`. */
  lemma StoreThree(m: Message, items: seq<Item>, x: Message)
    requires StoreAll(FRESH, items) == x && x.payload.None? && x.status.None? && x.errorMessage.None?
    ensures StoreAll(FRESH, items + If(m.payload.Some?, Payload(Or(m.payload, [])))
                            + If(m.status.Some?, Status(Or(m.status, 0)))
                            + If(m.errorMessage.Some?, ErrorMessage(Or(m.errorMessage, []))))
         == x.(payload := m.payload, status := m.status, errorMessage := m.errorMessage)
  {
    hide StoreAll, If;
    var s5 := items + If(m.payload.Some?, Payload(Or(m.payload, [])));
    StoreIf(FRESH, items, m.payload.Some?, Payload(Or(m.payload, [])));
    StoreIf(FRESH, s5, m.status.Some?, Status(Or(m.status, 0)));
    StoreIf(FRESH, s5 + If(m.status.Some?, Status(Or(m.status, 0))), m.errorMessage.Some?,
            ErrorMessage(Or(m.errorMessage, [])));
  }

  lemma StoreScalars(m: Message)
    ensures StoreAll(FRESH, Scalars(m)) == m.(metadata := Some(map[]))
  {
    StoreFour(m);
    StoreThree(m, FourScalars(m), StoreAll(FRESH, FourScalars(m)));
  }

  lemma StoreItems(m: Message, keys: seq<bytes>)
    requires Enumerates(keys, Or(m.metadata, map[]))
    ensures StoreAll(FRESH, Items(m, keys)) == m.(metadata := Some(Or(m.metadata, map[])))
  {
    StoreScalars(m);
    StoreMeta(FRESH, Scalars(m), keys, Or(m.metadata, map[]));
    OverlayAll(keys, Or(m.metadata, map[]));
  }

  lemma OverlayAll(keys: seq<bytes>, m: Metadata)
    requires Enumerates(keys, m)
    ensures Overlay(map[], keys, m) == m
  {
  }

  /** Round trip: for every message (any fields present, metadata enumerated in any order),
      decoding what was encoded gives its fields back, and the absent ones read as their defaults. */
  lemma RoundTrip(m: Message, keys: seq<bytes>)
    requires EncodableMessage(m) && Enumerates(keys, Or(m.metadata, map[]))
    requires |Encode(m, keys)| < TWO_32
    ensures Decode(Encode(m, keys)) == Decoded(m.(metadata := Some(Or(m.metadata, map[]))))
    ensures WithDefaults(Decode(Encode(m, keys)).message) == WithDefaults(m)
  {
    ItemsEncodable(m, keys);
    ItemsRoundTrip(FRESH, Items(m, keys));
    StoreItems(m, keys);
  }

  // ---------------------------------------------------------------- the merge law

  function First<T>(x: Option<T>, y: Option<T>): Option<T> {
    if y.Some? then y else x
  }

  /** Last one wins on scalars; right-biased union on metadata. */
  function Merge(x: Message, y: Message): Message {
    Message(First(x.kind, y.kind), First(x.requestId, y.requestId), First(x.serviceName, y.serviceName),
            First(x.methodName, y.methodName), First(x.payload, y.payload), First(x.status, y.status),
            First(x.errorMessage, y.errorMessage),
            Some(Or(x.metadata, map[]) + Or(y.metadata, map[])))
  }

  lemma StoreMerge(x: Message, y: Message, item: Item)
    ensures Store(Merge(x, y), item) == Merge(x, Store(y, item))
  {
    if item.Meta? {
      var a, b := Or(x.metadata, map[]), Or(y.metadata, map[]);
      assert (a + b)[item.key := item.value] == a + b[item.key := item.value];
    }
  }

  /** Decoding on top of `x` merges into `x` what the bytes decode to on their own. */
  lemma {:induction false} DecodeMerges(x: Message, y: Message, s: bytes)
    ensures match DecodeInto(y, s)
            case Decoded(z) => DecodeInto(Merge(x, y), s) == Decoded(Merge(x, z))
            case Failed(e) => DecodeInto(Merge(x, y), s) == Failed(e)
    decreases |s|
  {
    if s != [] && ReadItem(s).Ok? {
      var item, rest := ReadItem(s).value, ReadItem(s).rest;
      StoreMerge(x, y, item);
      DecodeMerges(x, Store(y, item), rest);
    }
  }

  lemma {:induction false} DecodeHasMetadata(m: Message, s: bytes)
    requires m.metadata.Some?
    ensures DecodeInto(m, s).Decoded? ==> DecodeInto(m, s).message.metadata.Some?
    decreases |s|
  {
    if s != [] && ReadItem(s).Ok? {
      DecodeHasMetadata(Store(m, ReadItem(s).value), ReadItem(s).rest);
    }
  }

  /** Merge law, for any two byte strings of which the first decodes: decoding their concatenation
      merges what they decode to, or fails as the second does. */
  lemma MergeLaw(a: bytes, b: bytes)
    requires Decode(a).Decoded?
    ensures match Decode(b)
            case Decoded(y) => Decode(a + b) == Decoded(Merge(Decode(a).message, y))
            case Failed(e) => Decode(a + b) == Failed(e)
  {
    var x := Decode(a).message;
    DecodeAppend(FRESH, a, b);
    DecodeHasMetadata(FRESH, a);
    assert x.metadata.value + map[] == x.metadata.value;
    assert Merge(x, FRESH) == x;
    DecodeMerges(x, FRESH, b);
  }

  /** The law for encoded messages: the later message wins field by field. */
  lemma MergeEncodings(x: Message, xs: seq<bytes>, y: Message, ys: seq<bytes>)
    requires EncodableMessage(x) && Enumerates(xs, Or(x.metadata, map[])) && |Encode(x, xs)| < TWO_32
    requires EncodableMessage(y) && Enumerates(ys, Or(y.metadata, map[])) && |Encode(y, ys)| < TWO_32
    ensures Decode(Encode(x, xs) + Encode(y, ys)) == Decoded(Merge(x, y))
  {
    RoundTrip(x, xs);
    RoundTrip(y, ys);
    MergeLaw(Encode(x, xs), Encode(y, ys));
  }

  // ---------------------------------------------------------------- unknown fields

  function UnknownField(number: nat, v: Value): bytes {
    Tag(number, WireType(v)) + EncodeValue(number, v)
  }

  lemma UnknownTag(number: nat, v: Value, rest: bytes)
    requires WellFormed(number, v)
    ensures var tag, body := number * 8 + WireType(v), EncodeValue(number, v) + rest;
            && ReadUint32(UnknownField(number, v) + rest) == Ok(tag, body)
            && SkipType(body, Truncate(tag, 8)) == Ok((), rest)
  {
    hide SkipType, ReadUint32, Truncate, EncodeValue, Tag;
    SkipsValue(number, v, rest);
    TagParts(number, WireType(v));
    UnknownShape(Tag(number, WireType(v)), EncodeValue(number, v), rest);
    TagRoundTrip(number, WireType(v), EncodeValue(number, v) + rest);
  }

  lemma UnknownShape(tag: bytes, value: bytes, rest: bytes)
    ensures tag + value + rest == tag + (value + rest)
  {
  }

  /** Not the number of an Envelope field. */
  predicate Foreign(number: nat) {
    number == 0 || number > 8
  }

  lemma ForeignBody(s: bytes, tag: nat, rest: bytes)
    requires tag < 8 || 72 <= tag
    requires SkipType(s, Truncate(tag, 8)) == Ok((), rest)
    ensures ReadBody(s, tag) == Ok(Unknown, rest)
  {
    hide SkipType, Truncate;
  }

  lemma UnknownItem(number: nat, v: Value, rest: bytes)
    requires WellFormed(number, v) && Foreign(number)
    ensures ReadItem(UnknownField(number, v) + rest) == Ok(Unknown, rest)
  {
    hide ReadUint32, SkipType, Truncate, EncodeValue, ReadBody;
    UnknownTag(number, v, rest);
    ForeignBody(EncodeValue(number, v) + rest, number * 8 + WireType(v), rest);
  }

  lemma DecodeStep(m: Message, s: bytes, item: Item, rest: bytes)
    requires ReadItem(s) == Ok(item, rest)
    ensures DecodeInto(m, s) == DecodeInto(Store(m, item), rest)
  {
  }

  lemma SkipsItem(a: bytes, s: bytes, t: bytes)
    requires Decode(a).Decoded? && ReadItem(s) == Ok(Unknown, t)
    ensures Decode(a + s) == Decode(a + t)
  {
    hide ReadItem;
    DecodeAppend(FRESH, a, s);
    DecodeAppend(FRESH, a, t);
    DecodeStep(Decode(a).message, s, Unknown, t);
  }

  /** A field of a number the SDK does not know, with any well-formed value (groups included), can
      stand anywhere between the fields of a message without changing what is decoded. */
  lemma UnknownIgnored(a: bytes, number: nat, v: Value, b: bytes)
    requires Decode(a).Decoded?
    requires WellFormed(number, v) && Foreign(number)
    ensures Decode(a + (UnknownField(number, v) + b)) == Decode(a + b)
  {
    UnknownItem(number, v, b);
    SkipsItem(a, UnknownField(number, v) + b, b);
  }

  lemma {:induction false} PairsAppend(
      read: bytes -> Read<Part>, a: bytes, key: bytes, value: bytes, b: bytes, more: nat)
    requires Shrinks(read) && Local(read)
    requires Pairs(read, a, |a|, key, value).Ok? && Pairs(read, a, |a|, key, value).rest == []
    ensures var p := Pairs(read, a, |a|, key, value).value;
            Pairs(read, a + b, |a| + more, key, value) == Pairs(read, b, more, p.0, p.1)
    decreases |a|
  {
    if a == [] {
      assert a + b == b;
    } else {
      var p, rest := read(a).value, read(a).rest;
      assert read(a + b) == Ok(p, rest + b);
      PairsAppend(read, rest, KeyOr(p, key), ValueOr(p, value), b, more);
    }
  }

  lemma PairsSkip(read: bytes -> Read<Part>, s: bytes, left: int, key: bytes, value: bytes, rest: bytes)
    requires Shrinks(read) && left > 0 && read(s) == Ok(Other, rest)
    ensures Pairs(read, s, left, key, value) == Pairs(read, rest, left - (|s| - |rest|), key, value)
  {
  }

  lemma UnknownPart(number: nat, v: Value, b: bytes)
    requires WellFormed(number, v) && number != 1 && number != 2
    ensures ReadPart(UnknownField(number, v) + b) == Ok(Other, b)
  {
    hide ReadUint32, SkipType, Truncate, EncodeValue;
    UnknownTag(number, v, b);
  }

  /** The body of an entry that is read whole: `a` and then `b`, with or without a field `u` between
      them that is skipped. */
  lemma EntryIgnores(a: bytes, u: bytes, b: bytes, rest: bytes)
    requires ReadPairs(a, |a|, [], []).Ok? && ReadPairs(a, |a|, [], []).rest == []
    requires u != [] && ReadPart(u + (b + rest)) == Ok(Other, b + rest)
    ensures ReadPairs(a + (u + b) + rest, |a + (u + b)|, [], []) == ReadPairs(a + b + rest, |a + b|, [], [])
  {
    hide ReadPart, ReadUint32;
    ReadPartLocal();
    SkipShape(a, u, b, rest);
    PairsIgnore(ReadPart, a, u + (b + rest), |u| + |b|, b + rest, |b|);
  }

  /** An unknown field inside the body of a map entry does not change what is read. */
  lemma UnknownIgnoredByEntry(a: bytes, number: nat, v: Value, b: bytes, rest: bytes)
    requires ReadPairs(a, |a|, [], []).Ok? && ReadPairs(a, |a|, [], []).rest == []
    requires WellFormed(number, v) && number != 1 && number != 2
    requires |a + (UnknownField(number, v) + b)| < TWO_32
    ensures ReadEntry(EncodeBytes(a + (UnknownField(number, v) + b)) + rest) == ReadEntry(EncodeBytes(a + b) + rest)
  {
    var u := UnknownField(number, v);
    EntryHeader(a + (u + b), rest);
    EntryHeader(a + b, rest);
    UnknownPart(number, v, b + rest);
    EntryIgnores(a, u, b, rest);
  }

  lemma PairsIgnore(read: bytes -> Read<Part>, a: bytes, long: bytes, m: nat, short: bytes, n: nat)
    requires Shrinks(read) && Local(read)
    requires Pairs(read, a, |a|, [], []).Ok? && Pairs(read, a, |a|, [], []).rest == []
    requires read(long) == Ok(Other, short) && m > 0 && m - (|long| - |short|) == n
    ensures Pairs(read, a + long, |a| + m, [], []) == Pairs(read, a + short, |a| + n, [], [])
  {
    var p := Pairs(read, a, |a|, [], []).value;
    PairsAppend(read, a, [], [], long, m);
    PairsAppend(read, a, [], [], short, n);
    PairsSkip(read, long, m, p.0, p.1, short);
  }

  lemma SkipShape(a: bytes, u: bytes, b: bytes, rest: bytes)
    ensures a + (u + b) + rest == a + (u + (b + rest)) && a + b + rest == a + (b + rest)
    ensures |a + (u + b)| == |a| + (|u| + |b|) && |a + b| == |a| + |b|
  {
  }

  /** A metadata field with the given body of its entry. */
  function MetaField(body: bytes): bytes {
    [66] + EncodeBytes(body)
  }

  lemma MetaItem(body: bytes, rest: bytes)
    ensures match ReadEntry(EncodeBytes(body) + rest)
            case Ok(p, after) => ReadItem(MetaField(body) + rest) == Ok(Meta(p.0, p.1), after)
            case Err(e) => ReadItem(MetaField(body) + rest) == Err(e)
  {
    OneByteTag(66, EncodeBytes(body) + rest);
    Associative([66], EncodeBytes(body), rest);
  }

  lemma DecodesAlike(a: bytes, s: bytes, t: bytes)
    requires Decode(a).Decoded? && s != [] && t != [] && ReadItem(s) == ReadItem(t)
    ensures Decode(a + s) == Decode(a + t)
  {
    DecodeAppend(FRESH, a, s);
    DecodeAppend(FRESH, a, t);
  }

  /** The same inside a map entry: whatever surrounds the entry in the message and the unknown field
      in the entry, and whether or not the rest decodes, the result of decoding does not change. */
  lemma UnknownIgnoredInEntry(before: bytes, a: bytes, number: nat, v: Value, b: bytes, after: bytes)
    requires Decode(before).Decoded?
    requires ReadPairs(a, |a|, [], []).Ok? && ReadPairs(a, |a|, [], []).rest == []
    requires WellFormed(number, v) && number != 1 && number != 2
    requires |a + (UnknownField(number, v) + b)| < TWO_32
    ensures Decode(before + (MetaField(a + (UnknownField(number, v) + b)) + after))
         == Decode(before + (MetaField(a + b) + after))
  {
    var long, short := a + (UnknownField(number, v) + b), a + b;
    UnknownIgnoredByEntry(a, number, v, b, after);
    MetaItem(long, after);
    MetaItem(short, after);
    DecodesAlike(before, MetaField(long) + after, MetaField(short) + after);
  }
}
