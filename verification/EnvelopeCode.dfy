/** The generated Envelope codec as code: `Encode` emits into a mutable writer, `Decode` loops on the
    position of a reader. `Reader` and `Writer` stand for the protobuf runtime the generated file
    imports. Each method is proved against the functions of `Protobuf` and `Envelopes`. */
module EnvelopeCode {
  import opened Bytes
  import opened Protobuf
  import opened Envelopes

  /** A JavaScript call that returns or throws. */
  datatype Try<+T> = Return(value: T) | Throw(error: DecodeError) {
    predicate IsFailure() {
      Throw?
    }

    function PropagateFailure<U>(): Try<U>
      requires Throw?
    {
      Throw(error)
    }

    function Extract(): T
      requires Return?
    {
      value
    }
  }

  // ---------------------------------------------------------------- encode

  class Writer {
    var out: bytes
    var stack: seq<bytes>

    constructor ()
      ensures out == [] && stack == []
    {
      out, stack := [], [];
    }

    method Uint32(n: nat)
      modifies this`out
      ensures out == old(out) + EncodeVarint(n)
    {
      out := out + EncodeVarint(n);
    }

    method Int32(v: int)
      requires IsInt32(v)
      modifies this`out
      ensures out == old(out) + EncodeInt32(v)
    {
      out := out + EncodeInt32(v);
    }

    method Uint64(n: nat)
      modifies this`out
      ensures out == old(out) + EncodeVarint(n)
    {
      out := out + EncodeVarint(n);
    }

    /** `string` and `bytes`. */
    method Delimited(b: bytes)
      modifies this`out
      ensures out == old(out) + EncodeBytes(b)
    {
      out := out + EncodeVarint(|b|) + b;
    }

    method Fork()
      modifies this
      ensures out == [] && stack == old(stack) + [old(out)]
    {
      stack, out := stack + [out], [];
    }

    /** Ends the innermost fork: its bytes become a length-delimited record. */
    method Ldelim()
      requires stack != []
      modifies this
      ensures stack == old(stack)[..|old(stack)| - 1]
      ensures out == old(stack)[|old(stack)| - 1] + EncodeBytes(old(out))
    {
      out := stack[|stack| - 1] + (EncodeVarint(|out|) + out);
      stack := stack[..|stack| - 1];
    }
  }

  /** What is on the wire after one more field, if it is present. */
  lemma Emit(items: seq<Item>, present: bool, item: Item)
    requires AllEncodable(items) && (present ==> Encodable(item))
    ensures AllEncodable(items + If(present, item))
    ensures EncodeItems(items + If(present, item)) == EncodeItems(items) + (if present then EncodeItem(item) else [])
  {
    assert present ==> (items + [item])[..|items|] == items;
    assert !present ==> items + [] == items;
  }

  lemma OneByte(tag: nat)
    requires tag < 128
    ensures EncodeVarint(tag) == [tag as byte]
  {
  }

  method PutInt32(w: Writer, tag: nat, field: Option<int>, ghost items: seq<Item>, ghost item: Item)
    requires tag < 128 && AllEncodable(items) && w.out == EncodeItems(items)
    requires field.Some? ==> IsInt32(field.value) && Encodable(item)
                             && EncodeItem(item) == [tag as byte] + EncodeInt32(field.value)
    modifies w`out
    ensures AllEncodable(items + If(field.Some?, item)) && w.out == EncodeItems(items + If(field.Some?, item))
  {
    Emit(items, field.Some?, item);
    OneByte(tag);
    if field.Some? {
      Associative(w.out, [tag as byte], EncodeInt32(field.value));
      w.Uint32(tag);
      w.Int32(field.value);
    }
  }

  method PutUint64(w: Writer, tag: nat, field: Option<nat>, ghost items: seq<Item>, ghost item: Item)
    requires tag < 128 && AllEncodable(items) && w.out == EncodeItems(items)
    requires field.Some? ==> Encodable(item) && EncodeItem(item) == [tag as byte] + EncodeVarint(field.value)
    modifies w`out
    ensures AllEncodable(items + If(field.Some?, item)) && w.out == EncodeItems(items + If(field.Some?, item))
  {
    Emit(items, field.Some?, item);
    OneByte(tag);
    if field.Some? {
      Associative(w.out, [tag as byte], EncodeVarint(field.value));
      w.Uint32(tag);
      w.Uint64(field.value);
    }
  }

  method PutDelimited(w: Writer, tag: nat, field: Option<bytes>, ghost items: seq<Item>, ghost item: Item)
    requires tag < 128 && AllEncodable(items) && w.out == EncodeItems(items)
    requires field.Some? ==> Encodable(item) && EncodeItem(item) == [tag as byte] + EncodeBytes(field.value)
    modifies w`out
    ensures AllEncodable(items + If(field.Some?, item)) && w.out == EncodeItems(items + If(field.Some?, item))
  {
    Emit(items, field.Some?, item);
    OneByte(tag);
    if field.Some? {
      Associative(w.out, [tag as byte], EncodeBytes(field.value));
      w.Uint32(tag);
      w.Delimited(field.value);
    }
  }

  /** The two fields of a metadata entry. */
  method PutPair(w: Writer, key: bytes, value: bytes)
    requires w.out == []
    modifies w`out
    ensures w.out == EncodeEntry(key, value)
  {
    OneByte(10);
    OneByte(18);
    w.Uint32(10);
    assert w.out == [10];
    w.Delimited(key);
    w.Uint32(18);
    w.Delimited(value);
  }

  /** One metadata entry, as a forked record. */
  method PutEntry(w: Writer, key: bytes, value: bytes, ghost items: seq<Item>)
    requires AllEncodable(items) && w.out == EncodeItems(items)
    modifies w
    ensures AllEncodable(items + [Meta(key, value)]) && w.out == EncodeItems(items + [Meta(key, value)])
    ensures w.stack == old(w.stack)
  {
    Emit(items, true, Meta(key, value));
    Associative(w.out, [66], EncodeBytes(EncodeEntry(key, value)));
    OneByte(66);
    w.Uint32(66);
    w.Fork();
    PutPair(w, key, value);
    w.Ldelim();
  }

  /** The fields up to `method_name`. */
  method PutFour(w: Writer, m: Message)
    requires EncodableMessage(m) && w.out == []
    modifies w`out
    ensures AllEncodable(FourScalars(m)) && w.out == EncodeItems(FourScalars(m))
  {
    PutInt32(w, 8, m.kind, [], Kind(Or(m.kind, 0)));
    ghost var s1 := If(m.kind.Some?, Kind(Or(m.kind, 0)));
    assert [] + s1 == s1;
    PutUint64(w, 16, m.requestId, s1, RequestId(Or(m.requestId, 0)));
    ghost var s2 := s1 + If(m.requestId.Some?, RequestId(Or(m.requestId, 0)));
    PutDelimited(w, 26, m.serviceName, s2, ServiceName(Or(m.serviceName, [])));
    ghost var s3 := s2 + If(m.serviceName.Some?, ServiceName(Or(m.serviceName, [])));
    PutDelimited(w, 34, m.methodName, s3, MethodName(Or(m.methodName, [])));
  }

  /** The fields from `payload` to `error_message`. */
  method PutThree(w: Writer, m: Message)
    requires EncodableMessage(m)
    requires AllEncodable(FourScalars(m)) && w.out == EncodeItems(FourScalars(m))
    modifies w`out
    ensures AllEncodable(Scalars(m)) && w.out == EncodeItems(Scalars(m))
  {
    PutDelimited(w, 42, m.payload, FourScalars(m), Payload(Or(m.payload, [])));
    ghost var s5 := FourScalars(m) + If(m.payload.Some?, Payload(Or(m.payload, [])));
    PutInt32(w, 48, m.status, s5, Status(Or(m.status, 0)));
    ghost var s6 := s5 + If(m.status.Some?, Status(Or(m.status, 0)));
    PutDelimited(w, 58, m.errorMessage, s6, ErrorMessage(Or(m.errorMessage, [])));
  }

  lemma OneMore(items: seq<Item>, entries: seq<Item>, i: nat)
    requires i < |entries|
    ensures items + entries[..i + 1] == items + entries[..i] + [entries[i]]
  {
  }

  /** The loop over the metadata keys. */
  method PutMetadata(w: Writer, keys: seq<bytes>, meta: Metadata, ghost items: seq<Item>)
    requires AllEncodable(items) && w.out == EncodeItems(items)
    requires forall k :: k in keys ==> k in meta
    modifies w
    ensures AllEncodable(items + MetaItems(keys, meta)) && w.out == EncodeItems(items + MetaItems(keys, meta))
  {
    ghost var entries := MetaItems(keys, meta);
    assert items + entries[..0] == items;
    for i := 0 to |keys|
      invariant AllEncodable(items + entries[..i])
      invariant w.out == EncodeItems(items + entries[..i])
    {
      ghost var done := items + entries[..i];
      OneMore(items, entries, i);
      PutEntry(w, keys[i], meta[keys[i]], done);
    }
    assert items + entries[..|keys|] == items + entries;
  }

  /** `Envelope.encode`; `keys` is what `Object.keys(message.metadata)` returns. */
  method EncodeEnvelope(m: Message, keys: seq<bytes>) returns (w: Writer)
    requires EncodableMessage(m)
    requires Enumerates(keys, Or(m.metadata, map[]))
    ensures w.out == Encode(m, keys)
  {
    w := new Writer();
    PutFour(w, m);
    PutThree(w, m);
    PutMetadata(w, keys, Or(m.metadata, map[]), Scalars(m));
  }

  // ---------------------------------------------------------------- decode

  class Reader {
    const buf: bytes
    var pos: nat

    constructor (buf: bytes)
      ensures this.buf == buf && pos == 0
    {
      this.buf, pos := buf, 0;
    }

    function Rest(): bytes
      requires pos <= |buf|
      reads this
    {
      buf[pos..]
    }

    /** `r` and the new position are what `spec` says of the bytes that were left. */
    ghost predicate Did<T>(spec: Read<T>, r: Try<T>)
      reads this
    {
      && pos <= |buf|
      && match spec
         case Ok(v, rest) => r == Return(v) && Rest() == rest
         case Err(e) => r == Throw(e)
    }

    method Digits(k: nat) returns (r: Try<nat>)
      requires pos <= |buf|
      modifies this
      ensures Did(ReadDigits(old(Rest()), k), r) && old(pos) <= pos
      decreases k
    {
      if pos == |buf| || k == 0 {
        return Throw(OutOfRange);
      }
      var b := buf[pos];
      assert Rest()[1..] == buf[pos + 1..];
      pos := pos + 1;
      if b < 128 {
        return Return(b as nat);
      }
      var more :- Digits(k - 1);
      r := Return(b as nat - 128 + 128 * more);
    }

    method Uint32() returns (r: Try<nat>)
      requires pos <= |buf|
      modifies this
      ensures Did(ReadUint32(old(Rest())), r) && old(pos) <= pos
    {
      var v :- Digits(10);
      r := Return(Truncate(v, TWO_32));
    }

    method Uint64() returns (r: Try<nat>)
      requires pos <= |buf|
      modifies this
      ensures Did(ReadUint64(old(Rest())), r) && old(pos) <= pos
    {
      var v :- Digits(10);
      r := Return(Truncate(v, TWO_64));
    }

    method Int32() returns (r: Try<int>)
      requires pos <= |buf|
      modifies this
      ensures Did(ReadInt32(old(Rest())), r) && old(pos) <= pos
    {
      var v :- Uint32();
      r := Return(if v < 0x8000_0000 then v else v - TWO_32);
    }

    method Slice(n: nat) returns (r: Try<bytes>)
      requires pos <= |buf|
      modifies this
      ensures Did(Take(old(Rest()), n), r) && old(pos) <= pos
    {
      if |buf| - pos < n {
        return Throw(OutOfRange);
      }
      assert Rest()[n..] == buf[pos + n..];
      r := Return(buf[pos..pos + n]);
      assert Rest()[..n] == buf[pos..pos + n];
      pos := pos + n;
    }

    /** `string` and `bytes`. */
    method Delimited() returns (r: Try<bytes>)
      requires pos <= |buf|
      modifies this
      ensures Did(ReadBytes(old(Rest())), r) && old(pos) <= pos
    {
      var n :- Uint32();
      r := Slice(n);
    }

    method Skip(wireType: nat) returns (r: Try<()>)
      requires pos <= |buf|
      modifies this
      ensures Did(SkipType(old(Rest()), wireType), r) && old(pos) <= pos
      decreases |buf| - pos, 1
    {
      match wireType
      case 0 =>
        var _ :- Uint64();
        r := Return(());
      case 1 =>
        var _ :- Slice(8);
        r := Return(());
      case 2 =>
        var _ :- Delimited();
        r := Return(());
      case 3 =>
        r := SkipToEnd();
      case 5 =>
        var _ :- Slice(4);
        r := Return(());
      case _ =>
        r := Throw(BadWireType(wireType));
    }

    method SkipToEnd() returns (r: Try<()>)
      requires pos <= |buf|
      modifies this
      ensures Did(SkipGroup(old(Rest())), r) && old(pos) <= pos
      decreases |buf| - pos, 0
    {
      while true
        invariant old(pos) <= pos <= |buf|
        invariant SkipGroup(Rest()) == SkipGroup(old(Rest()))
        decreases |buf| - pos
      {
        ghost var before := Rest();
        var tag :- Uint32();
        assert |Rest()| < |before|;
        var wireType := Truncate(tag, 8);
        if wireType == 4 {
          return Return(());
        }
        var _ :- Skip(wireType);
      }
    }
  }

  /** The case of the switch that reads a map entry. */
  method DecodeEntry(reader: Reader) returns (r: Try<(bytes, bytes)>)
    requires reader.pos <= |reader.buf|
    modifies reader
    ensures reader.Did(ReadEntry(old(reader.Rest())), r) && old(reader.pos) <= reader.pos
  {
    hide ReadUint32, ReadPairs;
    var length :- reader.Uint32();
    r := DecodePairs(reader, length + reader.pos);
  }

  /** The loop over the fields of one map entry. */
  method DecodePairs(reader: Reader, end2: nat) returns (r: Try<(bytes, bytes)>)
    requires reader.pos <= |reader.buf|
    modifies reader
    ensures reader.Did(ReadPairs(old(reader.Rest()), end2 - old(reader.pos), [], []), r)
    ensures old(reader.pos) <= reader.pos
  {
    hide ReadPart;
    var key, value := [], [];
    ghost var whole := Pairs(ReadPart, reader.Rest(), end2 - reader.pos, [], []);
    while reader.pos < end2
      invariant old(reader.pos) <= reader.pos <= |reader.buf|
      invariant Pairs(ReadPart, reader.Rest(), end2 - reader.pos, key, value) == whole
      decreases |reader.buf| - reader.pos
    {
      ghost var before := reader.Rest();
      var part :- DecodePart(reader);
      assert |reader.Rest()| < |before|;
      key, value := KeyOr(part, key), ValueOr(part, value);
    }
    r := Return((key, value));
  }

  method DecodePart(reader: Reader) returns (r: Try<Part>)
    requires reader.pos <= |reader.buf|
    modifies reader
    ensures reader.Did(ReadPart(old(reader.Rest())), r) && old(reader.pos) <= reader.pos
  {
    hide ReadUint32, ReadBytes, SkipType;
    var tag2 :- reader.Uint32();
    if InField(tag2, 8) {
      var key :- reader.Delimited();
      r := Return(Key(key));
    } else if InField(tag2, 16) {
      var value :- reader.Delimited();
      r := Return(Value(value));
    } else {
      var _ :- reader.Skip(Truncate(tag2, 8));
      r := Return(Other);
    }
  }

  /** The cases of the switch that read a number. */
  method DecodeNumber(reader: Reader, tag: nat, m: Message) returns (r: Try<Message>)
    requires reader.pos <= |reader.buf|
    requires InField(tag, 8) || InField(tag, 16) || InField(tag, 48)
    modifies reader
    ensures reader.pos <= |reader.buf| && old(reader.pos) <= reader.pos
    ensures match ReadBody(old(reader.Rest()), tag)
            case Ok(item, rest) => r == Return(Store(m, item)) && reader.Rest() == rest
            case Err(e) => r == Throw(e)
  {
    hide ReadInt32, ReadUint64;
    if InField(tag, 8) {
      var v :- reader.Int32();
      r := Return(m.(kind := Some(v)));
    } else if InField(tag, 16) {
      var v :- reader.Uint64();
      r := Return(m.(requestId := Some(v)));
    } else {
      var v :- reader.Int32();
      r := Return(m.(status := Some(v)));
    }
  }

  predicate IsString(tag: nat) {
    InField(tag, 24) || InField(tag, 32) || InField(tag, 40) || InField(tag, 56)
  }

  function StringItem(tag: nat, b: bytes): Item {
    if InField(tag, 24) then ServiceName(b)
    else if InField(tag, 32) then MethodName(b)
    else if InField(tag, 40) then Payload(b)
    else ErrorMessage(b)
  }

  lemma StringBody(s: bytes, tag: nat)
    requires IsString(tag)
    ensures match ReadBytes(s)
            case Ok(b, rest) => ReadBody(s, tag) == Ok(StringItem(tag, b), rest)
            case Err(e) => ReadBody(s, tag) == Err(e)
  {
  }

  /** The cases of the switch that read a string or bytes. */
  method DecodeString(reader: Reader, tag: nat, m: Message) returns (r: Try<Message>)
    requires reader.pos <= |reader.buf|
    requires IsString(tag)
    modifies reader
    ensures reader.pos <= |reader.buf| && old(reader.pos) <= reader.pos
    ensures match ReadBytes(old(reader.Rest()))
            case Ok(b, rest) => r == Return(Store(m, StringItem(tag, b))) && reader.Rest() == rest
            case Err(e) => r == Throw(e)
  {
    hide ReadBytes;
    if InField(tag, 24) {
      var b :- reader.Delimited();
      r := Return(m.(serviceName := Some(b)));
    } else if InField(tag, 32) {
      var b :- reader.Delimited();
      r := Return(m.(methodName := Some(b)));
    } else if InField(tag, 40) {
      var b :- reader.Delimited();
      r := Return(m.(payload := Some(b)));
    } else {
      var b :- reader.Delimited();
      r := Return(m.(errorMessage := Some(b)));
    }
  }

  /** The case of the switch that reads a metadata entry. */
  method DecodeMeta(reader: Reader, m: Message) returns (r: Try<Message>)
    requires reader.pos <= |reader.buf|
    modifies reader
    ensures reader.pos <= |reader.buf| && old(reader.pos) <= reader.pos
    ensures match ReadEntry(old(reader.Rest()))
            case Ok(entry, rest) => r == Return(Store(m, Meta(entry.0, entry.1))) && reader.Rest() == rest
            case Err(e) => r == Throw(e)
  {
    var metadata := Or(m.metadata, map[]);
    var entry :- DecodeEntry(reader);
    r := Return(m.(metadata := Some(metadata[entry.0 := entry.1])));
  }

  lemma MetaBody(s: bytes, tag: nat)
    requires InField(tag, 64)
    ensures match ReadEntry(s)
            case Ok(entry, rest) => ReadBody(s, tag) == Ok(Meta(entry.0, entry.1), rest)
            case Err(e) => ReadBody(s, tag) == Err(e)
  {
  }

  /** The switch on the field number: reads the value and stores it in the message. */
  method DecodeField(reader: Reader, tag: nat, m: Message) returns (r: Try<Message>)
    requires reader.pos <= |reader.buf|
    modifies reader
    ensures reader.pos <= |reader.buf| && old(reader.pos) <= reader.pos
    ensures match ReadBody(old(reader.Rest()), tag)
            case Ok(item, rest) => r == Return(Store(m, item)) && reader.Rest() == rest
            case Err(e) => r == Throw(e)
  {
    if InField(tag, 8) || InField(tag, 16) || InField(tag, 48) {
      r := DecodeNumber(reader, tag, m);
    } else if IsString(tag) {
      StringBody(reader.Rest(), tag);
      r := DecodeString(reader, tag, m);
    } else if InField(tag, 64) {
      MetaBody(reader.Rest(), tag);
      r := DecodeMeta(reader, m);
    } else {
      var _ :- reader.Skip(Truncate(tag, 8));
      r := Return(m);
    }
  }

  /** `Envelope.decode` of a whole buffer. It ends on every buffer and never reads past it. */
  method DecodeEnvelope(buf: bytes) returns (r: Try<Message>)
    ensures match Decode(buf)
            case Decoded(m) => r == Return(m)
            case Failed(e) => r == Throw(e)
  {
    var reader := new Reader(buf);
    var message := FRESH;
    assert reader.Rest() == buf;
    while reader.pos < |buf|
      invariant reader.pos <= |buf|
      invariant DecodeInto(message, reader.Rest()) == Decode(buf)
      decreases |buf| - reader.pos
    {
      ghost var before := reader.Rest();
      var tag :- reader.Uint32();
      assert |reader.Rest()| < |before|;
      message :- DecodeField(reader, tag, message);
    }
    r := Return(message);
  }
}
