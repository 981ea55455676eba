/** The generated Envelope codec of the TypeScript SDK, as functions: what `encode` emits and what
    `decode` makes of a buffer. The methods of `EnvelopeCode` are proved against these functions.

    Strings are sequences of UTF-8 bytes. A decoded object has as own properties exactly the fields
    that occurred; the prototype supplies the defaults of the others. */
module Envelopes {
  import opened Bytes
  import opened Protobuf

  type Metadata = map<bytes, bytes>

  /** A message object: `None` is a property the object does not own (or that is null). */
  datatype Message = Message(
    kind: Option<int>,
    requestId: Option<nat>,
    serviceName: Option<bytes>,
    methodName: Option<bytes>,
    payload: Option<bytes>,
    status: Option<int>,
    errorMessage: Option<bytes>,
    metadata: Option<Metadata>
  )

  /** The message as its reader sees it, absent fields at their defaults. */
  datatype Envelope = Envelope(
    kind: int,
    requestId: nat,
    serviceName: bytes,
    methodName: bytes,
    payload: bytes,
    status: int,
    errorMessage: bytes,
    metadata: Metadata
  )

  function Or<T>(o: Option<T>, default: T): T {
    match o
    case Some(v) => v
    case None => default
  }

  /** The constructor and the prototype defaults. */
  function WithDefaults(m: Message): Envelope {
    Envelope(Or(m.kind, 0), Or(m.requestId, 0), Or(m.serviceName, []), Or(m.methodName, []), Or(m.payload, []),
             Or(m.status, 0), Or(m.errorMessage, []), Or(m.metadata, map[]))
  }

  /** `new Envelope()`: no own field but an empty metadata object. */
  const FRESH := Message(None, None, None, None, None, None, None, Some(map[]))

  // ---------------------------------------------------------------- encode

  /** One field as it occurs on the wire. */
  datatype Item =
    | Kind(kind: int)
    | RequestId(id: nat)
    | ServiceName(service: bytes)
    | MethodName(name: bytes)
    | Payload(payload: bytes)
    | Status(status: int)
    | ErrorMessage(error: bytes)
    | Meta(key: bytes, value: bytes)
    | Unknown

  predicate IsInt32(v: int) {
    -0x8000_0000 <= v < 0x8000_0000
  }

  /** The field values the writer can represent. */
  predicate Encodable(item: Item) {
    match item
    case Kind(v) => IsInt32(v)
    case RequestId(id) => id < TWO_64
    case Status(v) => IsInt32(v)
    case Unknown => false
    case _ => true
  }

  ghost predicate AllEncodable(items: seq<Item>) {
    forall i :: 0 <= i < |items| ==> Encodable(items[i])
  }

  function EncodeEntry(key: bytes, value: bytes): bytes {
    [10] + EncodeBytes(key) + [18] + EncodeBytes(value)
  }

  function EncodeItem(item: Item): bytes
    requires Encodable(item)
  {
    match item
    case Kind(v) => [8] + EncodeInt32(v)
    case RequestId(id) => [16] + EncodeVarint(id)
    case ServiceName(b) => [26] + EncodeBytes(b)
    case MethodName(b) => [34] + EncodeBytes(b)
    case Payload(b) => [42] + EncodeBytes(b)
    case Status(v) => [48] + EncodeInt32(v)
    case ErrorMessage(b) => [58] + EncodeBytes(b)
    case Meta(k, v) => [66] + EncodeBytes(EncodeEntry(k, v))
  }

  function EncodeItems(items: seq<Item>): bytes
    requires AllEncodable(items)
  {
    if items == [] then []
    else
      var n := |items| - 1;
      EncodeItems(items[..n]) + EncodeItem(items[n])
  }

  predicate EncodableMessage(m: Message) {
    && (m.kind.Some? ==> IsInt32(m.kind.value))
    && (m.requestId.Some? ==> m.requestId.value < TWO_64)
    && (m.status.Some? ==> IsInt32(m.status.value))
  }

  /** `keys` is one enumeration of the metadata object's own keys. */
  ghost predicate Enumerates(keys: seq<bytes>, m: Metadata) {
    && (forall k :: k in keys <==> k in m)
    && (forall i, j :: 0 <= i < j < |keys| ==> keys[i] != keys[j])
  }

  function MetaItems(keys: seq<bytes>, m: Metadata): (items: seq<Item>)
    requires forall k :: k in keys ==> k in m
    ensures |items| == |keys|
    ensures forall i :: 0 <= i < |items| ==> items[i] == Meta(keys[i], m[keys[i]])
  {
    seq(|keys|, i requires 0 <= i < |keys| => Meta(keys[i], m[keys[i]]))
  }

  function If(present: bool, item: Item): (items: seq<Item>)
    ensures |items| <= 1
  {
    if present then [item] else []
  }

  function FourScalars(m: Message): seq<Item> {
    If(m.kind.Some?, Kind(Or(m.kind, 0)))
    + If(m.requestId.Some?, RequestId(Or(m.requestId, 0)))
    + If(m.serviceName.Some?, ServiceName(Or(m.serviceName, [])))
    + If(m.methodName.Some?, MethodName(Or(m.methodName, [])))
  }

  function Scalars(m: Message): seq<Item> {
    FourScalars(m)
    + If(m.payload.Some?, Payload(Or(m.payload, [])))
    + If(m.status.Some?, Status(Or(m.status, 0)))
    + If(m.errorMessage.Some?, ErrorMessage(Or(m.errorMessage, [])))
  }

  /** The fields `encode` emits, in order. */
  function Items(m: Message, keys: seq<bytes>): seq<Item>
    requires forall k :: k in keys ==> k in Or(m.metadata, map[])
  {
    Scalars(m) + MetaItems(keys, Or(m.metadata, map[]))
  }

  lemma AppendEncodable(a: seq<Item>, b: seq<Item>)
    requires AllEncodable(a) && AllEncodable(b)
    ensures AllEncodable(a + b)
  {
  }

  lemma ItemsEncodable(m: Message, keys: seq<bytes>)
    requires EncodableMessage(m)
    requires forall k :: k in keys ==> k in Or(m.metadata, map[])
    ensures AllEncodable(Scalars(m)) && AllEncodable(Items(m, keys))
  {
    var a, b := If(m.kind.Some?, Kind(Or(m.kind, 0))), If(m.requestId.Some?, RequestId(Or(m.requestId, 0)));
    var c, d := If(m.serviceName.Some?, ServiceName(Or(m.serviceName, []))),
                If(m.methodName.Some?, MethodName(Or(m.methodName, [])));
    var e, f := If(m.payload.Some?, Payload(Or(m.payload, []))), If(m.status.Some?, Status(Or(m.status, 0)));
    var g := If(m.errorMessage.Some?, ErrorMessage(Or(m.errorMessage, [])));
    AppendEncodable(a, b);
    AppendEncodable(a + b, c);
    AppendEncodable(a + b + c, d);
    AppendEncodable(a + b + c + d, e);
    AppendEncodable(a + b + c + d + e, f);
    AppendEncodable(a + b + c + d + e + f, g);
    AppendEncodable(Scalars(m), MetaItems(keys, Or(m.metadata, map[])));
  }

  /** What `encode(m)` writes when `Object.keys` lists the metadata as `keys`. */
  function Encode(m: Message, keys: seq<bytes>): bytes
    requires EncodableMessage(m)
    requires forall k :: k in keys ==> k in Or(m.metadata, map[])
  {
    ItemsEncodable(m, keys);
    EncodeItems(Items(m, keys))
  }

  // ---------------------------------------------------------------- decode

  /** `tag >>> 3` is the field whose smallest tag is `first`. */
  predicate InField(tag: nat, first: nat) {
    first <= tag < first + 8
  }

  lemma InFieldIsShift(tag: nat, number: nat)
    ensures InField(tag, 8 * number) <==> tag / 8 == number
  {
  }

  datatype Part = Key(key: bytes) | Value(value: bytes) | Other

  function KeyOr(p: Part, key: bytes): bytes {
    if p.Key? then p.key else key
  }

  function ValueOr(p: Part, value: bytes): bytes {
    if p.Value? then p.value else value
  }

  /** One field of a map entry. */
  function ReadPart(s: bytes): (r: Read<Part>)
    ensures r.Ok? ==> |r.rest| < |s|
  {
    match ReadUint32(s)
    case Err(e) => Err(e)
    case Ok(tag, rest) =>
      if InField(tag, 8) then
        (match ReadBytes(rest)
         case Err(e) => Err(e)
         case Ok(b, after) => Ok(Key(b), after))
      else if InField(tag, 16) then
        (match ReadBytes(rest)
         case Err(e) => Err(e)
         case Ok(b, after) => Ok(Value(b), after))
      else
        (match SkipType(rest, Truncate(tag, 8))
         case Err(e) => Err(e)
         case Ok(_, after) => Ok(Other, after))
  }

  ghost predicate Shrinks(read: bytes -> Read<Part>) {
    forall s :: read(s).Ok? ==> |read(s).rest| < |s|
  }

  /** The body of a map entry, its fields read by `read`: `left` bytes of it remain, unless a string
      ran over its end, in which case the loop stops where the string did. */
  function Pairs(read: bytes -> Read<Part>, s: bytes, left: int, key: bytes, value: bytes): (r: Read<(bytes, bytes)>)
    requires Shrinks(read)
    ensures r.Ok? ==> |r.rest| <= |s|
    decreases |s|
  {
    if left <= 0 then Ok((key, value), s)
    else
      match read(s)
      case Err(e) => Err(e)
      case Ok(p, rest) =>
        Pairs(read, rest, left - (|s| - |rest|), KeyOr(p, key), ValueOr(p, value))
  }

  function ReadPairs(s: bytes, left: int, key: bytes, value: bytes): (r: Read<(bytes, bytes)>)
    ensures r.Ok? ==> |r.rest| <= |s|
  {
    Pairs(ReadPart, s, left, key, value)
  }

  function ReadEntry(s: bytes): (r: Read<(bytes, bytes)>)
    ensures r.Ok? ==> |r.rest| < |s|
  {
    match ReadUint32(s)
    case Err(e) => Err(e)
    case Ok(length, rest) => ReadPairs(rest, length, [], [])
  }

  /** What follows a tag; the wire type only matters for the fields it skips. */
  function ReadBody(s: bytes, tag: nat): (r: Read<Item>)
    ensures r.Ok? ==> |r.rest| <= |s|
  {
    if InField(tag, 8) then
      (match ReadInt32(s)
       case Err(e) => Err(e)
       case Ok(v, after) => Ok(Kind(v), after))
    else if InField(tag, 16) then
      (match ReadUint64(s)
       case Err(e) => Err(e)
       case Ok(v, after) => Ok(RequestId(v), after))
    else if InField(tag, 24) then
      (match ReadBytes(s)
       case Err(e) => Err(e)
       case Ok(b, after) => Ok(ServiceName(b), after))
    else if InField(tag, 32) then
      (match ReadBytes(s)
       case Err(e) => Err(e)
       case Ok(b, after) => Ok(MethodName(b), after))
    else if InField(tag, 40) then
      (match ReadBytes(s)
       case Err(e) => Err(e)
       case Ok(b, after) => Ok(Payload(b), after))
    else if InField(tag, 48) then
      (match ReadInt32(s)
       case Err(e) => Err(e)
       case Ok(v, after) => Ok(Status(v), after))
    else if InField(tag, 56) then
      (match ReadBytes(s)
       case Err(e) => Err(e)
       case Ok(b, after) => Ok(ErrorMessage(b), after))
    else if InField(tag, 64) then
      (match ReadEntry(s)
       case Err(e) => Err(e)
       case Ok(p, after) => Ok(Meta(p.0, p.1), after))
    else
      (match SkipType(s, Truncate(tag, 8))
       case Err(e) => Err(e)
       case Ok(_, after) => Ok(Unknown, after))
  }

  function ReadItem(s: bytes): (r: Read<Item>)
    ensures r.Ok? ==> |r.rest| < |s|
  {
    match ReadUint32(s)
    case Err(e) => Err(e)
    case Ok(tag, rest) => ReadBody(rest, tag)
  }

  function Store(m: Message, item: Item): Message {
    match item
    case Kind(v) => m.(kind := Some(v))
    case RequestId(id) => m.(requestId := Some(id))
    case ServiceName(b) => m.(serviceName := Some(b))
    case MethodName(b) => m.(methodName := Some(b))
    case Payload(b) => m.(payload := Some(b))
    case Status(v) => m.(status := Some(v))
    case ErrorMessage(b) => m.(errorMessage := Some(b))
    case Meta(k, v) => m.(metadata := Some(Or(m.metadata, map[])[k := v]))
    case Unknown => m
  }

  function StoreAll(m: Message, items: seq<Item>): Message
    decreases |items|
  {
    if items == [] then m
    else
      var n := |items| - 1;
      Store(StoreAll(m, items[..n]), items[n])
  }

  datatype Decoded = Decoded(message: Message) | Failed(error: DecodeError)

  /** The decode loop from message `m`, with `s` left to read. It ends on every byte string. */
  function DecodeInto(m: Message, s: bytes): Decoded
    decreases |s|
  {
    if s == [] then Decoded(m)
    else
      match ReadItem(s)
      case Err(e) => Failed(e)
      case Ok(item, rest) => DecodeInto(Store(m, item), rest)
  }

  function Decode(s: bytes): Decoded {
    DecodeInto(FRESH, s)
  }
}
