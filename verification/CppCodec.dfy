/** The C++ `EnvelopeCodec`: the envelopes the C++ SDK sends, and what it reads back. */
module CppCodec {
  import opened Bytes
  import opened Frames
  import opened Protobuf
  import opened Envelopes
  import opened EnvelopeLaws
  import opened Utf8
  import opened Exchanges

  type Wire = Codec<Envelope>

  type Exchange = Exchanged<Envelope>

  /** The envelopes the C++ client and dispatcher build: machine integers and no metadata. */
  predicate Sendable(e: Envelope) {
    IsInt32(e.kind) && IsInt32(e.status) && e.requestId < TWO_64 && e.metadata == map[]
  }

  /** What fits in a frame is rejected or read back as it was sent. */
  ghost predicate Faithful(wire: Wire) {
    forall e :: Sendable(e) && Legal(wire.enc(e)) ==>
      wire.dec(wire.enc(e)).None? || wire.dec(wire.enc(e)).value == e
  }

  function Unless<T(==)>(default: T, v: T): Option<T> {
    if v == default then None else Some(v)
  }

  /** Serializing drops the fields that hold their default. */
  function Present(e: Envelope): Message {
    Message(Unless(0, e.kind), Unless(0, e.requestId), Unless([], e.serviceName), Unless([], e.methodName),
            Unless([], e.payload), Unless(0, e.status), Unless([], e.errorMessage), None)
  }

  function Serialize(e: Envelope): bytes {
    if Sendable(e) then Encode(Present(e), []) else []
  }

  /** The parser rejects a message with a string field that is not UTF-8. */
  predicate StringsAreUtf8(e: Envelope) {
    && IsUtf8(e.serviceName) && IsUtf8(e.methodName) && IsUtf8(e.errorMessage)
    && forall k :: k in e.metadata ==> IsUtf8(k) && IsUtf8(e.metadata[k])
  }

  function Parse(s: bytes): Option<Envelope> {
    match Decode(s)
    case Decoded(m) => if StringsAreUtf8(WithDefaults(m)) then Some(WithDefaults(m)) else None
    case Failed(_) => None
  }

  const CODEC := Wire(Serialize, Parse)

  /** Every string of the envelope encodes a text. */
  ghost predicate AllText(e: Envelope) {
    && IsText(e.serviceName) && IsText(e.methodName) && IsText(e.errorMessage)
    && forall k :: k in e.metadata ==> IsText(k) && IsText(e.metadata[k])
  }

  lemma TextExactly(e: Envelope)
    ensures StringsAreUtf8(e) <==> AllText(e)
  {
    forall s ensures IsUtf8(s) <==> IsText(s) {
      Utf8Exactly(s);
    }
  }

  /** What any encoder of the schema writes, metadata included, is parsed as it was meant if its strings
      encode texts, and rejected if one does not. */
  lemma ParsesEncoded(m: Message, keys: seq<bytes>)
    requires EncodableMessage(m) && Enumerates(keys, Or(m.metadata, map[])) && |Encode(m, keys)| < TWO_32
    ensures Parse(Encode(m, keys)) == if AllText(WithDefaults(m)) then Some(WithDefaults(m)) else None
  {
    RoundTrip(m, keys);
    TextExactly(WithDefaults(m));
  }

  /** Nothing that holds its default is written, and everything else is, as it is. */
  lemma WritesNoDefault(e: Envelope, item: Item)
    ensures item in Items(Present(e), []) <==>
              match item
              case Kind(v) => v == e.kind && v != 0
              case RequestId(id) => id == e.requestId && id != 0
              case ServiceName(b) => b == e.serviceName && b != []
              case MethodName(b) => b == e.methodName && b != []
              case Payload(b) => b == e.payload && b != []
              case Status(v) => v == e.status && v != 0
              case ErrorMessage(b) => b == e.errorMessage && b != []
              case _ => false
  {
    FourWritten(e, item);
    hide FourScalars;
  }

  lemma FourWritten(e: Envelope, item: Item)
    ensures item in FourScalars(Present(e)) <==>
              match item
              case Kind(v) => v == e.kind && v != 0
              case RequestId(id) => id == e.requestId && id != 0
              case ServiceName(b) => b == e.serviceName && b != []
              case MethodName(b) => b == e.methodName && b != []
              case _ => false
  {
  }

  /** The codec is exact: what it serializes within a frame is parsed back as it was if its strings
      encode texts, and rejected if one does not. */
  lemma CodecExact(e: Envelope)
    requires Sendable(e) && Legal(Serialize(e))
    ensures Parse(Serialize(e)) ==
              if IsText(e.serviceName) && IsText(e.methodName) && IsText(e.errorMessage) then Some(e) else None
  {
    ParsesEncoded(Present(e), []);
  }

  /** So what is proved for every faithful codec holds for it. */
  lemma CodecFaithful()
    ensures Faithful(CODEC)
  {
    forall e | Sendable(e) && Legal(Serialize(e)) ensures Parse(Serialize(e)).None? || Parse(Serialize(e)).value == e {
      CodecExact(e);
    }
  }
}
