/** What the request loops of both SDKs have in common. */
module Exchanges {
  import opened Bytes
  import opened Envelopes

  /** What the layers above need of a codec: `enc` serializes what a server or client builds, an `R`;
      `dec` parses an envelope or fails. */
  datatype Codec<!R> = Wire(enc: R -> bytes, dec: bytes -> Option<Envelope>)

  /** A request and the response the dispatcher made for it. */
  datatype Exchanged<+R> = Exchange(request: Envelope, response: R)

  function Responses<R>(wire: Codec<R>, served: seq<Exchanged<R>>): (r: seq<bytes>)
    ensures |r| == |served|
    ensures forall i :: 0 <= i < |r| ==> r[i] == wire.enc(served[i].response)
  {
    seq(|served|, i requires 0 <= i < |served| => wire.enc(served[i].response))
  }
}
