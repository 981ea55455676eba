/** The SDKs read each other: what one writes, the other parses to the same envelope, so that a call can
    cross from a client of either SDK to a server of the other. */
module Interop {
  import opened Bytes
  import opened Frames
  import opened Protobuf
  import opened Envelopes
  import opened EnvelopeLaws
  import opened Dispatcher
  import opened Utf8
  import Cpp = CppCodec
  import Js = JsServer

  /** What the C++ SDK writes, the TypeScript SDK reads as it was meant. */
  lemma CppToJs(e: Envelope)
    requires Cpp.Sendable(e) && Legal(Cpp.Serialize(e))
    ensures Js.Deserialize(Cpp.Serialize(e)) == Some(e)
  {
    RoundTrip(Cpp.Present(e), []);
  }

  /** What the TypeScript server writes, the C++ SDK reads as it was meant, if its strings are texts. */
  lemma JsToCpp(m: Message)
    requires EncodableMessage(m) && Or(m.metadata, map[]) == map[] && Legal(Js.Serialize(m))
    ensures Cpp.Parse(Js.Serialize(m)) == if Cpp.AllText(WithDefaults(m)) then Some(WithDefaults(m)) else None
  {
    Cpp.ParsesEncoded(m, []);
  }

  /** A request that the TypeScript client writes, with its metadata in any order, reaches a C++ handler
      as it was made, if its strings are texts. */
  lemma JsRequestToCpp(m: Message, keys: seq<bytes>, services: Services, h: HandlerResult)
    requires EncodableMessage(m) && Enumerates(keys, Or(m.metadata, map[])) && Legal(Encode(m, keys))
    requires Cpp.AllText(WithDefaults(m))
    ensures var parsed := Cpp.Parse(Encode(m, keys));
            && parsed == Some(WithDefaults(m))
            && Dispatch(services, parsed.value, h).requestId == Or(m.requestId, 0)
  {
    Cpp.ParsesEncoded(m, keys);
    DispatchAnswers(services, WithDefaults(m), h);
  }

  /** A C++ request answered by the TypeScript server: the client gets the response under its own id,
      and but for the wording of an error it is what a C++ server would have answered. */
  lemma CallCrosses(e: Envelope, services: Services, h: HandlerResult)
    requires Cpp.Sendable(e) && Legal(Cpp.Serialize(e)) && !h.Fails?
    requires var m := JsDispatch(services, e, h); Legal(Js.Serialize(m)) && IsText(WithDefaults(m).errorMessage)
    ensures var request := Js.Deserialize(Cpp.Serialize(e));
            && request == Some(e)
            && var response := Cpp.Parse(Js.Serialize(JsDispatch(services, request.value, h)));
               && response.Some? && response.value.requestId == e.requestId
               && response.value.(errorMessage := []) == Dispatch(services, e, h).(errorMessage := [])
  {
    CppToJs(e);
    DispatchAnswers(services, e, h);
    SdksAgree(services, e, h);
    JsResponse(e, services, h);
    EmptyIsText();
    hide JsDispatch, Dispatch, Js.Serialize, IsText;
    JsToCpp(JsDispatch(services, e, h));
  }

  /** The TypeScript dispatcher's responses can be encoded, and name no service and no method. */
  lemma JsResponse(e: Envelope, services: Services, h: HandlerResult)
    requires e.requestId < TWO_64 && !h.Fails?
    ensures var m := JsDispatch(services, e, h);
            && EncodableMessage(m) && Or(m.metadata, map[]) == map[]
            && Or(m.serviceName, []) == [] && Or(m.methodName, []) == []
  {
  }

  lemma EmptyIsText()
    ensures IsText([])
  {
    assert EncodeText([]) == [];
  }
}
