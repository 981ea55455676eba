/** The two dispatchers: look up the service and the method, run the handler, build the response. */
module Dispatcher {
  import opened Bytes
  import opened Envelopes

  /** What a handler does when it is called. Only C++ handlers can return an error code. */
  datatype HandlerResult =
    | Returns(payload: bytes)
    | Fails(message: bytes)
    | Throws(what: bytes)
    | ThrowsUnknown

  /** The registered services and their methods. */
  type Services = map<bytes, set<bytes>>

  const REQUEST: int := 0
  const RESPONSE: int := 1
  const ERROR: int := 3
  const OK: int := 0
  const NOT_FOUND: int := 2
  const INTERNAL: int := 4

  function Text(s: string): bytes {
    seq(|s|, i requires 0 <= i < |s| => if s[i] as int < 256 then s[i] as int as byte else 0)
  }

  function MakeError(id: nat, status: int, message: bytes): Envelope {
    Envelope(ERROR, id, [], [], [], status, message, map[])
  }

  function Dispatch(services: Services, request: Envelope, handler: HandlerResult): Envelope {
    var id := request.requestId;
    if request.serviceName !in services then
      MakeError(id, NOT_FOUND, Text("service '") + request.serviceName + Text("' not found"))
    else if request.methodName !in services[request.serviceName] then
      MakeError(id, NOT_FOUND, Text("method '") + request.methodName + Text("' not found on service '")
                               + request.serviceName + Text("'"))
    else
      match handler
      case Returns(payload) => Envelope(RESPONSE, id, [], [], payload, OK, [], map[])
      case Fails(message) => MakeError(id, INTERNAL, message)
      case Throws(what) => MakeError(id, INTERNAL, Text("handler threw: ") + what)
      case ThrowsUnknown => MakeError(id, INTERNAL, Text("handler threw unknown exception"))
  }

  function JsErrorEnvelope(request: Envelope, status: int, message: bytes): Message {
    Message(Some(ERROR), Some(request.requestId), None, None, None, Some(status), Some(message), Some(map[]))
  }

  function JsDispatch(services: Services, request: Envelope, handler: HandlerResult): Message
    requires !handler.Fails?
  {
    if request.serviceName !in services then
      JsErrorEnvelope(request, NOT_FOUND, Text("Service not found: ") + request.serviceName)
    else if request.methodName !in services[request.serviceName] then
      JsErrorEnvelope(request, NOT_FOUND,
                      Text("Method not found: ") + request.serviceName + Text("/") + request.methodName)
    else
      match handler
      case Returns(payload) =>
        Message(Some(RESPONSE), Some(request.requestId), None, None, Some(payload), Some(OK), None, Some(map[]))
      case Throws(what) =>
        JsErrorEnvelope(request, INTERNAL, if what == [] then Text("Internal server error") else what)
      case ThrowsUnknown =>
        JsErrorEnvelope(request, INTERNAL, Text("Internal server error"))
  }

  /** A dispatch always answers its own request. The response is a success exactly when the method
      exists and its handler returned; NOT_FOUND and INTERNAL tell the two kinds of failure apart,
      and an error never carries a payload. */
  lemma DispatchAnswers(services: Services, request: Envelope, handler: HandlerResult)
    ensures var r := Dispatch(services, request, handler);
            var found := request.serviceName in services && request.methodName in services[request.serviceName];
            && r.requestId == request.requestId
            && (r.kind == RESPONSE <==> found && handler.Returns?)
            && (r.kind == ERROR <==> r.status != OK)
            && (r.status == NOT_FOUND <==> !found)
            && (r.status == INTERNAL <==> found && !handler.Returns?)
            && r.payload == (if found && handler.Returns? then handler.payload else [])
            && r.serviceName == r.methodName == [] && r.metadata == map[]
  {
  }

  /** What the message of an error says: which name was not found, or what the handler reported. */
  lemma ErrorMessages(services: Services, request: Envelope, handler: HandlerResult)
    ensures var r, service, name := Dispatch(services, request, handler), request.serviceName, request.methodName;
            r.errorMessage ==
              if service !in services then Text("service '") + service + Text("' not found")
              else if name !in services[service] then
                Text("method '") + name + Text("' not found on service '") + service + Text("'")
              else
                match handler
                case Returns(_) => []
                case Fails(message) => message
                case Throws(what) => Text("handler threw: ") + what
                case ThrowsUnknown => Text("handler threw unknown exception")
    ensures var m, service, name := JsDispatch(services, request, if handler.Fails? then ThrowsUnknown else handler),
                                    request.serviceName, request.methodName;
            WithDefaults(m).errorMessage ==
              if service !in services then Text("Service not found: ") + service
              else if name !in services[service] then Text("Method not found: ") + service + Text("/") + name
              else
                match handler
                case Returns(_) => []
                case Throws(what) => if what == [] then Text("Internal server error") else what
                case _ => Text("Internal server error")
  {
  }

  /** The SDKs answer every request alike, up to the wording of the error message. */
  lemma SdksAgree(services: Services, request: Envelope, handler: HandlerResult)
    requires !handler.Fails?
    ensures Dispatch(services, request, handler)
         == WithDefaults(JsDispatch(services, request, handler))
              .(errorMessage := Dispatch(services, request, handler).errorMessage)
    ensures Dispatch(services, request, handler).kind == RESPONSE
            ==> WithDefaults(JsDispatch(services, request, handler)) == Dispatch(services, request, handler)
  {
  }
}
