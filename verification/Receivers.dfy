/** The C++ and the TypeScript receivers side by side. */
module Receivers {
  import opened Errors
  import Cpp = CppFraming
  import Js = JsFraming

  /** What a TypeScript receiver that has failed returned, in the terms of the C++ one. */
  function Returned(r: Js.Receiver): Cpp.Reception
    requires r.failure.Some?
  {
    Cpp.Reception(r.frames, match r.failure.value
                            case TooLarge => FrameTooLarge
                            case Reset(_) => ConnectionReset
                            case ShortHeader => Internal)
  }

  /** The receivers agree on every byte stream: after any run in which it has failed, the TypeScript
      receiver returned exactly what the C++ one returns on the bytes that arrived, the same frames
      and the same choice between an oversized frame and a reset. */
  lemma ReceiversAgree(actions: seq<Js.Action>)
    requires Js.Run(actions).failure.Some?
    ensures Returned(Js.Run(actions)) == Cpp.AllReceived(Js.Run(actions).arrived)
  {
    Js.RefinesParser(actions);
  }

  /** And on a connection that has died it comes to that end when it keeps receiving. */
  lemma ReceiversAgreeWhenDrained(actions: seq<Js.Action>)
    requires !Js.Run(actions).sock.connected && !Js.Waiting(Js.Run(actions))
    ensures Js.Inv(Js.Run(actions))
    ensures Returned(Js.DrainDead(Js.Run(actions))) == Cpp.AllReceived(Js.Run(actions).arrived)
  {
    Js.RunKeeps(actions);
    Js.InvRefines(Js.DrainDead(Js.Run(actions)));
  }
}
