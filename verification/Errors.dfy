/** The error codes of the C++ SDK that the modelled code can return. */
module Errors {
  datatype Error =
    | System(errno: nat)      // an errno, in the system category
    | ConnectionReset
    | NotConnected
    | AlreadyConnected
    | FrameTooLarge
    | SerializationError
    | ProtocolError
    | Internal

  /** What can go wrong in a receive below the frames: EOF, or a failed system call. */
  datatype Fault = Eof | Errno(errno: nat)

  function FaultError(fault: Fault): Error {
    match fault
    case Eof => ConnectionReset
    case Errno(errno) => System(errno)
  }

  /** The error of a failed system call or of EOF, after which the transport counts as disconnected. */
  predicate OfTransport(err: Error) {
    err.System? || err.ConnectionReset?
  }
}
