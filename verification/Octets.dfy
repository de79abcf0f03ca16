/** Octets, and the result types and errors shared by every codec and state machine. */
module Octets {
  type byte = b: int | 0 <= b < 256

  datatype Option<+T> = None | Some(value: T)

  /** The errors a caller can tell apart (src/error.rs); messages are left out. */
  datatype Error =
    | ParamInvalid | InfoObjIndexFit | InfoObjAddrFit | CauseZero | CommonAddrZero
    | LengthOutOfRange | UnexpectedEof | TrailingOctets | TypeIdentifier | TypeIdNotMatch | NotAnyObjInfo | CmdCause
    | ApciInvalid | FrameInvalid | StreamEnded | UseClosedConnection | SendQueueFull

  datatype Result<+T> = Ok(value: T) | Err(error: Error)

  function Min(a: int, b: int): int { if a < b then a else b }
}
