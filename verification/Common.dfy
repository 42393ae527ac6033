/** Vocabulary shared by every module: machine integers, status codes and results. */
module Common {

  type U8 = x: int | 0 <= x < 0x100
  type U16 = x: int | 0 <= x < 0x1_0000
  type U32 = x: int | 0 <= x < 0x1_0000_0000

  datatype Option<+T> = None | Some(value: T)

  datatype Result<+T, +E> = Ok(value: T) | Err(error: E)

  /** The payload of a `Result` that carries no value. */
  datatype Unit = Unit

  /** The uProtocol status codes. */
  datatype UCode =
    | OK
    | CANCELLED
    | UNKNOWN
    | INVALID_ARGUMENT
    | DEADLINE_EXCEEDED
    | NOT_FOUND
    | ALREADY_EXISTS
    | PERMISSION_DENIED
    | UNAUTHENTICATED
    | RESOURCE_EXHAUSTED
    | FAILED_PRECONDITION
    | ABORTED
    | OUT_OF_RANGE
    | UNIMPLEMENTED
    | INTERNAL
    | UNAVAILABLE
    | DATA_LOSS

  /** A call that answers nothing but success or a status code. */
  type Status = Result<Unit, UCode>
}
