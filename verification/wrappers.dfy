/** Option and Result values standing in for Go's nil pointers and (value, error) pairs. */
module Wrappers {

  /** A Go pointer or optional field: `None` is nil. */
  datatype Option<+T> = None | Some(value: T) {

    /** The pointee, or `default` for nil. */
    function GetOr(default: T): T {
      match this
      case Some(v) => v
      case None => default
    }
  }

  /** A Go `(value, error)` pair where exactly one side is meaningful. */
  datatype Result<+T, +E> = Ok(value: T) | Err(error: E)
}
