/** Option and Result, used across the model for Python's `None` and for raised exceptions. */
module Base {

  /** A value that may be absent (Python's `None`). */
  datatype Option<+T> = None | Some(value: T) {
    function GetOr(default: T): T {
      match this
      case Some(v) => v
      case None => default
    }
  }

  /** The outcome of an operation that may raise: `Err` carries the exception. */
  datatype Result<+T, +E> = Ok(value: T) | Err(error: E)

  /** A Python exception: its class name and its message. */
  datatype Raised = Raised(kind: string, message: string)
}
