/** Failure-compatible wrappers used across the model: an optional value for the
    source's `None`-or-value results and a result type for its error paths. */
module Wrappers {

  /** A value that may be absent, as Python's `Optional[T]`. */
  datatype Option<T> = None | Some(value: T) {

    /** The carried value, or `default` when absent (Python's `x if x is not None else d`). */
    function GetOr(default: T): T {
      match this
      case Some(v) => v
      case None => default
    }
  }

  /** Either a value or the error that a Python `raise` would have produced. */
  datatype Result<T, E> = Success(value: T) | Failure(error: E)
}
