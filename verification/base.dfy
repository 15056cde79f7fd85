/** Failure-compatible wrappers shared by every module of the model. */
module Base {

  /** A value that may be absent; Python's `None` in the original code. */
  datatype Option<T> = None | Some(value: T) {

    /** The wrapped value, or `default` when absent (Python's `x or default` on non-empty values). */
    function GetOr(default: T): T {
      match this
      case Some(v) => v
      case None => default
    }
  }

  /** Either a value or the error the original code would raise instead. */
  datatype Result<T, E> = Success(value: T) | Failure(error: E)
}
