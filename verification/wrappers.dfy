/** Failure-carrying values shared by the modules of this model. */
module Wrappers {

  /** A value that may be absent: a missing dictionary key or a Python `None`. */
  datatype Option<T> = None | Some(value: T) {
    /** The value, or `default` when it is absent (Python's `dict.get(key, default)`). */
    function GetOr(default: T): T {
      match this
      case Some(v) => v
      case None => default
    }
  }

  /** The outcome of an operation that either returns a value or raises an error. */
  datatype Result<T, E> = Success(value: T) | Failure(error: E)
}
