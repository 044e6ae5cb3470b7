/** Failure-compatible wrappers used throughout the model: an optional value
    (a dictionary key that may be absent, a Python `None` default) and a result
    that is either a value or the exception the Python code would raise. */
module Wrappers {

  datatype Option<+T> = None | Some(value: T) {
    /** `value if value is not None else default`. */
    function GetOr(default: T): T {
      match this
      case Some(v) => v
      case None => default
    }
  }

  datatype Result<+R, +E> = Success(value: R) | Failure(error: E) {
    predicate IsFailure() {
      Failure?
    }

    function PropagateFailure<U>(): Result<U, E>
      requires Failure?
    {
      Failure(error)
    }

    function Extract(): R
      requires Success?
    {
      value
    }
  }
}
