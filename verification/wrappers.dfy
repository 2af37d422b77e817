/** Optional values and success/failure results, standing in for Python's
    `None` and for exceptions raised by the modelled code. */
module Wrappers {

  /** `None` or a present value. */
  datatype Option<T> = None | Some(value: T) {

    /** The present value, or `default` when there is none (Python's `d.get(k, default)` idiom). */
    function GetOr(default: T): T {
      match this
      case Some(v) => v
      case None => default
    }
  }

  /** The outcome of an operation that may raise. */
  datatype Result<T, E> = Success(value: T) | Failure(error: E)
}
