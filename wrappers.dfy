/** Optional values and success/failure results shared by the modules of the detector. */
module Wrappers {

  /** A value that may be absent: a JavaScript property that is missing, `undefined` or falsy. */
  datatype Option<+T> = None | Some(value: T) {
    /** The value, or `default` when absent (JavaScript's `x || default` on a present truthy x). */
    function GetOr(default: T): T {
      match this
      case Some(v) => v
      case None => default
    }
  }

  /** The outcome of an operation that may throw: `Success` or the error it threw. */
  datatype Result<+R, +E> = Success(value: R) | Failure(error: E)
}
