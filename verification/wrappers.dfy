/** Optional values and success/failure results, used wherever the source has
    `null`/`undefined` or a thrown validation error. */
module Wrappers {

  /** A JavaScript value that may be `null`/`undefined` (None) or present. */
  datatype Option<+T> = None | Some(value: T) {

    /** The value, or `default` when absent (JavaScript `v ?? default`). */
    function GetOr(default: T): T {
      match this
      case Some(v) => v
      case None => default
    }
  }

  /** The outcome of a validation or of a call that can fail. */
  datatype Result<+T, +E> = Success(value: T) | Failure(error: E)
}
