/** Optional values and results with an error, the shapes every operation of the
    model returns instead of raising. */
module Wrappers {

  /** Python's `Optional[T]`: `None` or a value. */
  datatype Option<+T> = None | Some(value: T) {

    /** The value, or `default` when there is none (Python's `x or default` on a value that is present or None). */
    function GetOr(default: T): T {
      match this
      case Some(v) => v
      case None => default
    }
  }

  /** A value, or the exception that would have been raised instead. */
  datatype Result<+T, +E> = Success(value: T) | Failure(error: E)
}
