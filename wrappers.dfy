/** Option and Result, the two failure-carrying wrappers the model uses. */
module Wrappers {

  /** A value that may be absent (Python's `Optional[T]`, with `None`). */
  datatype Option<+T> = None | Some(value: T) {
    /** The wrapped value, or `default` when there is none. */
    function GetOr(default: T): T {
      match this
      case Some(v) => v
      case None => default
    }
  }

  /** Either a successful value or an error value. */
  datatype Result<+R, +E> = Success(value: R) | Failure(error: E)
}
