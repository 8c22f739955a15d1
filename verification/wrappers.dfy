/** Optional values and results used throughout the model. */
module Wrappers {

  /** An optional value: the JSON `null`/absent case is `None`. */
  datatype Option<+T> = None | Some(value: T) {

    /** Returns the value held in `Some`, or `default` when `None`. */
    function GetOr(default: T): T {
      match this
      case Some(v) => v
      case None => default
    }
  }

  /** Either a value or an error, as an operation that may fail returns it. */
  datatype Result<+R, +E> = Success(value: R) | Failure(error: E)
}
