/** Optional values and throwing results, standing in for Swift's `Optional` and `throws`. */
module Wrappers {

  datatype Option<+T> = None | Some(value: T) {

    /** The wrapped value, or `default` when there is none (Swift's `??`). */
    function GetOr(default: T): T {
      match this
      case Some(v) => v
      case None => default
    }
  }

  /** The outcome of a Swift call that `throws`: a value, or the error thrown. */
  datatype Result<+T, +E> = Success(value: T) | Failure(error: E)
}
