/** Optional values and call outcomes used across the model: `Option` stands for a
    JavaScript value that may be `undefined`, `Result` for a call that either
    returns a value or throws an `Error`. */
module Wrappers {

  datatype Option<+T> = None | Some(value: T) {

    /** The wrapped value, or `default` when absent (JavaScript's `??`). */
    function GetOr(default: T): (r: T) {
      match this
      case Some(v) => v
      case None => default
    }
  }

  datatype Result<+T, +E> = Success(value: T) | Failure(error: E)
}
