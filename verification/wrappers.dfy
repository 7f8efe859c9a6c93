/** Optional values and results with an error channel, used for the C# `null`
    and for the exceptions an options update can throw. */
module Wrappers {

  /** A value that may be absent: the model of a nullable C# reference or `T?`. */
  datatype Option<+T> = None | Some(value: T) {

    /** The value, or `default` when absent (the C# `??` operator). */
    function GetOr(default: T): T {
      match this
      case Some(v) => v
      case None => default
    }
  }

  /** The outcome of an operation that either returns a value or throws. */
  datatype Result<+R, +E> = Success(value: R) | Failure(error: E)
}
