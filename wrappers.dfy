/** Optional values and results used across the model: `None` stands for
    JavaScript's `undefined` or for "nothing found". */
module Wrappers {
  datatype Option<+T> = None | Some(value: T) {
    function GetOr(default: T): T {
      match this
      case Some(v) => v
      case None => default
    }
  }

  /** The value of a JavaScript computation, or the message of the error it throws. */
  datatype Result<+T> = Success(value: T) | Failure(error: string)
}
