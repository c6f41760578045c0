/** Option and Result, the usual failure-carrying wrappers. */
module Wrappers {

  /** `None` stands for JavaScript's `undefined` wherever a value may be absent. */
  datatype Option<+T> = None | Some(value: T) {
    function GetOr(default: T): T {
      match this
      case Some(v) => v
      case None => default
    }
  }

  /** The outcome of a computation that may throw; `error` is the thrown message. */
  datatype Result<+T> = Success(value: T) | Failure(error: string)
}
