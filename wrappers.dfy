/** Failure-carrying result types used throughout the model. A thrown
    JavaScript Error becomes a Failure carrying the error's message. */
module Wrappers {

  datatype Option<+T> = None | Some(value: T) {
    function GetOr(default: T): T {
      match this
      case Some(v) => v
      case None => default
    }
  }

  /** A value, or the message of the Error the source would throw. */
  datatype Result<+T> = Success(value: T) | Failure(error: string)

  /** Completion of an operation that returns nothing on success. */
  datatype Outcome = Ok | Fail(error: string)
}
