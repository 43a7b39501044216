/** Option and Result, the failure-carrying values the rest of the model returns. */
module Wrappers {

  datatype Option<+T> = None | Some(value: T) {
    function GetOr(default: T): T {
      match this
      case Some(v) => v
      case None => default
    }
  }

  /** A JavaScript computation either yields a value or throws an Error with a message. */
  datatype Result<+R> = Success(value: R) | Failure(message: string)
}
