/** Optional values and results with an error message, standing for the
    source's `null` returns and thrown errors. */
module Wrappers {

  datatype Option<+T> = None | Some(value: T) {
    function GetOr(default: T): T {
      match this
      case Some(v) => v
      case None => default
    }
  }

  /** A result that either carries a value or the message of the error the
      source would have thrown. */
  datatype Result<+T> = Success(value: T) | Failure(error: string)
}
