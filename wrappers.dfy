/** Option and Kotlin's `Result`, used for every operation that can fail. */
module Wrappers {

  datatype Option<+T> = None | Some(value: T) {
    /** Kotlin's elvis operator: the value, or `default` when absent. */
    function GetOr(default: T): T {
      match this
      case Some(v) => v
      case None => default
    }
  }

  /** Kotlin's `Result<T>`. A failure carries the exception's message, which may be null. */
  datatype Result<+T> = Success(value: T) | Failure(message: Option<string>) {
    predicate IsFailure() { Failure? }
  }

  /** A failure with a fixed message, as in `Result.failure(Exception("..."))`. */
  function Fail<T>(message: string): Result<T> {
    Failure(Some(message))
  }

  const NotLoggedIn := "Not logged in"
}
