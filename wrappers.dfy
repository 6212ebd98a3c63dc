/** Failure-carrying values used across the model: an optional value (a field
    that may be absent, `null` or `undefined`), a value or an error, and the
    outcome of a store action that may throw. */
module Wrappers {

  datatype Option<+T> = None | Some(value: T) {
    function GetOr(default: T): T {
      match this
      case Some(v) => v
      case None => default
    }
  }

  /** The value of a computation that may fail with an error of type `E`. */
  datatype Result<+T, +E> = Ok(value: T) | Err(error: E)

  /** What an action of the app's store does with an error: it either returns
      a value (possibly `null`) or re-throws to its caller. */
  datatype Outcome<+T> = Returned(value: Option<T>) | Threw(message: string)
}
