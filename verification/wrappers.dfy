/** Option values for JavaScript's `null`/`undefined` slots, and results for
    code that may throw. */
module Wrappers {

  /** `None` stands for a missing (null or undefined) reference. */
  datatype Option<+T> = None | Some(value: T) {

    /** Returns the value held in `Some`, or `default` for `None`. */
    function GetOr(default: T): T {
      match this
      case Some(v) => v
      case None => default
    }
  }

  /** `Err` carries the message of an `Error` the JavaScript code throws. */
  datatype Result<+T> = Ok(value: T) | Err(message: string)
}
