/** The optional-value type used wherever the source reads a property that may be
    absent (`undefined`) or uses optional chaining, and the result type used wherever
    an operation either yields a value or throws an error with a message. */
module Wrappers {

  datatype Option<+T> = None | Some(value: T) {

    /** The value, or `default` when absent: the source's `x ?? d` / default parameter. */
    function GetOr(default: T): T {
      match this
      case Some(v) => v
      case None => default
    }
  }

  datatype Result<+T, +E> = Ok(value: T) | Err(error: E)
}
