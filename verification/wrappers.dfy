/** Option, Result and Outcome: the model's stand-ins for Python's `None` and for
    exceptions. A member that can raise in the source returns a `Result` or an
    `Outcome` here, so the error path is part of its contract. */
module Wrappers {

  datatype Option<+T> = None | Some(value: T)

  /** The outcome of a call that returns a value or raises. */
  datatype Result<+T, +E> = Ok(value: T) | Err(error: E)

  /** The outcome of a call that returns nothing or raises. */
  datatype Outcome<+E> = Pass | Fail(error: E)
}
