/** The Option, Result and Outcome datatypes shared by the supervisor and the patch model. */
module Outcomes {

  datatype Option<+T> = None | Some(value: T)

  /** The result of an operation that either yields a value or raises. */
  datatype Result<+T, +E> = Ok(value: T) | Err(error: E)

  /** The result of an operation that raises or returns nothing. */
  datatype Outcome<+E> = Pass | Fail(error: E)
}
