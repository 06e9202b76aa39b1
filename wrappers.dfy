/** Failure-carrying datatypes shared by the container and store models. */
module Wrappers {

  /** A value that may be absent (`undefined` in the source). */
  datatype Option<+T> = None | Some(value: T)

  /** The result of an operation that either yields a value or raises an error. */
  datatype Result<+T, +E> = Ok(value: T) | Err(error: E)

  /** The result of an operation that yields nothing but may raise an error. */
  datatype Outcome<+E> = Pass | Fail(error: E)
}
