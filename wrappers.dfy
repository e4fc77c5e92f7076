/** Failure-carrying wrappers used across the model. */
module Wrappers {

  /** A value that may be absent, such as an environment variable that is unset or does not parse. */
  datatype Option<+T> = None | Some(value: T)

  /** The outcome of an operation that either returns a value or fails with an error. */
  datatype Result<+T, +E> = Ok(value: T) | Err(error: E)
}
