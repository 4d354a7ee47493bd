/** Failure-carrying values used in place of Ruby's nil and raised exceptions. */
module Wrappers {

  /** A value that may be absent (Ruby's nil). */
  datatype Option<+T> = None | Some(value: T)

  /** The value of an operation that either returns normally or raises `error`. */
  datatype Result<+T, +E> = Ok(value: T) | Err(error: E)

  /** The value of an operation that returns nothing of interest or raises `error`. */
  datatype Outcome<+E> = Pass | Fail(error: E)
}
