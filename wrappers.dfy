/** Failure-carrying values used in place of JavaScript's NaN, undefined and error responses. */
module Wrappers {

  /** A value that may be absent: a missing field or a text that does not parse. */
  datatype Option<+T> = None | Some(value: T)

  /** The outcome of an operation that either succeeds with a value or fails with a reason. */
  datatype Result<+T, +E> = Ok(value: T) | Err(error: E)
}
