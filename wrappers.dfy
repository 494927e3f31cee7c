/** Failure-carrying values used in place of Go's `(value, error)` returns. */
module Wrappers {

  datatype Option<+T> = None | Some(value: T)

  datatype Result<+T, +E> = Ok(value: T) | Err(error: E)

  /** A result that carries no value: Go's lone `error` return, `nil` being `Pass`. */
  datatype Outcome<+E> = Pass | Fail(error: E)
}
