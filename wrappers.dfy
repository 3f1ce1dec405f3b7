/** Failure-carrying values shared by the other modules. */
module Wrappers {

  /** A value that may be absent (Go's `nil` / `ok == false`). */
  datatype Option<+T> = None | Some(value: T)

  /** Either a value or the error a Go function would have returned beside it. */
  datatype Result<+R, +E> = Success(value: R) | Failure(error: E)
}
