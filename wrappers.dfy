/** Failure-compatible result types shared by the store and the resolvers. */
module Wrappers {

  /** A value that may be absent: Go's nil pointer or nil interface. */
  datatype Option<+T> = None | Some(value: T)

  /** A value or an error, as a Go function returning (T, error). */
  datatype Result<+T, +E> = Success(value: T) | Failure(error: E)

  /** No value or an error, as a Go function returning only error. */
  datatype Outcome<+E> = Pass | Fail(error: E)
}
