/** Absence and failure, in place of Go's nil pointers and (value, error) pairs. */
module Wrappers {

  datatype Option<+T> = None | Some(value: T)

  /** Go's `(value, error)` return: either a value or the error message. */
  datatype Result<+T> = Success(value: T) | Failure(error: string)
}
