/** Failure-carrying values shared by the other modules: Go's `(T, error)` pairs
    become a Result, an optional pointer or error becomes an Option. */
module Wrappers {

  datatype Option<+T> = None | Some(value: T)

  datatype Result<+T, +E> = Success(value: T) | Failure(error: E)
}
