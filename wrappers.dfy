/** Option and Result, the two failure-carrying datatypes the model uses
    where the Go code returns `(value, error)` or a nil pointer. */
module Wrappers {

  datatype Option<+T> = None | Some(value: T)

  datatype Result<+T, +E> = Success(value: T) | Failure(error: E)
}
