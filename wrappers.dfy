/** Option and Result, the two shapes the source's `Option<T>` and `Result<T>` take. */
module Wrappers {

  datatype Option<+T> = None | Some(value: T)

  datatype Result<+T, +E> = Success(value: T) | Failure(error: E)
}
