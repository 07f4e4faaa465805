/** Option and Result, used for the source's `undefined`/`null` values, thrown errors and
    `{ success: false, reason }` objects. */
module Wrappers {

  datatype Option<+T> = None | Some(value: T)

  datatype Result<+T, +E> = Success(value: T) | Failure(error: E)
}
