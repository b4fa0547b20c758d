/** Option, Result and Outcome: the values the model uses for PHP's null,
    for return-or-throw operations, and for operations that only throw. */
module Wrappers {

  datatype Option<+T> = None | Some(value: T)

  datatype Result<+T, +E> = Success(value: T) | Failure(error: E)

  datatype Outcome<+E> = Pass | Fail(error: E)
}
