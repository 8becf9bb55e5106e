/** The optional value and the value-or-message used throughout the project. */
module Prelude {
  datatype Option<+T> = None | Some(value: T)

  datatype Result<+T> = Success(value: T) | Failure(error: string)
}
