/**
  The exceptions the system raises, as values: an operation that can throw
  returns a `Result` (or a `Status` when it returns nothing on success).
*/
module Errors {

  datatype Exception =
    | IllegalArgument
    | IllegalState
    | IndexOutOfBounds
    | ConnectionTimeout
    | ConnectionFailure
    | NullPointer
    | NegativeArraySize

  datatype Result<T> = Ok(value: T) | Err(error: Exception)

  datatype Status = Done | Thrown(error: Exception)

  datatype Option<T> = None | Some(value: T)
}
