/** A result without detail: the program's callers only see that an operation failed. */
module Fallible {
  datatype Result<+T> = Ok(value: T) | Err
}
