/** Option and Result values used across the model in place of Java's null and exceptions. */
module Wrappers {

  datatype Option<+T> = None | Some(value: T) {
    function GetOr(default: T): T {
      match this
      case Some(v) => v
      case None => default
    }
  }

  datatype Result<+R, +E> = Ok(value: R) | Err(error: E)

  /** The Java exception (or null dereference) that ends an operation of the source. */
  datatype Fault =
    | NullPointer
    | NumberFormat
    | IllegalArgument
    | ServiceFailure
    | IndexOutOfBounds
    | DuplicateKey
}
