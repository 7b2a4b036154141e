/** Option and Result values for the optional fields, missing files and
    thrown errors of the modelled code. */
module Wrappers {

  /** A value that may be absent (`null`, `undefined`, `None`, a missing file). */
  datatype Option<+T> = None | Some(value: T) {
    function GetOr(default: T): T {
      match this
      case Some(v) => v
      case None => default
    }
  }

  /** The outcome of an operation that either returns a value or throws. */
  datatype Result<+T, +E> = Success(value: T) | Failure(error: E)
}
