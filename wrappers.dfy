/** Option and Result values for the model's missing data and error paths. */
module Wrappers {

  /** A value that may be absent: Python's None, JavaScript's null. */
  datatype Option<+T> = None | Some(value: T) {
    function GetOr(default: T): T {
      match this
      case Some(v) => v
      case None => default
    }
  }

  /** The outcome of a step that can fail with an error value. */
  datatype Result<+R, +E> = Success(value: R) | Failure(error: E)
}
