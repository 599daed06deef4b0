/** The optional values and the success-or-error results shared by the model. */
module Wrappers {

  /** An optional value: a missing (None) field of the source's records. */
  datatype Option<+T> = None | Some(value: T) {

    /** The value if present, or `default` otherwise. */
    function GetOr(default: T): T {
      match this
      case Some(v) => v
      case None => default
    }
  }

  /** The outcome of an operation that can fail with an error of type `E`. */
  datatype Result<+T, +E> = Ok(value: T) | Err(error: E)
}
