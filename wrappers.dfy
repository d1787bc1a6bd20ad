/** Option and Result: the nullable values and the thrown errors of the service code. */
module Wrappers {

  /** A nullable value: `None` stands for `null` / `undefined`. */
  datatype Option<+T> = None | Some(value: T) {

    /** The `??` operator: the value if present, else the default. */
    function GetOr(default: T): T {
      match this
      case Some(v) => v
      case None => default
    }
  }

  /** The outcome of an operation that may throw: `Err` carries the error it throws. */
  datatype Result<+T, +E> = Ok(value: T) | Err(error: E)
}
