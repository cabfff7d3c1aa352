/** Option and Result, the two wrappers the formula model uses for absent
    JSON keys and for the exceptions the evaluator can raise. */
module Wrappers {

  /** A JSON key that may be absent: `None` stands for a missing key. */
  datatype Option<+T> = None | Some(value: T) {
    function GetOr(default: T): T {
      match this
      case Some(v) => v
      case None => default
    }
  }

  /** The value of a computation, or the error it raised. */
  datatype Result<+R, +E> = Ok(value: R) | Err(error: E)
}
