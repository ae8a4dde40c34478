/** Optional values and results with an error, used for the handlers' early returns. */
module Wrappers {

  datatype Option<+T> = None | Some(value: T) {
    /** The value, or `default` when absent (a JavaScript destructuring default). */
    function GetOr(default: T): T {
      match this
      case Some(v) => v
      case None => default
    }
  }

  /** A handler's answer: the payload of a 2xx response, or the error it returned. */
  datatype Result<+T, +E> = Ok(value: T) | Err(error: E)

  /** An answer that carries no payload on success. */
  datatype Outcome<+E> = Pass | Fail(error: E)
}
