/** Optional values and outcomes shared by every module of the model. */
module Wrappers {

  /** A value that may be absent: the model's rendering of `undefined`/`null` fields. */
  datatype Option<+T> = None | Some(value: T) {
    /** The wrapped value, or `default` when absent (a destructuring default in the source). */
    function GetOr(default: T): T {
      match this
      case Some(v) => v
      case None => default
    }
  }

  /** The outcome of an operation that may throw: `Ok` carries the value, `Err` the thrown error. */
  datatype Result<+T, +E> = Ok(value: T) | Err(error: E)
}
