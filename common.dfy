/** Optional values and success-or-error results, used for Ruby's nil and raised exceptions. */
module Common {

  /** A value that may be absent (Ruby's nil). */
  datatype Option<+T> = None | Some(value: T) {
    function GetOr(default: T): T {
      match this
      case Some(v) => v
      case None => default
    }
  }

  /** The outcome of a step that either produces a value or raises. */
  datatype Result<+T, +E> = Ok(value: T) | Err(error: E)
}
