/** Option and Result, used for the source's `None` returns and raised exceptions. */
module Wrappers {

  datatype Option<T> = None | Some(value: T) {
    /** `value` when present, `default` otherwise (Python's `x or default`, `dict.get`). */
    function GetOr(default: T): T {
      match this
      case Some(v) => v
      case None => default
    }
  }

  datatype Result<T, E> = Ok(value: T) | Err(error: E)
}
