/** Option and Result, the two failure-carrying shapes every component uses. */
module Wrappers {

  datatype Option<+T> = None | Some(value: T) {
    /** `unwrap_or` / `dict.get(key, default)`: the value, or `default` when absent. */
    function GetOr(default: T): T {
      match this
      case Some(v) => v
      case None => default
    }
  }

  datatype Result<+T, +E> = Ok(value: T) | Err(error: E)
}
