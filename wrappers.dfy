/** Option and Result, the two failure-carrying shapes the daemon's Rust code uses. */
module Wrappers {

  datatype Option<+T> = None | Some(value: T) {
    /** Returns the value in Some, or `default` for None (Rust's `unwrap_or`). */
    function UnwrapOr(default: T): T {
      match this
      case Some(v) => v
      case None => default
    }
  }

  datatype Result<+T, +E> = Ok(value: T) | Err(error: E)
}
