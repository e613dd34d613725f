/** Optional values, standing in for Rust's `Option<T>` and for the `Ok`/`Err`
    outcome of a parse whose error value the source never inspects. */
module Wrappers {

  datatype Option<+T> = None | Some(value: T) {

    /** Rust's `unwrap_or`. */
    function UnwrapOr(default: T): T {
      match this
      case Some(v) => v
      case None => default
    }
  }
}
