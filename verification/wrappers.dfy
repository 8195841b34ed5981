/** Rust's `Option`, as the combinator node uses it for its two operand slots. */
module Wrappers {

  datatype Option<+T> = None | Some(value: T) {

    /** The stored value, or `fallback` when there is none (Rust's `unwrap_or`). */
    function UnwrapOr(fallback: T): (v: T)
    {
      match this
      case Some(v) => v
      case None => fallback
    }
  }
}
