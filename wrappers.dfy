/** Option and Result, used for the optional request parameters, for values
    that may be missing from a reply, and for errors that propagate out of a
    collector (a Python exception). */
module Wrappers {

  datatype Option<+T> = None | Some(value: T) {
    /** The value, or the given default when there is none. */
    function GetOr(default: T): T {
      match this
      case Some(v) => v
      case None => default
    }
  }

  datatype Result<+T, +E> = Ok(value: T) | Err(error: E)
}
