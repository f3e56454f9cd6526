/** Option and Result, the shapes of Rust's `Option` and of an operation that
    either returns or panics. */
module Wrappers {

  datatype Option<+T> = None | Some(value: T) {

    /** `unwrap_or`: the held value, or `default` when there is none. */
    function GetOr(default: T): T {
      match this
      case Some(v) => v
      case None => default
    }
  }

  /** `Ok(value)` when the operation returns normally, `Err(error)` when the
      source panics; `error` records which assertion fired. */
  datatype Result<+T, +E> = Ok(value: T) | Err(error: E)
}
