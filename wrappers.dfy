/** Option and Result, the two failure-carrying wrappers the gateway's Rust code
    uses (`Option<T>` for optional request parameters, `anyhow::Result<T>` for
    every handler outcome). */
module Wrappers {

  datatype Option<+T> = None | Some(value: T) {

    /** `Option::unwrap_or`. */
    function UnwrapOr(default: T): T {
      match this
      case Some(v) => v
      case None => default
    }
  }

  datatype Result<+T, +E> = Ok(value: T) | Err(error: E) {

    /** `Result::ok`: drops the error. */
    function ToOption(): Option<T> {
      match this
      case Ok(v) => Some(v)
      case Err(_) => None
    }
  }
}
