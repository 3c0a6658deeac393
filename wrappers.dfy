/** Option and Result values shared by the client and server models. */
module Wrappers {

  /** A value that may be absent: JavaScript's `undefined`/`null`, Rust's `Option`. */
  datatype Option<+T> = None | Some(value: T) {
    function GetOr(default: T): (r: T)
      ensures Some? ==> r == value
      ensures None? ==> r == default
    {
      match this
      case Some(v) => v
      case None => default
    }
  }

  /** The outcome of an operation that may fail: a thrown error or an `Err` return. */
  datatype Result<+T, +E> = Ok(value: T) | Err(error: E)
}
