/** Failure-compatible wrappers used across the model: an optional value
    (a JavaScript `undefined` or a failed `find`) and a result that is either
    a value or the error the source would throw. */
module Wrappers {

  datatype Option<+T> = None | Some(value: T) {

    /** The value, or `default` when absent (the source's `x || default`
        on a value that is never falsy otherwise). */
    function GetOr(default: T): T {
      match this
      case Some(v) => v
      case None => default
    }
  }

  datatype Result<+R, +E> = Success(value: R) | Failure(error: E)
}
