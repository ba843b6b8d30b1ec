/** Option and Result: absent JSON values and the routes' error replies. */
module Wrappers {

  /** A value that may be absent (`undefined` or `null` in a JSON body). */
  datatype Option<+T> = None | Some(value: T) {

    /** The value, or `default` when absent (a destructuring default). */
    function GetOr(default: T): T {
      match this
      case Some(v) => v
      case None => default
    }
  }

  /** A successful answer or an error. */
  datatype Result<+R, +E> = Success(value: R) | Failure(error: E)
}
