/** Optional values and success-or-error results, standing for JavaScript's
    `undefined`/`null` and for the HTTP error responses of the controllers. */
module Wrappers {

  datatype Option<+T> = None | Some(value: T) {
    function GetOr(default: T): T {
      match this
      case Some(v) => v
      case None => default
    }
  }

  datatype Result<+R, +E> = Success(value: R) | Failure(error: E)
}
