/** Optional and failure-carrying values, standing for JavaScript's
    `undefined`/`null` and for the errors the dashboard raises. */
module Wrappers {

  datatype Option<T> = None | Some(value: T) {
    /** `x ?? default` */
    function GetOr(default: T): T {
      if Some? then value else default
    }
  }

  datatype Result<T, E> = Success(value: T) | Failure(error: E)
}
