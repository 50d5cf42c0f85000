/** Optional values and the outcome of one network request. */
module Wrappers {

  /** A value that may be absent: JavaScript's `null` / `undefined`. */
  datatype Option<+T> = None | Some(value: T) {
    function GetOr(default: T): T {
      match this
      case Some(v) => v
      case None => default
    }
  }

  /** What an awaited HTTP request delivered: the parsed response body, or a
      thrown error (network failure, timeout, non-2xx status). */
  datatype Outcome<+T> = Succeeded(response: T) | Failed
}
