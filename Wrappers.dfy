/** Optional values: an absent JSON key, a `null` navigation state, an unset error message. */
module Wrappers {

  datatype Option<+T> = None | Some(value: T) {

    /** The value, or `default` when absent (a JavaScript default parameter). */
    function GetOr(default: T): T {
      match this
      case Some(v) => v
      case None => default
    }
  }

  /** The outcome of an awaited request: the response body, or a thrown error. */
  datatype Outcome<+T> = Succeeded(data: T) | Failed
}
