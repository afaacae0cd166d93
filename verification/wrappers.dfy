/** Optional values: the model's stand-in for Python's `None`, for a missing
    session-state key, and for a foreign call that raised. */
module Wrappers {

  datatype Option<+T> = None | Some(value: T) {

    /** The wrapped value, or `default` when there is none. */
    function GetOr(default: T): T
    {
      match this
      case Some(v) => v
      case None => default
    }
  }
}
