/** Optional values: a key that is present in a JSON object, or absent. */
module Wrappers {

  datatype Option<+T> = None | Some(value: T) {

    /** The value when present, the default when absent (Python's `dict.get(key, default)`). */
    function GetOr(default: T): T {
      match this
      case Some(v) => v
      case None => default
    }
  }
}
