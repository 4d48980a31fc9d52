/** Optional values, used wherever the source has a nullable field or an absent parameter. */
module Wrappers {

  datatype Option<+T> = None | Some(value: T) {

    /** The value inside Some, or the given default. */
    function GetOr(default: T): T {
      match this
      case Some(v) => v
      case None => default
    }
  }

  /** Python truthiness of an optional text parameter: present and non-empty. */
  predicate Provided(s: Option<string>) {
    s.Some? && s.value != ""
  }
}
