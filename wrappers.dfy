/** The optional value of the sources' `T | null | undefined` fields. */
module Wrappers {

  datatype Option<+T> = None | Some(value: T) {

    /** The value in Some, or `default` when None. */
    function GetOr(default: T): T {
      match this
      case Some(v) => v
      case None => default
    }
  }

  /** JavaScript truthiness of an optional string: null, undefined and "" are all falsy. */
  predicate Truthy(s: Option<string>) {
    s.Some? && s.value != ""
  }
}
