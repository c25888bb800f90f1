/** Optional values: JavaScript's `undefined`, `null` and `NaN` where the
    application treats them as "nothing". */
module Wrappers {

  datatype Option<+T> = None | Some(value: T) {
    /** `x || default` for a value that is falsy only when absent. */
    function GetOr(default: T): T {
      match this
      case Some(v) => v
      case None => default
    }

    /** `x || y` for two optional values. */
    function OrElse(other: Option<T>): Option<T> {
      if Some? then this else other
    }
  }
}
