/** Optional values: `None` stands for JavaScript's `undefined` (an absent field,
    a missing record) and for `NaN` where a number could not be parsed. */
module Wrappers {

  datatype Option<+T> = None | Some(value: T) {

    /** The value, or `default` when there is none (JavaScript's `x ?? default`). */
    function GetOr(default: T): T {
      match this
      case Some(v) => v
      case None => default
    }
  }
}
