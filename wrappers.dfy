/** Optional values, used wherever the JavaScript code yields `undefined` or may not produce a value. */
module Wrappers {
  datatype Option<+T> = None | Some(value: T) {
    /** The value, or `fallback` for `None` (`x || fallback` for an object `x`). */
    function GetOr(fallback: T): T {
      if Some? then value else fallback
    }
  }
}
