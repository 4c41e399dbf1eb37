/** A value that may be absent: the model's stand-in for a JavaScript lookup
    that can come back `undefined` (a missing form entry, an unmatched cache
    key) or `null`. */
module Wrappers {

  datatype Option<+T> = None | Some(value: T) {

    /** Falls back to `fallback` when nothing is present, as `x || fallback` does. */
    function GetOr(fallback: T): T {
      if Some? then value else fallback
    }
  }
}
