/** The optional value used where the JavaScript source has `null` or `undefined`. */
module Wrappers {

  datatype Option<+T> = None | Some(value: T) {

    /** The JavaScript idiom `x || fallback` for a value that is either absent or
        present. JavaScript also falls back when `x` is the empty string; every
        use here has the empty string as the fallback, so the two agree. */
    function GetOr(fallback: T): T {
      match this
      case Some(v) => v
      case None => fallback
    }
  }
}
