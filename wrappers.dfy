/** The optional value used wherever the source can produce `undefined` or `null`. */
module Wrappers {

  datatype Option<+T> = None | Some(value: T) {

    /** The wrapped value, or `default` when there is none (JavaScript's `x || default`). */
    function GetOr(default: T): T {
      match this
      case Some(v) => v
      case None => default
    }
  }
}
