/** Failure-compatible wrappers shared by the other modules. */
module Wrappers {

  /** A value that may be absent: JavaScript's `null` match result or missing key. */
  datatype Option<+T> = None | Some(value: T) {

    /** The carried value, or `default` when there is none (JavaScript's `x || default`). */
    function GetOr(default: T): T {
      match this
      case Some(v) => v
      case None => default
    }
  }
}
