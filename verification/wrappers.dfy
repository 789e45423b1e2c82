/** Nullable values of the plugin's Kotlin and Java code, as an explicit option type. */
module Wrappers {

  datatype Option<+T> = None | Some(value: T) {

    /** The wrapped value, or `default` when there is none (Kotlin's `?:`). */
    function GetOr(default: T): (r: T) {
      match this
      case Some(v) => v
      case None => default
    }
  }
}
