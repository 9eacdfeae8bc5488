/** Option, the model of a JavaScript value that may be `null` or a regular-expression match that may fail. */
module Wrappers {
  datatype Option<+T> = None | Some(value: T) {
    /** The value, or `default` when there is none (the "match or keep default" idiom). */
    function GetOr(default: T): T {
      match this
      case Some(v) => v
      case None => default
    }
  }
}
