/** Option: the `None`-or-value results of the scripts (a missing XML element, a failed parse). */
module Wrappers {
  datatype Option<+T> = None | Some(value: T) {
    function GetOr(default: T): T {
      match this
      case Some(v) => v
      case None => default
    }
  }
}
