/** The optional value used where the scripts return None or fall back to a default. */
module Wrappers {

  datatype Option<T> = None | Some(value: T) {

    function GetOr(default: T): T {
      match this
      case Some(v) => v
      case None => default
    }
  }
}
