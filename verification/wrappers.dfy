/** The optional-value datatype every module of the model uses. */
module Wrappers {

  /** A value that may be absent: JavaScript's `undefined`/`null`, a missing key. */
  datatype Option<+T> = None | Some(value: T) {
    function GetOr(default: T): T {
      match this
      case Some(v) => v
      case None => default
    }
  }
}
