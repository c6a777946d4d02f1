/** The optional-value datatype used wherever the application reads
    something that may be absent (a JSON member, an uploaded file, a match). */
module Wrappers {

  datatype Option<+T> = None | Some(value: T) {

    /** The wrapped value, or `default` when there is none. */
    function GetOr(default: T): T {
      match this
      case Some(v) => v
      case None => default
    }
  }
}
