/** The optional value used wherever the source has a nil pointer, a failed
    type assertion or a `(value, err)` pair whose value is only read on success. */
module Wrappers {

  datatype Option<+T> = None | Some(value: T) {

    /** Returns the value held in Some, or `default` for None. */
    function GetOr(default: T): T
    {
      match this
      case Some(v) => v
      case None => default
    }
  }
}
