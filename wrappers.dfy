/** The optional value used across the model for Python's `None` and for
    operations that raise (an IndexError or a ValueError becomes `None`). */
module Wrappers {

  datatype Option<+T> = None | Some(value: T) {

    /** Returns the value in `Some`, or `default` for `None`. */
    function GetOr(default: T): T {
      match this
      case Some(v) => v
      case None => default
    }
  }
}
