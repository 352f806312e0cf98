/** Optional values and outcomes shared by every component of the rates pipeline. */
module Wrappers {

  /** A value that may be absent: Python's `None` or a missing dictionary key. */
  datatype Option<+T> = None | Some(value: T) {
    function GetOr(default: T): T {
      match this
      case Some(v) => v
      case None => default
    }

    /** Python's `a or b` on optional values: the first one that is present. */
    function OrElse(other: Option<T>): Option<T> {
      if Some? then this else other
    }
  }

  /** Exceptions that escape a step and end the run. */
  datatype PyError =
    | AttributeError  // an attribute looked up on an object that does not define it
    | IntegrityError  // a UNIQUE constraint of the local store rejected an insert
    | KeyError        // a dictionary read of a key that is not there

  /** What a step that may raise produces. */
  datatype Outcome<+T> = Returned(value: T) | Raised(error: PyError)
}
