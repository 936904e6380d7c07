/** Optional values (Python's None), results (a value, or the exception that was raised), and
    dictionary entries that may be missing. */
module Wrappers {

  datatype Option<+T> = None | Some(value: T) {

    /** The value, or `default` when there is none. */
    function GetOr(default: T): T {
      match this
      case Some(v) => v
      case None => default
    }
  }

  datatype Result<+T, +E> = Ok(value: T) | Err(error: E)

  /**
    One key of a dictionary handed to an update: absent (the stored value is kept) or present
    with a value, which may itself be `None`.
  */
  datatype Field<+T> = Absent | Present(value: T) {

    /** `d.get(key, default)`. */
    function GetOr(default: T): T {
      match this
      case Present(v) => v
      case Absent => default
    }
  }
}
