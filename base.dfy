/** Shared value types: optional values, results, and the Python exceptions the
    script can raise without catching them. */
module Base {

  datatype Option<+T> = None | Some(value: T)

  datatype Result<+T, +E> = Ok(value: T) | Err(error: E)

  /** The built-in exceptions that escape the script's functions (none of them is
      caught, so each one ends the collection cycle or the whole process). */
  datatype PyError =
    | KeyError        // missing key in a decoded JSON object
    | TypeError       // subscripting or taking len() of a value that does not support it
    | IndexError      // list index out of range
    | AttributeError  // e.g. `.encode()` on a non-string, `.status_code` on a Session
    | ValueError      // unpacking, int() or datetime() rejecting its argument, bad JSON
    | OverflowError   // datetime() given an hour or minute that does not fit a C int
}
