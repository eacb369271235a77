/** Option and Result values, and the Python exception kinds the tool front-end raises. */
module Wrappers {

  datatype Option<T> = None | Some(value: T) {
    /** The wrapped value, or `default` when there is none. */
    function GetOr(default: T): T {
      if Some? then value else default
    }
  }

  datatype Result<T, E> = Ok(value: T) | Err(error: E)

  /** The built-in Python exceptions that the tool functions let escape to their caller. */
  datatype PyError =
    | PermissionError(message: string)
    | ValueError(message: string)
    | KeyError(message: string)
}
