/** Option and Result types standing for JavaScript's `undefined` and for thrown errors. */
module Wrappers {

  datatype Option<T> = None | Some(value: T)
  {
    function UnwrapOr(default: T): T
    {
      if Some? then value else default
    }
  }

  /** A thrown JavaScript error: its `name` (e.g. "Error", "TypeError") and its `message`. */
  datatype Error = Error(name: string, message: string)

  datatype Result<T> = Ok(value: T) | Err(error: Error)

  /** An error built with `new Error(message)`, whose name is "Error". */
  function Fail(message: string): Error
  {
    Error("Error", message)
  }
}
