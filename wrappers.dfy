/** Small value wrappers shared by the other modules. */
module Wrappers {

  /** A value that may be absent: a null `const char*` slot, an unset field. */
  datatype Option<+T> = None | Some(value: T)

  /** The result of code that either produces a value or ends the program
      with `exit(status)`. */
  datatype Outcome<+T> = Ok(value: T) | Exit(status: int)
}
