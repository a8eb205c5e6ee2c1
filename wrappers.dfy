/// Option, Result and Outcome values shared by the modules of this model.
module Wrappers {

  datatype Option<+T> = None | Some(value: T)

  /** The value of a backend command or a fallible call: `Ok(v)` or `Err(message)`. */
  datatype Result<+T> = Ok(value: T) | Err(error: string)

  /** The outcome of a call that returns nothing but may fail with a message. */
  datatype Outcome = Pass | Fail(error: string)
}
