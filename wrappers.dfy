/** Option and Result values standing in for JavaScript's `undefined`/`null` and thrown errors. */
module Wrappers {

  datatype Option<+T> = None | Some(value: T)

  /** `Err(message)` is an `Error` thrown with that message; `Ok(value)` a normal return. */
  datatype Result<+T> = Ok(value: T) | Err(message: string)

  /** An argument check that returns normally or throws with a message. */
  datatype Check = Pass | Fail(message: string)
}
