/** Optional values and pass/fail outcomes shared by every module of the model. */
module Wrappers {

  /** A value that may be absent: JavaScript's `undefined`/`null`. */
  datatype Option<T> = None | Some(value: T)

  /** The outcome of an operation that returns nothing or throws an `Error` with a message. */
  datatype Outcome = Pass | Fail(message: string)
}
