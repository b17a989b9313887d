/** Option and Result types for the values the Java code represents with null
    or with an exception. */
module Wrappers {

  datatype Option<+T> = None | Some(value: T)

  /** The outcome of a step that either yields a value or stops the whole run
      (an exception nobody catches, or a call to Runtime.halt). */
  datatype Result<+T> = Ok(value: T) | Err(reason: string)
}
