/** Option and Result types standing in for Java's null returns and exceptions. */
module Wrappers {

  /** `None` plays the role of a Java `null` reference. */
  datatype Option<+T> = None | Some(value: T)

  /** The outcome of a query that may fail with an exception. */
  datatype Result<+T, +E> = Ok(value: T) | Err(error: E)
}
