/** Optional values and results, standing in for Java's null, Optional and thrown exceptions. */
module Wrappers {

  /** A value that may be absent: Java's `null` or an empty `Optional`. */
  datatype Option<+T> = None | Some(value: T)

  /** Either a value or the message of the exception that was thrown instead. */
  datatype Result<+T> = Ok(value: T) | Err(message: string)
}
