/** Failure-compatible wrappers shared by the other modules. */
module Wrappers {

  /** Python's `Optional[T]`: `None` or a value. */
  datatype Option<+T> = None | Some(value: T)

  /** The `(success, data_or_error_message)` pairs the plugin's helpers return. */
  datatype Result<+T> = Success(value: T) | Failure(error: string)
}
