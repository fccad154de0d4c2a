/** Success-or-failure values for the gateway's lookups and the renderer's results. */
module Wrappers {

  datatype Option<+T> = None | Some(value: T)

  /** The outcome of a call that either yields a value or fails with a message. */
  datatype Result<+T, +E> = Success(value: T) | Failure(error: E)
}
