/** Option and Result, the two wrappers the model uses for Kotlin's nullable
    values and for the task's fatal errors. */
module Wrappers {

  /** A Kotlin `T?`: either absent (`null`) or a value. */
  datatype Option<+T> = None | Some(value: T)

  /** The outcome of an operation that can abort with a message (Kotlin's `error(...)`). */
  datatype Result<+R, +E> = Success(value: R) | Failure(error: E)
}
