/** Small value types shared by every module of the model. */
module Common {

  /** A Java `null` / `Optional.empty()` or a JavaScript `undefined` is `None`. */
  datatype Option<+T> = None | Some(value: T)

  /** The outcome of an operation that either returns a value or raises an exception. */
  datatype Result<+T, +E> = Success(value: T) | Failure(error: E)

  /**
   * An abstract clock reading. Every `LocalDateTime.now()` taken during one
   * service call is the same reading, passed in by the caller.
   */
  type Timestamp = nat
}
