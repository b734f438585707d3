/** Option and Result, used wherever the modelled Java code returns null or throws. */
module Wrappers {

  /** `None` stands for a Java `null`. */
  datatype Option<+T> = None | Some(value: T)

  /** `Failure` stands for an exception the Java code throws instead of returning. */
  datatype Result<+R, +E> = Success(value: R) | Failure(error: E)
}
