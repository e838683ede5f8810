/** Optional values (Java's null) and results of computations that can throw. */
module Wrappers {

  /** `None` stands for Java's `null`. */
  datatype Option<+T> = None | Some(value: T)

  /** `Failure` stands for an exception thrown out of the computation. */
  datatype Result<+T, +E> = Success(value: T) | Failure(error: E)
}
