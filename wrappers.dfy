/** Optional values (Java's nullable references, JavaScript's undefined) and results. */
module Wrappers {

  /** `None` stands for Java's null or JavaScript's undefined. */
  datatype Option<+T> = None | Some(value: T)

  /** The value of an operation that can throw: `Failure` carries what was thrown. */
  datatype Result<+R, +E> = Success(value: R) | Failure(error: E)
}
