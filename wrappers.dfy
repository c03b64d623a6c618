/** Option and Result: Java's nullable references and thrown exceptions as values. */
module Wrappers {

  /** A nullable Java reference: `None` stands for `null`. */
  datatype Option<+T> = None | Some(value: T)

  /** The outcome of a constructor that either returns an object or throws. */
  datatype Result<+R, +E> = Success(value: R) | Failure(error: E)
}
