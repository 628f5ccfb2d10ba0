/** `Option` stands for a nullable reference, `Result` for an operation
    that may raise. */
module Wrappers {

  /** A nullable reference: `None` is C#'s `null`. */
  datatype Option<+T> = None | Some(value: T)

  /** The outcome of an operation that raises instead of returning. */
  datatype Result<+T, +E> = Success(value: T) | Failure(error: E)
}
