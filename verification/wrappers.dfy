/** Wrappers shared by the model: `Option` stands for a value that pandas
    would hold as NaN, `Result` for an operation that can raise. */
module Wrappers {

  /** `None` plays the role of a missing (NaN) cell. */
  datatype Option<+T> = None | Some(value: T)

  /** The outcome of an operation that either produces a value or fails. */
  datatype Result<+R, +E> = Success(value: R) | Failure(error: E)
}
