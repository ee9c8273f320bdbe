/** Option and Result, used for the null returns and thrown errors of the source. */
module Wrappers {

  /** `None` stands for a JavaScript `null` (or `undefined`) value. */
  datatype Option<+T> = None | Some(value: T)

  /** `Failure` stands for an exception that propagates out of an operation. */
  datatype Result<+R, +E> = Success(value: R) | Failure(error: E)
}
