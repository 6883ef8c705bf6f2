/** Option and Result: JavaScript's `undefined`/`null` and thrown errors, as values. */
module Wrappers {

  /** `None` stands for `undefined` or `null`, `Some(v)` for a present value. */
  datatype Option<+T> = None | Some(value: T)

  /** The settled state of a promise: resolved with a value, or rejected with an error. */
  datatype Result<+R, +E> = Success(value: R) | Failure(error: E)
}
