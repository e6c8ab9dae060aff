/** Option and Result values: a JavaScript `undefined` field, a promise that
    resolves or rejects. */
module Wrappers {

  datatype Option<+T> = None | Some(value: T)

  /** A settled promise: resolved with a value or rejected with an error. */
  datatype Result<+R, +E> = Success(value: R) | Failure(error: E)
}
