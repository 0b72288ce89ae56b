/** Option and Result, the failure-carrying values used for absent fields,
    failed lookups and rejected promises throughout the model. */
module Wrappers {

  datatype Option<+T> = None | Some(value: T)

  /** Outcome of an asynchronous call: a resolved value or the error it was rejected with. */
  datatype Result<+R, +E> = Success(value: R) | Failure(error: E)
}
