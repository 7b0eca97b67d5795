/** Option and Result values used for the outcomes of the ledger's operations. */
module Wrappers {

  /** A value that may be absent, such as a key missing from a JSON object. */
  datatype Option<+T> = None | Some(value: T)

  /** The outcome of an operation that either succeeds with a value or fails with an error. */
  datatype Result<+R, +E> = Success(value: R) | Failure(error: E)
}
