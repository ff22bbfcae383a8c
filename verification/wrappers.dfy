/** Failure-carrying values shared by the other modules. */
module Wrappers {

  /** A value that may be absent: a `querySelector` miss, a NaN count, an unmatched tier. */
  datatype Option<+T> = None | Some(value: T)

  /** Either a value or the reason it could not be produced. */
  datatype Result<+R, +E> = Success(value: R) | Failure(error: E)
}
