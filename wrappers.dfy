/** Option and Result: the end-of-sequence marker of the iterators and the
    error returns of lookups and constructions. */
module Wrappers {

  datatype Option<+T> = None | Some(value: T)

  datatype Result<+T, +E> = Success(value: T) | Failure(error: E)
}
