/** The optional and result types shared by the codec and the mapping engine. */
module Wrappers {

  /** An optional value: Python's `Optional[T]`, where `None` is the absent case. */
  datatype Option<+T> = None | Some(value: T)

  /** The outcome of an operation that raises an exception in the source on failure. */
  datatype Result<+R, +E> = Success(value: R) | Failure(error: E)
}
