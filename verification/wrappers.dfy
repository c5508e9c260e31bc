/** Failure-compatible wrappers used throughout the model: an optional value
    (the source's `None` / present) and a result that is either a value or a
    raised exception. */
module Wrappers {

  /** A value that may be absent, as Python's `None` or a missing dict key. */
  datatype Option<+T> = None | Some(value: T)

  /** A computation that either returns `value` or raises `error`. */
  datatype Result<+T, +E> = Success(value: T) | Failure(error: E)
}
