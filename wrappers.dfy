/** Optional values and results: Go's `nil`-or-value returns and `(value, error)` pairs. */
module Wrappers {

  /** An optional value: `None` stands for Go's nil, or for "no such entry". */
  datatype Option<+T> = None | Some(value: T)

  /** A value or an error, as returned by Go functions of the form `(T, error)`. */
  datatype Result<+T, +E> = Success(value: T) | Failure(error: E)
}
