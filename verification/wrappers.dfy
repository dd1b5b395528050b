/** Option and Result, used for Go's nil-able values and for operations that can panic. */
module Wrappers {

  /** A value that may be absent, as a nil `error` or a nil result channel is in Go. */
  datatype Option<+T> = None | Some(value: T)

  /** Either a value or the failure that stopped the operation producing it. */
  datatype Result<+T, +E> = Success(value: T) | Failure(error: E)
}
