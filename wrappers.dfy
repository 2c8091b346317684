/** Option and Result, used for absent protobuf fields and for the error paths of decoding and lookup. */
module Wrappers {

  datatype Option<+T> = None | Some(value: T)

  datatype Result<+R, +E> = Success(value: R) | Failure(error: E)
}
