/** Option and Result, the two wrappers the model uses for "maybe absent"
    (a nil pointer in the source) and "succeeded or failed with a message"
    (a Go `error` return). */
module Wrappers {

  datatype Option<+T> = None | Some(value: T)

  datatype Result<+R, +E> = Success(value: R) | Failure(error: E)
}
