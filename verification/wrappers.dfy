/** Option and Result, the two wrappers the engine model uses for "no mark" and
    for a move that either yields a new state or fails with an error. */
module Wrappers {

  datatype Option<+T> = None | Some(value: T)

  datatype Result<+R, +E> = Success(value: R) | Failure(error: E)
}
