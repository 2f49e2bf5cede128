/** Option and Result, used for the optional rendering context and for errors
    that a collaborator (the tile grid) propagates as an exception. */
module Wrappers {

  datatype Option<+T> = None | Some(value: T)

  datatype Result<+R, +E> = Success(value: R) | Failure(error: E)
}
