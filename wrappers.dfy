/** Option and Result, used for "no stake on this network" and for the
    projection's overflow failure. */
module Wrappers {

  datatype Option<+T> = None | Some(value: T)

  datatype Result<+R, +E> = Success(value: R) | Failure(error: E)
}
