/** Failure-carrying result types: the model returns an error value where the
    C code calls errOutput and terminates. */
module Wrappers {

  datatype Option<+T> = None | Some(value: T)

  datatype Result<+R, +E> = Success(value: R) | Failure(error: E)
}
