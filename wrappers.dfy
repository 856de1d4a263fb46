/** Option and Result values for the error paths of the model (a Python
    exception becomes a `Failure`, a missing value a `None`). */
module Wrappers {

  datatype Option<+T> = None | Some(value: T)

  datatype Result<+R, +E> = Success(value: R) | Failure(error: E)
}
