/** Option and Result, used for absent request fields, an absent task collection
    and the error answers of the status update. */
module Wrappers {

  datatype Option<+T> = None | Some(value: T)

  datatype Result<+R, +E> = Success(value: R) | Failure(error: E)
}
