/** Option and Result, the two ways the speech utilities report "no value":
    Python's None, and None together with the error message shown to the user. */
module Wrappers {

  datatype Option<+T> = None | Some(value: T)

  datatype Result<+T, +E> = Success(value: T) | Failure(error: E)
}
