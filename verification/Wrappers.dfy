// Result types shared by every module.  The Python code reports a missing value as None and a
// failure as an exception; both become ordinary values here.
module Wrappers {

  datatype Option<+T> = None | Some(value: T)

  datatype Result<+R, +E> = Success(value: R) | Failure(error: E)
}
