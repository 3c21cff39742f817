/** Optional values and results with an error, used wherever the PHP code
    returns null, throws, or hands back an error message. */
module Wrappers {

  datatype Option<+T> = None | Some(value: T)

  datatype Result<+R, +E> = Success(value: R) | Failure(error: E)
}
