/** Optional values (an absent query-string parameter, a row that was not found) and
    results that either succeed or carry the handler's error answer. */
module Wrappers {

  datatype Option<+T> = None | Some(value: T)

  datatype Result<+T, +E> = Success(value: T) | Failure(error: E)
}
