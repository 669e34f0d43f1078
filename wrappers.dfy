/** Optional values and error-or-value results, used for the `None`s and the exceptions
    of the queryset. */
module Wrappers {

  datatype Option<+T> = None | Some(value: T)

  datatype Result<+T, +E> = Success(value: T) | Failure(error: E)
}
