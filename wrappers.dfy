/** Optional values and results with an error, used for the places where the
    game either finds nothing or refuses an operation. */
module Wrappers {

  datatype Option<T> = None | Some(value: T)

  datatype Result<T, E> = Success(value: T) | Failure(error: E)
}
