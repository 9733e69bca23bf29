/** Optional values and success/failure results, standing in for Python's
    `None` and for exceptions that a caller may observe. */
module Results {

  datatype Option<+T> = None | Some(value: T)

  datatype Result<+T, +E> = Success(value: T) | Failure(error: E)
}
