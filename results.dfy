/** Optional values (JavaScript's `undefined`/`null` versus a value) and
    outcomes that either succeed or raise an error. */
module Results {

  datatype Option<+T> = None | Some(value: T)

  datatype Result<+T, +E> = Success(value: T) | Failure(error: E)
}
