/** The outcome of an operation that either produces a value or raises. */
module Results {

  datatype Result<+T, +E> = Success(value: T) | Failure(error: E)

}
