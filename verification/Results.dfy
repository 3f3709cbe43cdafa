/** The outcome of an operation that can fail. */
module Results {
  datatype Result<T> = Success(value: T) | Failure(error: string)
}
