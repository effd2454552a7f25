/** Success-or-error values, standing in for an exception thrown by the
    calculator. */
module Results {

  datatype Result<T, E> = Success(value: T) | Failure(error: E)
}
