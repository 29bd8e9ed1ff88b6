/** Success/failure values standing in for the `None` returns of the
    script: every early `return None` becomes a `Failure` carrying the
    reason the script prints. */
module Results {

  datatype Result<+T, +E> = Success(value: T) | Failure(error: E)
}
