/** The outcome of an operation that raises `ValueError` on bad input in the
    source: either a value or the kind of error raised. */
module Results {
  datatype Result<T, E> = Ok(value: T) | Err(error: E)
}
