/** The outcome of an operation that can fail with a fatal error. */
module Results {

  datatype Result<T> = Ok(value: T) | Err(message: string)
}
