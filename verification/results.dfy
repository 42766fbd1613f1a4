/** The success-or-error value of Rust's `Result`. */
module Results {
  datatype Result<+T, +E> = Ok(value: T) | Err(error: E)
}
