/** Failure-carrying wrappers used throughout the model: an I/O or parse
    error is a value, never an exception. */
module Results {

  /** Either a value or an error message (Rust's `Result<T, String>`, and
      `io::Result<T>` with the error kept as its rendered text). */
  datatype Result<+T> = Success(value: T) | Failure(error: string)

  /** An optional value. */
  datatype Option<+T> = None | Some(value: T)
}
