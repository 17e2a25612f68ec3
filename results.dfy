/** Failure-compatible wrappers used across the model: `Option` for Python's
    `None`-or-value, `Result` for a value or the exception that replaces it. */
module Results {

  datatype Option<+T> = None | Some(value: T)

  datatype Result<+T, +E> = Ok(value: T) | Err(error: E)
}
