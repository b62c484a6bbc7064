/** The two failure-carrying types the model uses for the server's `Option` and `Result`. */
module Options {
  datatype Option<+T> = None | Some(value: T)

  datatype Result<+T, +E> = Ok(value: T) | Err(error: E)
}
