/** Error replies and the optional/fallible wrappers the rest of the model uses. */
module Http {

  datatype Option<T> = None | Some(value: T)

  /** An HTTP error reply: the status code and the `detail` text. */
  datatype Error = Error(status: int, detail: string)

  /** The outcome of one endpoint call: a value, or the error that was raised. */
  datatype Result<T> = Ok(value: T) | Err(error: Error)
}
