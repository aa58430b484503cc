/** Failure-carrying wrappers shared by the whole model. Java's `null` becomes
    `None`, and an exception that escapes an operation becomes `Err`. */
module Base {

  datatype Option<+T> = None | Some(value: T)

  /** The outcome of an operation that may throw: `Err` carries the message
      of the exception. */
  datatype Result<+T> = Ok(value: T) | Err(message: string)

  /** What the network or the file system hands back when asked for a
      document: its parsed content, or the reason the read or the parse failed. */
  datatype Fetch<+T> = Fetched(content: T) | FetchFailed(reason: string)
}
