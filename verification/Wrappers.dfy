/** Time, optional values, results that carry an error, and the outcome of a remote write. */
module Wrappers {

  /** Instants are integers; unit and zero point are irrelevant. */
  type Time = int

  datatype Option<+T> = None | Some(value: T)

  datatype Result<+T, +E> = Ok(value: T) | Err(error: E)

  /** How one database write ends: reported done, applied although reported failed
      (the reply was lost), or failed without effect. */
  datatype Write = Written | WrittenButFailed | NotWritten {
    predicate Applied() { this != NotWritten }
  }
}
