/** Failure-carrying values used for every fallible call in the linking flow. */
module Results {

  /** A value that may be absent (a session key that was never set, a missing refresh token). */
  datatype Option<+T> = None | Some(value: T)

  /** The result of an upstream call: a value, or an error whose text is only logged. */
  datatype Result<+T> = Ok(value: T) | Err(error: string)

  /** The result of a call that returns nothing on success. */
  datatype Outcome = Pass | Fail(message: string)
}
