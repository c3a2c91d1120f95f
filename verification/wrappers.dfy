/** Option and Result, the two failure-carrying wrappers the rest of the model uses. */
module Wrappers {

  datatype Option<+T> = None | Some(value: T)

  /**
   * A value, or an error: the message `EmailAccountImportModal.tsx` (lines
   * 20-48) would throw, or the error a service call returns.
   */
  datatype Result<+T, +E> = Ok(value: T) | Err(error: E)
}
