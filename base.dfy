/** Values shared by every module: Python's None and the exceptions the memory code can raise. */
module Base {

  /** A value that may be Python's None. */
  datatype Option<+T> = None | Some(value: T)

  /**
   * The exceptions the memory code lets escape:
   * IndexError from `readlines()[0]` on an empty record,
   * AttributeError from `sender_agent.name` while no sender is recorded.
   */
  datatype PyError = IndexError | AttributeError

  /** The outcome of a call that returns a value or raises. */
  datatype Result<+T> = Ok(value: T) | Err(error: PyError)
}
