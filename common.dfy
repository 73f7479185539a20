/** Values shared by every module: Python's optional values and the
    exceptions the modelled code raises instead of returning. */
module Common {

  datatype Option<+T> = None | Some(value: T)

  /** The Python exceptions raised by the modelled code paths. */
  datatype PyError = AssertionError | KeyError | IndexError | ValueError | AttributeError

  /** The outcome of a Python call: a value, or the exception it raised. */
  datatype Result<+T> = Ok(value: T) | Err(error: PyError)
}
