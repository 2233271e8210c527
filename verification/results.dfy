/** Option and Result values standing for Python's `None` and for raised exceptions. */
module Results {

  datatype Option<+T> = None | Some(value: T)

  /** The exceptions the modelled code raises or lets propagate, keyed by Python class. */
  datatype Exc =
    | TypeError(message: string)
    | ValueError(message: string)
    /** `sqlite3.Error` raised by a statement on the store. */
    | SqlError(message: string)
    /** Any exception raised by the remote client (timeout, transport, malformed response). */
    | ApiError(message: string)
    /** `IndexError` raised by the caller's own code indexing an empty list. */
    | IndexError(message: string)

  /** Either the value a Python call returns, or the exception it raises. */
  datatype Result<+T> = Ok(value: T) | Err(error: Exc)
}
