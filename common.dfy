/** Value types shared by the backend and frontend models. */
module Common {

  /** A value that may be absent: Python's None, JavaScript's null/undefined. */
  datatype Option<+T> = None | Some(value: T)

  /** The outcome of a call that may raise (Python) or reject (JavaScript). */
  datatype Result<+T, +E> = Ok(value: T) | Err(error: E)

  /** One octet, as in a Uint8Array or a Python bytes object. */
  type byte = b: int | 0 <= b < 256

  /** What FastAPI sends back when an HTTPException (or an unhandled exception) ends a request. */
  datatype HttpError = HttpError(status: int, detail: string)
}
