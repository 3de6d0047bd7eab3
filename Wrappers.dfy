/** Failure-carrying values shared by every module of the model. */
module Wrappers {

  datatype Option<+T> = None | Some(value: T)

  datatype Result<+T, +E> = Success(value: T) | Failure(error: E)

  /** The outcome of a check that either passes or raises. */
  datatype Outcome<+E> = Pass | Fail(error: E)

  /** An exception raised by the server code: an HTTPException carries a status
      code and a detail message; any other exception (ValueError, AttributeError,
      a database error) carries only its message. */
  datatype Error = Http(status: int, detail: string) | Internal(message: string)
}
