/** What an endpoint hands back: a value, or one of the failures the HTTP
    layer turns into a status code. */
module Outcomes {

  datatype Option<T> = None | Some(value: T)

  /** `HTTPException(404)`, `HTTPException(422)`, and an uncaught Python
      exception (`KeyError`, `IndexError`), which the framework answers
      with 500. */
  datatype Failure = NotFound | Unprocessable | InternalError

  datatype Result<T> = Ok(value: T) | Err(error: Failure)
}
