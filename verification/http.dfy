/** Outcomes of a request handler: a value, an HTTPException with a status
    code and a detail message, or an exception that escapes the handler
    (which the web framework turns into a 500 response). */
module Http {

  datatype Error =
    | HttpError(status: nat, detail: string)
    | Uncaught(exception: string)

  datatype Result<T> = Ok(value: T) | Err(error: Error)

  const InvalidToken: Error := HttpError(401, "Invalid token")
  const NotAuthorized: Error := HttpError(403, "Not authorized")
}
