/** Failure-carrying results shared by every endpoint of the service. */
module Common {

  datatype Option<T> = None | Some(value: T)

  /** The ways a request can fail. The first four are the HTTP exceptions the
      routers raise; the last three are exceptions raised by collaborators
      (the database, the embedding service, the chat service) that propagate
      out of an endpoint uncaught. */
  datatype ErrorKind =
    | NotFound
    | Unauthorized
    | Forbidden
    | BadRequest(detail: string)
    | IntegrityError
    | EmbeddingFailed
    | GenerationFailed

  datatype Result<T> = Ok(value: T) | Err(error: ErrorKind)

  function Min(a: int, b: int): (m: int)
  {
    if a <= b then a else b
  }
}
