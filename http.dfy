/** Outcomes shared by every layer: an optional value, the two ways a Python call
    can fail (an HTTPException carrying a status code, or any other exception that
    escapes to the framework), and the HTTP status codes the services use. */
module Http {

  datatype Option<+T> = None | Some(value: T)

  /** `HttpError` is a raised `fastapi.HTTPException`; `Crash` is any other
      exception (TypeError, AttributeError, KeyError) that nothing catches. */
  datatype Failure = HttpError(status: int, detail: string) | Crash(error: string)

  datatype Result<+T> = Ok(value: T) | Err(failure: Failure)

  const OK_200: int := 200
  const CREATED_201: int := 201
  const ACCEPTED_202: int := 202
  const BAD_REQUEST_400: int := 400
  const UNAUTHORIZED_401: int := 401
  const NOT_FOUND_404: int := 404
  const NOT_ACCEPTABLE_406: int := 406
  const CONFLICT_409: int := 409
}
