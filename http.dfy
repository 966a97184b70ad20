/** What a route handler hands back to the web framework: a body, or an
    `HTTPException` with its status code and detail message. */
module Http {

  datatype Response<+T> = Success(body: T) | HttpError(status: nat, detail: string)

  /** The status FastAPI answers with when a query parameter fails its
      declared bounds (`Query(ge=..., le=...)`); the exact error body is not
      modelled. */
  const UnprocessableEntity: nat := 422
  const ValidationDetail := "query parameter out of range"
}
