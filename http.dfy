/** The error a FastAPI route raises: `HTTPException(status_code, detail)`. */
module Http {
  datatype HttpError = HttpError(statusCode: int, detail: string)
}
