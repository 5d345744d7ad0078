/** The HTTP error a request handler raises before or instead of answering. */
module Http {

  /** FastAPI's `HTTPException`: a status code and a detail message. */
  datatype HttpError = HttpError(status: int, detail: string)
}
