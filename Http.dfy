/** The error both mock providers answer with. */
module Http {
  /** A FastAPI `HTTPException`: a status code and its detail text. Where the
      providers put a JSON error envelope in the detail, the detail here is
      the envelope's message. */
  datatype HttpException = HttpException(statusCode: int, detail: string)
}
