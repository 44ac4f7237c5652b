/** The parts of HTTP the services observe: status codes, request methods and
    the outcome of an outbound request. */
module Http {
  import opened Base

  type StatusCode = c: int | 100 <= c <= 999 witness 200

  const OK: StatusCode := 200
  const BAD_REQUEST: StatusCode := 400
  const UNAUTHORIZED: StatusCode := 401
  const METHOD_NOT_ALLOWED: StatusCode := 405
  const INTERNAL_SERVER_ERROR: StatusCode := 500

  /** A request method, compared by name as `http::Method` is. */
  datatype Method = Method(name: string)

  const GET: Method := Method("GET")

  /** What one outbound GET produced: either the client could not send it, or a
      response arrived with a status and a JSON body that did or did not decode
      into the expected record (the decoder's error text on failure). */
  datatype Reply<T> =
    | SendFailed(reason: string)
    | Received(status: StatusCode, body: Result<T, string>)
}
