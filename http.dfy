/** The parts of a `requests.Response` the core looks at. */
module Http {
  import opened Json

  /** Whether `response.json()` can decode the body. */
  datatype Body = NotJson | JsonBody(value: Json)

  datatype HttpResponse = HttpResponse(status: int, body: Body)

  /** `Response.raise_for_status()` raises `HTTPError` for client (4xx) and server (5xx) statuses. */
  predicate RaisesForStatus(status: int)
  {
    400 <= status < 600
  }

  /** A form-encoded POST body (`data=` of `requests.post`). */
  type Form = map<string, Json>
}
