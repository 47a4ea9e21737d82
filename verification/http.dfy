/** What the provider clients see of an HTTP exchange: the status line and
    the body as `res.json()` parses it. */
module Http {
  import opened Wrappers

  /** A `fetch` response; `body` is `None` when `res.json()` rejects the
      body. A body that parses to JSON of some other shape is not
      represented. */
  datatype Response<T> = Response(status: int, statusText: string, body: Option<T>)

  /** `res.ok`: a 2xx status. */
  predicate Ok<T>(r: Response<T>) {
    200 <= r.status <= 299
  }

  datatype Service = OpenDota | Tmdb

  /** The failures the provider clients raise: a non-2xx status (thrown
      with status and status text), a body `res.json()` rejects, and a missing
      movie-service key. */
  datatype ApiError =
    | StatusError(service: Service, status: int, statusText: string)
    | MalformedBody(service: Service)
    | MissingApiKey

  /** `if (!res.ok) throw ...; return res.json()` */
  function Receive<T>(service: Service, r: Response<T>): (out: Result<T, ApiError>)
    ensures out.Success? <==> Ok(r) && r.body.Some?
    ensures out.Success? ==> out.value == r.body.value
    ensures !Ok(r) ==> out == Failure(StatusError(service, r.status, r.statusText))
  {
    if !Ok(r) then Failure(StatusError(service, r.status, r.statusText))
    else if r.body.None? then Failure(MalformedBody(service))
    else Success(r.body.value)
  }
}
