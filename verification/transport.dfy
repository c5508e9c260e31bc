/** The HTTP exchange of `make_request`, reduced to what the client does with
    its outcome: the body, or the exception an HTTP status or a failure to
    connect turns into. */
module Transport {
  import opened Wrappers
  import opened Errors

  /** What one POST to the gateway produced. */
  datatype Wire<+B> =
    | Reply(body: B)
    /** The server answered with a non-2xx status. */
    | HttpError(code: int)
    /** The connection failed below HTTP (an `IOError`). */
    | IoFailure
    /** Anything else went wrong while sending. */
    | OtherFailure

  /** `make_request`'s exception mapping: 400 is a malformed request, 401 a
      bad key, 500 and 503 mean the service is unavailable, and every other
      failure is a connection problem. */
  function MakeRequest<B>(w: Wire<B>): (r: Result<B, GcmError>)
    ensures r.Success? <==> w.Reply?
    ensures r.Success? ==> r.value == w.body
    ensures r.Failure? && r.error == Unavailable <==> w.HttpError? && (w.code == 500 || w.code == 503)
    ensures r.Failure? ==> (IsRetriable(r.error) <==> !(w.HttpError? && (w.code == 400 || w.code == 401)))
  {
    match w
    case Reply(body) => Success(body)
    case HttpError(code) =>
      if code == 400 then Failure(MalformedJson)
      else if code == 401 then Failure(Authentication)
      else if code == 503 || code == 500 then Failure(Unavailable)
      else Failure(Connection)
    case IoFailure => Failure(Connection)
    case OtherFailure => Failure(Connection)
  }
}
