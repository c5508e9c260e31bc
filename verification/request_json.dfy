/** `request_json`: one multicast request, without retries. The checks on
    the registration ids and the data come first, then `construct_payload`,
    then the request, whose reply is decoded into a `MulticastResponse`. */
module JsonRequest {
  import opened Wrappers
  import opened Errors
  import opened Transport
  import opened Payload
  import opened Response

  /** The gateway takes at most this many registration ids per request. */
  const MaxRegIds := 1000

  const NoData := "no data to send"

  /** The reply body as `json.loads` sees it. */
  datatype JsonBody = Decoded(response: MulticastResponse) | Undecodable

  /** The exception `request_json` raises before sending, if any: no ids,
      more than `MaxRegIds` ids, no data, then whatever `construct_payload`
      rejects, in that order. */
  function JsonError(ids: seq<string>, data: map<string, string>, collapseKey: Option<string>,
                     timeToLive: Option<int>): (e: Option<GcmError>)
    ensures e == Some(MissingRegistration) <==> |ids| == 0
    ensures e == Some(TooManyRegIds) <==> |ids| > MaxRegIds
    ensures e == Some(GcmException(NoData)) <==> 0 < |ids| <= MaxRegIds && |data| == 0
    ensures 0 < |ids| <= MaxRegIds && |data| > 0 ==> e == PayloadError(collapseKey, timeToLive)
  {
    if |ids| == 0 then Some(MissingRegistration)
    else if |ids| > MaxRegIds then Some(TooManyRegIds)
    else if |data| == 0 then Some(GcmException(NoData))
    else PayloadError(collapseKey, timeToLive)
  }

  /** Everything `request_json` does before the request: the checks, then
      the JSON payload. */
  function PrepareJson(ids: seq<string>, data: map<string, string>, collapseKey: Option<string>,
                       delayWhileIdle: bool, timeToLive: Option<int>): (r: Result<Payload, GcmError>)
    ensures r.Failure? <==> JsonError(ids, data, collapseKey, timeToLive).Some?
    ensures r.Failure? ==> r.error == JsonError(ids, data, collapseKey, timeToLive).value
  {
    match JsonError(ids, data, collapseKey, timeToLive)
    case Some(e) => Failure(e)
    case None => ConstructPayload(Multicast(ids), data, collapseKey, delayWhileIdle, timeToLive)
  }

  /** A prepared JSON payload carries the caller's ids and data unchanged. */
  lemma PreparedPayload(ids: seq<string>, data: map<string, string>, collapseKey: Option<string>,
                        delayWhileIdle: bool, timeToLive: Option<int>)
    requires JsonError(ids, data, collapseKey, timeToLive).None?
    ensures var p := PrepareJson(ids, data, collapseKey, delayWhileIdle, timeToLive).value;
            && "registration_ids" in p && p["registration_ids"] == TextList(ids)
            && "data" in p && p["data"] == Object(data)
            && ReadData(p) == data
  {
    ConstructShape(Multicast(ids), data, collapseKey, delayWhileIdle, timeToLive);
    ConstructKeepsData(Multicast(ids), data, collapseKey, delayWhileIdle, timeToLive);
  }

  /** The request and the decoding of its reply: `make_request`'s exception,
      Python's `ValueError` for a body that is not JSON, or the response. */
  function Exchange(wire: Wire<JsonBody>): (r: Result<MulticastResponse, GcmError>)
    ensures r.Success? <==> wire.Reply? && wire.body.Decoded?
    ensures r.Success? ==> r.value == wire.body.response
    ensures r == Failure(ValueError) <==> wire == Reply(Undecodable)
    ensures r.Failure? && r.error != ValueError ==> r == Failure(MakeRequest(wire).error)
  {
    match MakeRequest(wire)
    case Failure(e) => Failure(e)
    case Success(body) =>
      match body
      case Decoded(resp) => Success(resp)
      case Undecodable => Failure(ValueError)
  }

  /** `request_json`, with `wire` standing for what the one request, whose
      body is the payload `PrepareJson` builds, produced. A rejected request
      raises before anything is sent, so its outcome does not depend on
      `wire`; a retriable failure can only come from the exchange. */
  function RequestJson(ids: seq<string>, data: map<string, string>, collapseKey: Option<string>,
                       delayWhileIdle: bool, timeToLive: Option<int>, wire: Wire<JsonBody>)
    : (r: Result<MulticastResponse, GcmError>)
    ensures JsonError(ids, data, collapseKey, timeToLive).Some? ==>
              r == Failure(JsonError(ids, data, collapseKey, timeToLive).value)
    ensures r.Success? <==> JsonError(ids, data, collapseKey, timeToLive).None? && wire.Reply? && wire.body.Decoded?
    ensures r.Success? ==> r.value == wire.body.response
    ensures r.Failure? && IsRetriable(r.error) <==>
              JsonError(ids, data, collapseKey, timeToLive).None? && !wire.Reply?
              && !(wire.HttpError? && (wire.code == 400 || wire.code == 401))
  {
    match JsonError(ids, data, collapseKey, timeToLive)
    case Some(e) => Failure(e)
    case None => Exchange(wire)
  }

  /** Exactly 1000 ids are accepted; 1001 are refused before any request. */
  lemma RegIdLimit(ids: seq<string>, data: map<string, string>, collapseKey: Option<string>, timeToLive: Option<int>)
    requires |data| > 0 && PayloadError(collapseKey, timeToLive).None?
    ensures |ids| == 1000 ==> JsonError(ids, data, collapseKey, timeToLive).None?
    ensures |ids| == 1001 ==> JsonError(ids, data, collapseKey, timeToLive) == Some(TooManyRegIds)
  {
  }

  /** A malformed request (400) and a bad key (401) raise exceptions of the
      non-retriable family; 500 and 503 raise `Unavailable`. */
  lemma StatusOutcomes(ids: seq<string>, data: map<string, string>, collapseKey: Option<string>,
                       delayWhileIdle: bool, timeToLive: Option<int>)
    requires JsonError(ids, data, collapseKey, timeToLive).None?
    ensures RequestJson(ids, data, collapseKey, delayWhileIdle, timeToLive, HttpError(400)) == Failure(MalformedJson)
    ensures RequestJson(ids, data, collapseKey, delayWhileIdle, timeToLive, HttpError(401)) == Failure(Authentication)
    ensures FamilyOf(MalformedJson) == NoRetry && FamilyOf(Authentication) == NoRetry
    ensures RequestJson(ids, data, collapseKey, delayWhileIdle, timeToLive, HttpError(500)) == Failure(Unavailable)
    ensures RequestJson(ids, data, collapseKey, delayWhileIdle, timeToLive, HttpError(503)) == Failure(Unavailable)
  {
  }

  /** Three recipients, all delivered, the third with a replacement id. */
  function AllSuccessResponse(): MulticastResponse
  {
    MulticastResponse(3, 0, 1, [
      Entry(Some("5678"), None, None),
      Entry(Some("1234"), None, None),
      Entry(Some("1:2342"), None, Some("32"))])
  }

  /** Three recipients, none delivered: "Unavailable", "InvalidRegistration"
      and "NotRegistered". */
  function AllErrorResponse(): MulticastResponse
  {
    MulticastResponse(0, 3, 0, [
      Entry(None, Some("Unavailable"), None),
      Entry(None, Some("InvalidRegistration"), None),
      Entry(None, Some("NotRegistered"), None)])
  }

  /** The all-success reply to ids abc, def and ghi: no error, nothing to
      resend, and one replacement, ghi by 32. */
  lemma JsonRequestOk(data: map<string, string>)
    requires |data| > 0
    ensures var r := RequestJson(["abc", "def", "ghi"], data, None, false, None, Reply(Decoded(AllSuccessResponse())));
            && r == Success(AllSuccessResponse())
            && !HasError(r.value) && !HasResends(r.value) && HasCanonical(r.value)
            && GetCanonicalIds(r.value, ["abc", "def", "ghi"]) == [("ghi", "32")]
  {
    var results := AllSuccessResponse().results;
    assert Hits(results, Rotated, 2, 3) == [2];
  }

  /** The all-error reply: no success, an error, something to resend and no
      replacement. */
  lemma JsonRequestFail(data: map<string, string>)
    requires |data| > 0
    ensures var r := RequestJson(["abc", "def", "ghi"], data, None, false, None, Reply(Decoded(AllErrorResponse())));
            && r == Success(AllErrorResponse())
            && !HasSuccess(r.value) && HasError(r.value) && HasResends(r.value) && !HasCanonical(r.value)
  {
    var resp := AllErrorResponse();
    assert 0 in ResendLines(resp);
  }
}
