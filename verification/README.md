# A model of the python-gcm multicast client

This project models, in Dafny, the core of `python-gcm`, a client for
Google Cloud Messaging (GCM).

- **Payloads.** The client builds a request payload with
  `construct_payload`, in either JSON (multicast) or plaintext (single
  recipient) form.
- **Requests.** It sends the payload with `make_request`, which turns HTTP
  failures into its own exception hierarchy. `request_json` makes one
  multicast request; `request_plaintext` makes a single-recipient request
  inside a blocking retry loop with exponential backoff.
- **Plaintext replies.** It parses a plaintext reply with
  `handle_plaintext_response` and `raise_error`.
- **Multicast replies.** It reads a multicast reply through
  `GCM_response_wrapper`, which has three counters (`success`, `failure`,
  `canonical_ids`) and one result per recipient. Results are correlated with
  the caller's registration ids by position only. The wrapper yields the ids
  that were delivered, the ids to drop (`NotRegistered` or
  `InvalidRegistration`), the ids to resend (`Unavailable`), and the (old id,
  replacement id) pairs.
- **Sample senders.** The two sample senders (`multicast_client_sample.py`
  and `gcm/client_sample.py`) drive `request_json` in a bounded loop. After
  each reply they reconcile a device registry (`parse_response`). They narrow
  the next attempt to the ids to resend. They return `True` only when a reply
  leaves nothing to resend.

The modules follow the source.

| module | models |
|---|---|
| `Errors` | the exception classes and `raise_error` |
| `Transport` | the status mapping of `make_request` |
| `Payload` | `construct_payload` |
| `Response` | `GCM_response_wrapper` |
| `Plaintext` | `handle_plaintext_response` and `request_plaintext` |
| `JsonRequest` | `request_json` |
| `Reconcile` | `parse_response` |
| `Retry` | the shape of the samples' loop, generic in what one attempt does |
| `Driver` | that loop instantiated with `request_json` and `parse_response` |
| `MulticastSample`, `ClientSample` | the two `send_notification` functions |

`Wrappers`, `Seqs` and `Text` hold `Option`/`Result`, subsequences, and
Python's `strip`/`split`.

The outside world becomes inputs:

- **Gateway replies.** What the gateway does on request `k` is `script[k]`:
  a reply body, an HTTP status, an `IOError`, or another failure.
- **Randomness.** The random part of the `k`-th plaintext backoff is
  `jitter[k]`.
- **Clock.** `str(datetime.now())` is a `now` parameter.
- **Sleeps.** They are counted (the samples) or listed in milliseconds
  (`request_plaintext`), never slept.

A decoded JSON reply is a `MulticastResponse` value. A body that
`json.loads` rejects is Python's `ValueError`. `ValueError` derives from
neither the retriable nor the non-retriable family, so the samples'
`except Exception` ends their loop on it.

One behaviour of the code stands out in the model.

- `has_resends` looks at every result.
- `get_resend_ids` stops at the first "Unavailable" result past the caller's
  last id.
- So a reply with more results than ids can call for another round with
  nothing to resend.
- The next `request_json([])` then raises `GCMMissingRegistrationException`,
  and the samples return `False` although every id was handled.

`Driver.OverlongReplyEndsRefused` exhibits this.

The converse also holds: `True` does not mean every id got a result. A reply
with fewer results than ids, and no failure counted, ends the loop with
`True`; the ids past the last result were never answered.
`Driver.ShortReplySucceeds` exhibits this.

In these places the code behaves in ways worth noting, and the model
follows it:

- **Empty collapse key.** An empty collapse key is accepted with a time to
  live; only `None` is refused (`gcm/gcm.py:71`). An empty key is also not
  written into the payload.
- **Time to live of 0.** A time to live of 0 counts as "not given"
  (`if time_to_live:`), so it is neither checked nor written.
- **The 1000-id cap.** It is checked by `request_json`, not by
  `construct_payload`.
- **Rotated ids.** They are not substituted into the next attempt. The next
  attempt goes to the caller's ids at the positions to resend, and the
  rotation only changes the registry records.
- **Plaintext retries.** Only `GCMUnavailableException` is retried. A failed
  connection (`GCMConnectionException`) escapes at once.

## Model

| member | source | states |
|---|---|---|
| Errors.FamilyOf | gcm/gcm.py:12-28 | the base class each exception derives from: retriable, non-retriable, or neither |
| Errors.IsRetriable | gcm/gcm.py:12-28 | what `except GCMRetriableException` catches |
| Errors.RetriableFamily | gcm/gcm.py:12-28 | only `GCMConnectionException` and `GCMUnavailableException` are retriable; a plain `GCMException` and the Python built-ins derive from neither family |
| Errors.RaiseError | gcm/gcm.py:122-136 | the exception is retriable exactly for "Unavailable"; it is a plain `GCMException` carrying the code exactly when the code is not one of the five known codes; the other four codes raise a `GCMNoRetryException` subclass |
| Errors.RaiseErrorRoundTrip | gcm/gcm.py:122-136 | each known code maps to a distinct exception that maps back to the code |
| Transport.MakeRequest | gcm/gcm.py:103-120 | a body is returned exactly when the request got a reply; `GCMUnavailableException` comes exactly from 500 and 503; every failure is retriable except 400 and 401 |
| Payload.Flatten | gcm/gcm.py:59-64 | the intended plaintext renaming: each data entry `k` appears as `data.k` with its own value, and every key of the result is such a prefixed key of an entry (see Findings for the in-place loop) |
| Payload.RenameInPlace | gcm/gcm.py:61-63 | the renaming loop as written: each key of the snapshot, in turn, popped and stored again under `data.k` in the same dictionary |
| Payload.RenameMatchesFlatten | gcm/gcm.py:61-63 | when no key `k` sits beside `data.k`, the in-place renaming loop yields exactly `Flatten`'s entries, whatever order the key snapshot takes |
| Payload.CollidingKeysLoseEntry | gcm/gcm.py:61-63 | with `{"a": "1", "data.a": "2"}` and `a` first in the snapshot, the in-place loop ends with the single entry `data.data.a` carrying `"1"`, unlike `Flatten` |
| Payload.DataKeysAvoidControlKeys | gcm/gcm.py:60-64 | a `data.`-prefixed key never collides with `registration_id` or an option key |
| Payload.Body | gcm/gcm.py:55-64 | the JSON body has the id list and, exactly when the data is non-empty, the data object; the plaintext body has the one id and the flattened data, and no control key besides the id |
| Payload.WithOptions | gcm/gcm.py:66-75 | each option is written exactly when truthy, with its value; every other entry is kept and none is added |
| Payload.PayloadError | gcm/gcm.py:51-72 | `InvalidTtl` exactly for a nonzero time to live outside [0, 2419200]; `NoCollapseKey` exactly for a valid nonzero time to live with a `None` collapse key; no other error |
| Payload.ConstructPayload | gcm/gcm.py:39-80 | fails exactly as `PayloadError` says; a built payload carries each of the three options exactly when it is truthy, with its value |
| Payload.ConstructShape | gcm/gcm.py:55-75 | a JSON payload holds only control keys: the id list and the data object exactly when there is data; a plaintext payload holds the id and every entry under its `data.` key, and nothing else but control keys |
| Payload.ConstructKeepsData | gcm/gcm.py:55-64 | reading the message body back from a built payload gives exactly the caller's data, in both forms, with the intended plaintext renaming |
| Payload.AllOptionsExample | gcm/test.py:74-81 | a JSON payload with collapse key, delay and time to live carries all five keys |
| Payload.RefusedExamples | gcm/test.py:83-85 | a time to live without a collapse key raises `NoCollapseKey`; 5000000 and -10 raise `InvalidTtl` |
| Payload.EmptyCollapseKeyExample | gcm/gcm.py:69-75 | an empty collapse key with a time to live is accepted, and the payload has a time to live but no collapse key |
| Payload.PlaintextExample | gcm/test.py:96-101 | a plaintext payload carries `registration_id`, `data.param1` and `data.param2` |
| JsonRequest.JsonError | gcm/gcm.py:215-225 | `MissingRegistration` exactly for no ids, `TooManyRegIds` exactly above 1000 ids, the no-data `GCMException` exactly for valid ids and no data, and otherwise the payload's own error |
| JsonRequest.PrepareJson | gcm/gcm.py:215-225 | the request fails before sending exactly when `JsonError` names an exception, and with that exception |
| JsonRequest.PreparedPayload | gcm/test.py:87-94 | a prepared JSON payload carries the caller's id list and data unchanged |
| JsonRequest.Exchange | gcm/gcm.py:226-238 | a response comes back exactly when the body decodes; an undecodable body is `ValueError`; any other failure is `make_request`'s |
| JsonRequest.RequestJson | gcm/gcm.py:203-227 | a refused request fails with the guard's exception whatever the gateway does; it succeeds exactly when the checks pass and the reply decodes; it fails retriably exactly when the checks pass and the transport failed other than with 400 or 401 |
| JsonRequest.RegIdLimit | gcm/test.py:103-111 | 1000 ids pass the checks; 1001 raise `TooManyRegIds` |
| JsonRequest.StatusOutcomes | gcm/gcm.py:105-113 | 400 and 401 raise non-retriable exceptions; 500 and 503 raise `Unavailable` |
| JsonRequest.JsonRequestOk | gcm/test.py:158-172 | the all-success reply has no error and no resends; it has one replacement, which is for `ghi` |
| JsonRequest.JsonRequestFail | gcm/test.py:174-185 | the all-error reply has no success, has an error and resends, and has no replacement |
| Response.HasError | gcm/gcm.py:240-241 | `has_error`: the failure counter is positive |
| Response.HasCanonical | gcm/gcm.py:243-244 | `has_canonical`: the canonical counter is positive |
| Response.HasSuccess | gcm/gcm.py:246-247 | `has_success`: the success counter is positive |
| Response.HasResends | gcm/gcm.py:249-250 | `has_resends`: a failure is counted and `_get_resends` finds at least one line |
| Response.ResendsSpec | gcm/gcm.py:249-250 | `has_resends` holds exactly when a failure is counted and some result, at any position, says "Unavailable" |
| Response.Hits | gcm/gcm.py:266-275 | the extractor loop: qualifying positions in order, a qualifying position at or past the bound ending the walk |
| Response.HitsSpec | gcm/gcm.py:266-275 | the loop with the early `break` lists exactly the qualifying positions below the bound, in increasing order |
| Response.ResendLines | gcm/gcm.py:303-317 | every "Unavailable" position, in order, with no bound; none when no failure is counted |
| Response.Below | gcm/gcm.py:331-337 | the leading lines below the id count; the first line at or past it ends the list |
| Response.GetSuccesses | gcm/gcm.py:252-275 | empty without ids or without a counted success; otherwise the order-preserving selection of the ids whose result has a `message_id` |
| Response.GetUnregisterErrors | gcm/gcm.py:277-301 | empty without ids or without a counted failure; otherwise the selection of the ids whose result is `NotRegistered` or `InvalidRegistration` |
| Response.GetResendIds | gcm/gcm.py:319-338 | empty without ids or without a counted failure; otherwise the selection of the ids whose result is `Unavailable` |
| Response.GetCanonicalIds | gcm/gcm.py:340-364 | empty without ids or without a counted replacement; otherwise (id, replacement) for each id whose result carries a `registration_id`, in order |
| Response.ExtractedLength | gcm/gcm.py:261-275 | an extracted list is a subsequence of the ids and no longer than either the ids or the results |
| Response.ExtractedDisjoint | gcm/gcm.py:294-317 | with distinct ids, categories that exclude each other extract disjoint lists |
| Response.ResendAndUnregisterDisjoint | gcm/gcm.py:277-338 | with distinct ids, no id is both resent and dropped |
| Response.CanonicalIgnoresStatus | gcm/gcm.py:355-364 | the replacement pairs depend only on the canonical counter and each result's `registration_id` |
| Response.ResendsWithoutResendIds | gcm/gcm.py:249-250 | `has_resends` implies `has_error`; an overlong reply has resends with no id to resend |
| Response.MixedScenario | gcm/test.py:202-213 | the six-recipient reply: all four predicates hold; 8 is resent; 15 and 42 are dropped; 23 becomes 32; 4, 16 and 23 are delivered; every list is empty for no ids |
| Plaintext.HandlePlaintextResponse | gcm/gcm.py:138-155 | an empty reply is "no response"; the only retriable failure is `Unavailable`; a value comes back only from a two-line reply and contains no `=` |
| Plaintext.ReadLines | gcm/gcm.py:147-155 | reading the lines of a reply: the only retriable failure is `Unavailable`; a value comes back only when there are exactly two lines, and it contains no `=` |
| Text.SplitJoin | gcm/gcm.py:143-148 | splitting a join of separator-free parts gives the parts back |
| Plaintext.ReplyLines | gcm/gcm.py:143 | lines free of line breaks, with visible characters at both ends, joined by line breaks are read back line for line |
| Plaintext.ManyLineReply | gcm/gcm.py:151-155 | a reply of three or more lines whose first key is not `Error` yields nothing |
| Plaintext.ErrorFirstLine | gcm/gcm.py:147-150 | a first line `Error=<code>` raises what `raise_error` assigns to the code, whatever lines follow |
| Plaintext.MalformedFirstLine | gcm/gcm.py:148 | a first line with no `=` or with more than one raises `ValueError`, whatever lines follow |
| Plaintext.ErrorReply | gcm/gcm.py:147-150 | `Error=<code>` raises what `raise_error` assigns to the code |
| Plaintext.OneLineReply | gcm/gcm.py:151-155 | a one-line reply with another key yields nothing |
| Plaintext.TwoLineReply | gcm/gcm.py:151-153 | a two-line reply yields the value of its second line |
| Plaintext.NotRegisteredReply | gcm/test.py:127-130 | `Error=NotRegistered` raises `NotRegistered` |
| Plaintext.IdReply | gcm/test.py:132-134 | `id=23436576` yields nothing |
| Plaintext.RotatedIdReply | gcm/test.py:136-138 | a reply with a second line `registration_id=3456` yields `3456` |
| Plaintext.NextBackoff | gcm/gcm.py:196-199 | the next backoff never exceeds 1024000 ms, and never falls below a backoff within the cap |
| Plaintext.BackoffAt | gcm/gcm.py:188-199 | the backoff always lies between 1000 and 1024000 ms |
| Plaintext.BackoffClosedForm | gcm/gcm.py:196-199 | the backoff is 1000·2^k ms up to the tenth retry and 1024000 ms from then on |
| Plaintext.SleepTime | gcm/gcm.py:194 | half the backoff in force plus the random part |
| Plaintext.SleepBounds | gcm/gcm.py:194-195 | with the random part in [0, b), a sleep lies in [b/2, b/2 + b) |
| Plaintext.PlainAttempt | gcm/gcm.py:190-192 | one attempt never raises `IOError` |
| Plaintext.RetriedAttempts | gcm/gcm.py:190-193 | an attempt is retried exactly on 500, 503 or an `Error=Unavailable` reply; a failed connection is not retried |
| Plaintext.RetryLoop | gcm/gcm.py:187-201 | the loop either spends all its tries on `Unavailable` and raises `IOError`, or returns the first other outcome; it sleeps once after each `Unavailable`, for the backoff in force |
| Plaintext.RequestPlaintext | gcm/gcm.py:163-201 | no id, zero tries or an invalid payload fail before any request with their own exceptions; otherwise the retry loop runs; `IOError` comes exactly from spent tries |
| Plaintext.RetryPlaintextOk | gcm/test.py:140-147 | two `Unavailable` replies and then `id=…`: three requests, two sleeps, and nothing returned |
| Plaintext.FirstSleeps | gcm/test.py:187-200 | the first two sleeps lie in [500, 1500) and [1000, 3000) ms |
| Plaintext.RetryPlaintextFail | gcm/test.py:149-156 | `Unavailable` only, with two tries: two requests, then `IOError` |
| Reconcile.ReplaceCanonical | multicast_client_sample.py:66-70 | each record under an old id takes that id's last replacement; every key is kept |
| Reconcile.ClearUnregistered | multicast_client_sample.py:71-75 | each record under a dropped id gets an empty id; every key is kept |
| Reconcile.ParseResponse | multicast_client_sample.py:65-79 | no key is added or removed; a dropped id's record ends with an empty id, even if it was also rotated; a rotated id's record takes its last replacement; every other record is unchanged |
| Reconcile.ParseKeepsFields | multicast_client_sample.py:65-79 | only registration ids change |
| Reconcile.ParseTouchesOnlyIds | multicast_client_sample.py:65-79 | a record under a key that is not among the request's ids is unchanged |
| Reconcile.ExtractedMembers | gcm/gcm.py:292-301 | every extracted id is one of the caller's ids |
| Reconcile.QuietResponseKeepsRegistry | multicast_client_sample.py:76-79 | a reply with no counted failure or replacement changes nothing |
| Reconcile.ParseIdempotent | multicast_client_sample.py:65-79 | reconciling twice with the same reply is reconciling once |
| Retry.Run | multicast_client_sample.py:31-52 | the attempts of the loop: attempt, then go round again with the next ids while another round is called for and attempts are left |
| Retry.RunIsRun | multicast_client_sample.py:31-56 | the attempts obey the loop's defining facts: bounded by the budget, the first one with the caller's ids, each one handing its next ids on, stopping early only when no other round is called for |
| Retry.OnlyRun | multicast_client_sample.py:31-56 | those facts determine the attempts uniquely |
| Retry.RunNarrows | multicast_client_sample.py:38-40 | when each round narrows its ids, every attempt goes to a subsequence of the caller's ids |
| Retry.Drive | multicast_client_sample.py:31-56 | the loop makes exactly the attempts `Run` describes, folds each step into the gathered state, and pauses once between consecutive attempts |
| Driver.Continues | multicast_client_sample.py:38-52 | another round follows a reply with resends or a retriable exception |
| Driver.ContinuesOnly | multicast_client_sample.py:38-52 | another round follows only `GCMConnectionException`, `GCMUnavailableException`, or a reply that counted a failure |
| Driver.NextIds | multicast_client_sample.py:38-40 | the ids to resend after a reply with resends, the same ids otherwise |
| Driver.Absorb | multicast_client_sample.py:36 | a reply is reconciled into the registry; an exception leaves it alone |
| Driver.Attempt | multicast_client_sample.py:25-34 | with the samples' fixed options the payload checks never fail; valid ids and data reach the gateway; no ids raise `MissingRegistration` |
| Driver.Deliver | multicast_client_sample.py:31-63 | returns `True` exactly when the last reply had nothing to resend; the registry has seen every reply in order; one pause per retry |
| Driver.ReplayKeepsDevices | multicast_client_sample.py:36 | reconciling across the attempts keeps every key and every field but the registration id |
| Driver.ReplayTouchesOnlyNamed | multicast_client_sample.py:36 | a device that no attempt named keeps its record |
| Driver.NextIdsNarrow | multicast_client_sample.py:38-40 | the next ids are a subsequence of the current ones |
| Driver.RunFacts | multicast_client_sample.py:31-56 | at most the allowed attempts, and at least one; every attempt goes to a subsequence of the caller's ids; none is refused for its options; every attempt but the last called for a retry; an early stop comes only from a reply with nothing to resend or a non-retriable exception |
| Driver.RunNarrowsIds | multicast_client_sample.py:38-40 | every attempt goes to a subsequence of the caller's ids |
| Driver.RunAcceptsOptions | multicast_client_sample.py:25-34 | no attempt is refused for its time to live or collapse key |
| Driver.RunStops | multicast_client_sample.py:31-56 | at most the allowed attempts and at least one; every attempt but the last called for a retry; an early stop comes only from a reply with nothing to resend or a non-retriable exception |
| Driver.UnnamedDevicesUntouched | multicast_client_sample.py:31-40 | a device the caller did not name keeps its record whatever the replies |
| Driver.EmptyIdsEndRun | multicast_client_sample.py:54-56 | an attempt with no ids raises `MissingRegistration`, and it is the last attempt |
| Driver.TwiceUnavailable | multicast_client_sample.py:48-52 | two 503s with two attempts: the same ids twice, one pause, `False` |
| Driver.DeliveredFirstTime | multicast_client_sample.py:38-46 | a first reply with nothing to resend: one attempt, no pause, `True` |
| Driver.NoDataOneAttempt | gcm/client_sample.py:18-30 | the client sample with no data: one refused attempt and `False` |
| Driver.OverlongReplyEndsRefused | multicast_client_sample.py:38-56 | an overlong reply leads to a refused attempt with no ids and `False` |
| Driver.ShortReplySucceeds | multicast_client_sample.py:38-46 | a reply with one delivered result for two ids ends the loop with `True` |
| Driver.NonRetriableStops | multicast_client_sample.py:54-56 | too many ids, an undecodable reply, 400 or 401 end the loop after one attempt, with `False` |
| MulticastSample.SendNotification | multicast_client_sample.py:10-63 | no ids, no payload or no devices: `False` and nothing touched; otherwise the shared loop; `True` exactly when the last reply had nothing to resend; at most `max_attempts` attempts, each to a subsequence of the ids; keys kept; unnamed devices untouched |
| ClientSample.SendNotification | gcm/client_sample.py:9-61 | the same, with only the empty id list refused up front |
| ClientSample.SamplesAgree | gcm/client_sample.py:18-61 | on inputs the multicast sample does not refuse, both samples return the same flag, registry, attempts and pauses; with ids but no data the client sample makes one refused attempt where the multicast sample makes none, and both return `False` |

## Left out

- `extract_unsent_reg_ids` (`gcm/gcm.py:157-161`): nothing calls it.
- HTTP details are left out: the URL, the `Authorization` and `Content-Type` headers, `urlencode`, and the exception messages built with `smart_str`. Only the outcome of a request matters to the callers.
- JSON text is left out. `json.dumps` of the payload and `json.loads` of the reply are not modelled as text. A payload is the dictionary before encoding, and a reply is either a decoded `MulticastResponse` or undecodable.
- A reply whose JSON lacks `failure`, `results` or another expected field would raise `KeyError` in the wrapper; decoded replies always carry every field.
- `time.sleep`, `random.randrange` and `datetime.now` are left out. They become inputs (`jitter`, `now`) or counts, and nothing is slept.
- The length-mismatch diagnostic `print` in the extractors, and the samples' `print`, are left out because they are output only.
- `d.save()` in `parse_response` is left out: persistence is outside the model, and the registry is a map from id to record value. Two keys that share one Python object would see each other's updates; distinct records are assumed.
- The `record_success`/`record_fail` hooks are commented out in the source. The loops that would call them change nothing and are not modelled.
- Exceptions raised inside `parse_response` itself, which the samples' `except Exception` would catch, are not modelled.
- The caller's `data` dictionary is not mutated: `construct_payload` renames its entries in place for plaintext (`gcm/gcm.py:62-63`), so after the call the caller holds the renamed dictionary. The model returns the payload and leaves the caller's map as it was.
- Payload.Flatten: builds each `data.k` entry from the caller's own `k`, as intended, rather than by the in-place loop. The two agree whenever no key `k` sits beside `data.k` (`Payload.RenameMatchesFlatten`); otherwise the loop can lose an entry, depending on the snapshot's order (see Findings).
- Payload.Body: the plaintext body uses the intended renaming (`Flatten`), each entry `k` under `data.k` with its own value; the source's in-place loop differs when `k` and `data.k` are both present and `k` comes first in the snapshot (`Payload.CollidingKeysLoseEntry`).
- Payload.ConstructShape: its plaintext half states the intended renaming, as `Payload.Body` does; the in-place loop breaks it for the same colliding keys (`Payload.CollidingKeysLoseEntry`).
- Payload.ConstructKeepsData: the plaintext round trip holds for the intended renaming; the source's in-place loop breaks it when a key `k` and `data.k` are both present and `k` comes first in the snapshot (`Payload.CollidingKeysLoseEntry`).
- The payload that `request_plaintext` sends does not influence the scripted gateway. Only its construction errors are modelled.
- The branch `len(response_lines) == 0` (`gcm/gcm.py:144-145`) cannot be taken, because `split` always returns at least one line. It has no counterpart.
- The `IOError` message, with its attempt count, is left out; only the exception is modelled.
- Payload.Flatten: data values are strings; the source passes arbitrary Python values through unchanged.
- Default arguments (`tries=5`, `max_attempts=3`, `data=None`, `collapse_key=None`, `time_to_live=None`, `delay_while_idle=False`, `is_json=True`) are explicit parameters; callers pass the value they want. `None` and `{}` data are both the empty map, since the source only tests their truthiness.

## Findings

| source | as written | input that shows it | evidently intended | confidence | as-written member | corrected member |
|---|---|---|---|---|---|---|
| gcm/gcm.py:62-63 | the plaintext renaming pops each key of a snapshot and stores it under `data.k` in the same dictionary, so a renamed entry can overwrite a key the loop has yet to reach, which is then renamed again | data `{"a": "1", "data.a": "2"}` with `a` first in the snapshot: the payload carries only `data.data.a = "1"`, and `"2"` is lost | every entry `k` is sent as `data.k` with its own value (`"a"` as `data.a = "1"`, `"data.a"` as `data.data.a = "2"`) | medium: depends on the dictionary's key order; not executed | Payload.CollidingKeysLoseEntry | Payload.ConstructKeepsData |
