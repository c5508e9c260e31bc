/** The retry loop the two sample senders share: up to `max_attempts` calls
    of `request_json` with a fixed collapse key, `delay_while_idle` off and
    a time to live of an hour; after every reply the device registry is
    reconciled, and the next attempt goes to the ids to resend; after a
    retriable exception it goes to the same ids; a pause separates two
    attempts. The reply to attempt `i` is `script[i]`, and a pause is
    counted rather than slept. */
module Driver {
  import opened Wrappers
  import opened Errors
  import opened Transport
  import opened Payload
  import opened Response
  import opened JsonRequest
  import opened Reconcile
  import opened Seqs
  import opened Retry

  /** Both samples ask the gateway to keep a message for an hour. */
  const TimeToLive := 3600

  type Outcome = Result<MulticastResponse, GcmError>

  type Trace = seq<Step<Outcome>>

  /** One attempt with the samples' fixed options. The collapse key is
      always given and the time to live is within range, so the payload
      checks never fail; any other refusal before sending is about the ids
      or the data. */
  function Attempt(ids: seq<string>, data: map<string, string>, collapseKey: string, wire: Wire<JsonBody>)
    : (r: Outcome)
    ensures r != Failure(InvalidTtl) && r != Failure(NoCollapseKey)
    ensures 0 < |ids| <= MaxRegIds && |data| > 0 ==> r == Exchange(wire)
    ensures |ids| == 0 ==> r == Failure(MissingRegistration)
  {
    RequestJson(ids, data, Some(collapseKey), false, Some(TimeToLive), wire)
  }

  /** Whether the loop goes round again after this outcome: a reply with
      ids to resend, or a retriable exception. */
  predicate Continues(o: Outcome)
  {
    match o
    case Success(resp) => HasResends(resp)
    case Failure(e) => IsRetriable(e)
  }

  /** Another round follows only a retriable exception or a reply that
      counted a failure. */
  lemma ContinuesOnly(o: Outcome)
    ensures Continues(o) && o.Failure? ==> o.error == Connection || o.error == Unavailable
    ensures Continues(o) && o.Success? ==> HasError(o.value)
  {
    RetriableFamily(if o.Failure? then o.error else Unavailable);
  }

  /** The ids of the next attempt: the ones to resend after a reply, the
      same ids after an exception. */
  function NextIds(ids: seq<string>, o: Outcome): seq<string>
  {
    if o.Success? && HasResends(o.value) then GetResendIds(o.value, ids) else ids
  }

  /** The samples' loop as a policy of `Retry`. */
  function Sender(data: map<string, string>, collapseKey: string): Policy<Wire<JsonBody>, Outcome>
  {
    Policy((ids, wire) => Attempt(ids, data, collapseKey, wire), Continues, NextIds)
  }

  /** What `parse_response` makes of one step: an exception leaves the
      registry alone. */
  function Absorb(reg: Registry, step: Step<Outcome>): Registry
  {
    match step.outcome
    case Success(resp) => ParseResponse(reg, resp, step.ids)
    case Failure(_) => reg
  }

  /** The registry after `parse_response` has seen every reply of the
      trace, in order. */
  function Replay(devices: Registry, trace: Trace): Registry
  {
    Fold(Absorb, devices, trace)
  }

  /** The loop returns `True` only from a reply with nothing to resend. */
  predicate Succeeded(trace: Trace)
  {
    |trace| > 0 && trace[|trace| - 1].outcome.Success? && !HasResends(trace[|trace| - 1].outcome.value)
  }

  /** The loop of `send_notification`, from its first attempt to its
      `return`: `ok` is the returned flag, `reg` the registry afterwards,
      `trace` the calls of `request_json`, `pauses` the number of sleeps.
      It makes the attempts `Run` describes, reconciling the registry after
      each reply; it returns `True` from a reply with nothing to resend and
      `False` after a non-retriable exception or when the attempts run
      out. */
  method Deliver(ids: seq<string>, devices: Registry, data: map<string, string>, collapseKey: string,
                 maxAttempts: int, script: seq<Wire<JsonBody>>)
    returns (ok: bool, reg: Registry, trace: Trace, pauses: nat)
    requires Rounds(maxAttempts) <= |script|
    ensures trace == Run(Sender(data, collapseKey), ids, Rounds(maxAttempts), script)
    ensures ok <==> Succeeded(trace)
    ensures reg == Replay(devices, trace)
    ensures pauses == Pauses(trace)
  {
    reg, trace, pauses := Drive(Sender(data, collapseKey), Absorb, devices, ids, Rounds(maxAttempts), script);
    ok := |trace| > 0 && trace[|trace| - 1].outcome.Success? && !Continues(trace[|trace| - 1].outcome);
  }

  /** Reconciling never adds or drops a device, and never changes a
      record's other fields. */
  lemma {:induction false} ReplayKeepsDevices(devices: Registry, trace: Trace)
    ensures Replay(devices, trace).Keys == devices.Keys
    ensures forall k :: k in devices ==>
              Replay(devices, trace)[k].userId == devices[k].userId && Replay(devices, trace)[k].id == devices[k].id
    decreases |trace|
  {
    if |trace| > 0 {
      var front := trace[..|trace| - 1];
      ReplayKeepsDevices(devices, front);
      var last := trace[|trace| - 1];
      if last.outcome.Success? {
        ParseKeepsFields(Replay(devices, front), last.outcome.value, last.ids);
      }
    }
  }

  /** A device whose id no attempt named keeps its record. */
  lemma {:induction false} ReplayTouchesOnlyNamed(devices: Registry, trace: Trace, key: string)
    requires key in devices
    requires forall k :: 0 <= k < |trace| ==> key !in trace[k].ids
    ensures key in Replay(devices, trace) && Replay(devices, trace)[key] == devices[key]
    decreases |trace|
  {
    if |trace| > 0 {
      var front := trace[..|trace| - 1];
      assert forall k :: 0 <= k < |front| ==> front[k] == trace[k];
      ReplayTouchesOnlyNamed(devices, front, key);
      ReplayKeepsDevices(devices, front);
      var last := trace[|trace| - 1];
      if last.outcome.Success? {
        ParseTouchesOnlyIds(Replay(devices, front), last.outcome.value, last.ids, key);
      }
    }
  }

  /** The next attempt goes to some of the current ids, in their order. */
  lemma NextIdsNarrow(ids: seq<string>, o: Outcome)
    ensures IsSubsequence(NextIds(ids, o), ids)
  {
    if o.Success? && HasResends(o.value) {
      ResendsWithoutResendIds(o.value);
      ExtractedLength(GetResendIds(o.value, ids), ids, o.value.results, Resend);
    } else {
      SubsequenceReflexive(ids);
    }
  }

  /** Every attempt goes to some of the caller's ids, in their order. */
  lemma RunNarrowsIds(ids: seq<string>, data: map<string, string>, collapseKey: string,
                      budget: nat, script: seq<Wire<JsonBody>>)
    requires budget <= |script|
    ensures var trace := Run(Sender(data, collapseKey), ids, budget, script);
            forall k :: 0 <= k < |trace| ==> IsSubsequence(trace[k].ids, ids)
  {
    var p := Sender(data, collapseKey);
    forall x, o ensures IsSubsequence(p.next(x, o), x) {
      NextIdsNarrow(x, o);
    }
    RunNarrows(p, ids, budget, script);
  }

  /** No attempt is refused for its options. */
  lemma RunAcceptsOptions(ids: seq<string>, data: map<string, string>, collapseKey: string,
                          budget: nat, script: seq<Wire<JsonBody>>)
    requires budget <= |script|
    ensures var trace := Run(Sender(data, collapseKey), ids, budget, script);
            forall k :: 0 <= k < |trace| ==>
              trace[k].outcome != Failure(InvalidTtl) && trace[k].outcome != Failure(NoCollapseKey)
  {
    var p := Sender(data, collapseKey);
    var trace := Run(p, ids, budget, script);
    RunIsRun(p, ids, budget, script);
    forall k | 0 <= k < |trace|
      ensures trace[k].outcome != Failure(InvalidTtl) && trace[k].outcome != Failure(NoCollapseKey)
    {
      assert trace[k].outcome == Attempt(trace[k].ids, data, collapseKey, script[k]);
    }
  }

  /** The loop's bounds and its reasons to stop: at most `budget` attempts
      and at least one when there is a budget; every attempt but the last
      called for another round; and an early stop comes only after a
      delivery with nothing to resend or a non-retriable exception. */
  lemma RunStops(ids: seq<string>, data: map<string, string>, collapseKey: string,
                 budget: nat, script: seq<Wire<JsonBody>>)
    requires budget <= |script|
    ensures var trace := Run(Sender(data, collapseKey), ids, budget, script);
            && |trace| <= budget && (budget > 0 ==> |trace| > 0)
            && (forall k :: 0 <= k < |trace| - 1 ==> Continues(trace[k].outcome))
            && (0 < |trace| < budget ==> !Continues(trace[|trace| - 1].outcome))
  {
    var p := Sender(data, collapseKey);
    var trace := Run(p, ids, budget, script);
    RunIsRun(p, ids, budget, script);
    forall k | 0 <= k < |trace| - 1
      ensures Continues(trace[k].outcome)
    {
      assert HandsOn(p, trace, k);
    }
  }

  /** What the samples' loop does, attempt by attempt: at most `budget`
      attempts, and at least one when there is a budget; each goes to some
      of the caller's ids, in their order; the payload is never refused for
      its options; every attempt but the last called for another round; and
      the loop stops before the budget runs out only after a delivery with
      nothing to resend or a non-retriable exception. */
  lemma RunFacts(ids: seq<string>, data: map<string, string>, collapseKey: string,
                 budget: nat, script: seq<Wire<JsonBody>>)
    requires budget <= |script|
    ensures var trace := Run(Sender(data, collapseKey), ids, budget, script);
            && |trace| <= budget && (budget > 0 ==> |trace| > 0)
            && (forall k :: 0 <= k < |trace| ==> IsSubsequence(trace[k].ids, ids))
            && (forall k :: 0 <= k < |trace| ==>
                  trace[k].outcome != Failure(InvalidTtl) && trace[k].outcome != Failure(NoCollapseKey))
            && (forall k :: 0 <= k < |trace| - 1 ==> Continues(trace[k].outcome))
            && (0 < |trace| < budget ==> !Continues(trace[|trace| - 1].outcome))
  {
    RunNarrowsIds(ids, data, collapseKey, budget, script);
    RunAcceptsOptions(ids, data, collapseKey, budget, script);
    RunStops(ids, data, collapseKey, budget, script);
  }

  /** A device whose id is not among the caller's ids keeps its record,
      whatever the replies. */
  lemma UnnamedDevicesUntouched(ids: seq<string>, devices: Registry, data: map<string, string>,
                                collapseKey: string, budget: nat, script: seq<Wire<JsonBody>>, key: string)
    requires budget <= |script|
    requires key in devices && key !in ids
    ensures var trace := Run(Sender(data, collapseKey), ids, budget, script);
            key in Replay(devices, trace) && Replay(devices, trace)[key] == devices[key]
  {
    var trace := Run(Sender(data, collapseKey), ids, budget, script);
    RunFacts(ids, data, collapseKey, budget, script);
    forall k | 0 <= k < |trace|
      ensures key !in trace[k].ids
    {
      var h :| Embeds(h, trace[k].ids, ids);
      forall j | 0 <= j < |trace[k].ids|
        ensures trace[k].ids[j] != key
      {
        assert trace[k].ids[j] == ids[h[j]];
      }
    }
    ReplayTouchesOnlyNamed(devices, trace, key);
  }

  /** An attempt with no ids is refused before sending, and that ends the
      loop. */
  lemma EmptyIdsEndRun(ids: seq<string>, data: map<string, string>, collapseKey: string,
                       budget: nat, script: seq<Wire<JsonBody>>)
    requires budget <= |script|
    ensures var trace := Run(Sender(data, collapseKey), ids, budget, script);
            forall k :: 0 <= k < |trace| && trace[k].ids == [] ==>
              trace[k].outcome == Failure(MissingRegistration) && k == |trace| - 1
  {
    var p := Sender(data, collapseKey);
    var trace := Run(p, ids, budget, script);
    RunIsRun(p, ids, budget, script);
    forall k | 0 <= k < |trace| && trace[k].ids == []
      ensures trace[k].outcome == Failure(MissingRegistration) && k == |trace| - 1
    {
      assert trace[k].outcome == Attempt(trace[k].ids, data, collapseKey, script[k]);
      assert k < |trace| - 1 ==> HandsOn(p, trace, k);
    }
  }

  /** Two unavailable gateways with two attempts: the same ids twice, one
      pause between them, and `False`. */
  lemma TwiceUnavailable(ids: seq<string>, data: map<string, string>, collapseKey: string,
                         script: seq<Wire<JsonBody>>)
    requires 0 < |ids| <= MaxRegIds && |data| > 0
    requires script == [HttpError(503), HttpError(503)]
    ensures var trace := Run(Sender(data, collapseKey), ids, 2, script);
            && trace == [Step(ids, Failure(Unavailable)), Step(ids, Failure(Unavailable))]
            && !Succeeded(trace) && Pauses(trace) == 1
  {
    var p := Sender(data, collapseKey);
    assert Attempt(ids, data, collapseKey, script[0]) == Failure(Unavailable);
    assert script[1..][0] == script[1];
    assert Run(p, ids, 1, script[1..]) == [Step(ids, Failure(Unavailable))];
  }

  /** A first reply with nothing to resend: one attempt, no pause, and
      `True`. */
  lemma DeliveredFirstTime(ids: seq<string>, data: map<string, string>, collapseKey: string,
                           budget: nat, script: seq<Wire<JsonBody>>, resp: MulticastResponse)
    requires 0 < |ids| <= MaxRegIds && |data| > 0
    requires 0 < budget <= |script| && script[0] == Reply(Decoded(resp)) && !HasResends(resp)
    ensures var trace := Run(Sender(data, collapseKey), ids, budget, script);
            && trace == [Step(ids, Success(resp))]
            && Succeeded(trace) && Pauses(trace) == 0
  {
    assert Attempt(ids, data, collapseKey, script[0]) == Success(resp);
  }

  /** `send_notification` of the client sample checks the ids but not the
      data: with no data every attempt is refused before sending, with a
      non-retriable exception, so there is one attempt and `False`. */
  lemma NoDataOneAttempt(ids: seq<string>, collapseKey: string, budget: nat, script: seq<Wire<JsonBody>>)
    requires 0 < |ids| <= MaxRegIds && 0 < budget <= |script|
    ensures var trace := Run(Sender(map[], collapseKey), ids, budget, script);
            && trace == [Step(ids, Failure(GcmException(NoData)))]
            && !Succeeded(trace)
  {
    assert Attempt(ids, map[], collapseKey, script[0]) == Failure(GcmException(NoData));
  }

  /** The overlong reply calls for another round with no ids to resend;
      the next attempt is refused for want of ids, and the loop returns
      `False` although the one id was delivered. */
  lemma {:induction false} OverlongReplyEndsRefused(data: map<string, string>, collapseKey: string, script: seq<Wire<JsonBody>>)
    requires |data| > 0
    requires |script| == 2 && script[0] == Reply(Decoded(OverlongResponse()))
    ensures var trace := Run(Sender(data, collapseKey), ["only"], 2, script);
            && trace == [Step(["only"], Success(OverlongResponse())), Step([], Failure(MissingRegistration))]
            && !Succeeded(trace)
  {
    var p := Sender(data, collapseKey);
    ResendsWithoutResendIds(OverlongResponse());
    assert Attempt(["only"], data, collapseKey, script[0]) == Success(OverlongResponse());
    assert NextIds(["only"], Success(OverlongResponse())) == [];
    assert Run(p, [], 1, script[1..]) == [Step([], Failure(MissingRegistration))];
  }

  /** A reply with fewer results than ids: one delivery for two ids, and
      no failure counted. */
  function ShortResponse(): MulticastResponse
  {
    MulticastResponse(1, 0, 0, [Entry(Some("m"), None, None)])
  }

  /** The loop returns `True` although the second id got no result at all:
      `True` means the last reply called for no resend, not that every id
      was handled. */
  lemma {:induction false} ShortReplySucceeds(data: map<string, string>, collapseKey: string,
                                              budget: nat, script: seq<Wire<JsonBody>>)
    requires |data| > 0
    requires 0 < budget <= |script| && script[0] == Reply(Decoded(ShortResponse()))
    ensures var trace := Run(Sender(data, collapseKey), ["a", "b"], budget, script);
            && trace == [Step(["a", "b"], Success(ShortResponse()))]
            && Succeeded(trace)
            && |ShortResponse().results| < |["a", "b"]|
  {
    assert !HasResends(ShortResponse());
    DeliveredFirstTime(["a", "b"], data, collapseKey, budget, script, ShortResponse());
  }

  /** A non-retriable outcome on the first attempt ends the loop with
      `False`: too many ids, a reply that is not JSON, a malformed request
      (400) or a rejected key (401). */
  lemma NonRetriableStops(ids: seq<string>, data: map<string, string>, collapseKey: string,
                          budget: nat, script: seq<Wire<JsonBody>>)
    requires 0 < budget <= |script|
    requires |ids| > MaxRegIds
             || (0 < |ids| && |data| > 0 && script[0] in [Reply(Undecodable), HttpError(400), HttpError(401)])
    ensures var trace := Run(Sender(data, collapseKey), ids, budget, script);
            && |trace| == 1 && trace[0].outcome.Failure? && !Succeeded(trace)
            && trace[0].outcome.error == (if |ids| > MaxRegIds then TooManyRegIds
                                          else if script[0].Reply? then ValueError
                                          else if script[0].code == 400 then MalformedJson
                                          else Authentication)
  {
    var o := Attempt(ids, data, collapseKey, script[0]);
    assert o.Failure? && !IsRetriable(o.error);
  }
}
