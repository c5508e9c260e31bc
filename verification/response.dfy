/** `GCM_response_wrapper`: the decoded reply to a multicast request and the
    lists the caller acts on. Results are matched to the caller's
    registration ids by position only, so every list is read off the caller's
    `regIds` at the positions whose result qualifies. */
module Response {
  import opened Wrappers
  import opened Seqs

  /** One element of `results`; each field may be absent. */
  datatype Entry = Entry(messageId: Option<string>, error: Option<string>, registrationId: Option<string>)

  /** The decoded reply: the three counters and the per-recipient results. */
  datatype MulticastResponse = MulticastResponse(success: int, failure: int, canonicalIds: int, results: seq<Entry>)

  /** What a result can tell the caller about its recipient. */
  datatype Category =
    | Delivered   // carries a `message_id`
    | Resend      // error "Unavailable": try again later
    | Unregister  // error "NotRegistered" or "InvalidRegistration": drop the id
    | Rotated     // carries a replacement `registration_id`

  predicate Matches(e: Entry, c: Category)
  {
    match c
    case Delivered => e.messageId.Some?
    case Resend => e.error == Some("Unavailable")
    case Unregister => e.error == Some("NotRegistered") || e.error == Some("InvalidRegistration")
    case Rotated => e.registrationId.Some?
  }

  predicate HasError(resp: MulticastResponse) { resp.failure > 0 }

  predicate HasCanonical(resp: MulticastResponse) { resp.canonicalIds > 0 }

  predicate HasSuccess(resp: MulticastResponse) { resp.success > 0 }

  /** The positions from `i` on whose result falls in `c`, in increasing order,
      as the extractor loops collect them: a qualifying position at or past
      `bound` ends the walk. */
  function Hits(results: seq<Entry>, c: Category, i: nat, bound: nat): seq<nat>
    requires i <= |results|
    decreases |results| - i
  {
    if i == |results| then []
    else if Matches(results[i], c) then
      if i < bound then [i] + Hits(results, c, i + 1, bound) else []
    else Hits(results, c, i + 1, bound)
  }

  /** `h` lists exactly the qualifying positions in [i, bound) that exist,
      in increasing order. */
  ghost predicate ListsHits(h: seq<nat>, results: seq<Entry>, c: Category, i: nat, bound: nat)
  {
    && (forall j :: 0 <= j < |h| ==> i <= h[j] < bound && h[j] < |results| && Matches(results[h[j]], c))
    && (forall j, k :: 0 <= j < k < |h| ==> h[j] < h[k])
    && (forall p :: i <= p < bound && p < |results| && Matches(results[p], c) ==> p in h)
  }

  /** The walk lists exactly the qualifying positions in [i, bound): the early
      stop loses none of them. */
  lemma {:induction false} HitsSpec(results: seq<Entry>, c: Category, i: nat, bound: nat)
    requires i <= |results|
    ensures ListsHits(Hits(results, c, i, bound), results, c, i, bound)
    decreases |results| - i
  {
    if i < |results| {
      var h := Hits(results, c, i, bound);
      var rest := Hits(results, c, i + 1, bound);
      HitsSpec(results, c, i + 1, bound);
      if Matches(results[i], c) && i < bound {
        assert h == [i] + rest;
        forall p | i <= p < bound && p < |results| && Matches(results[p], c)
          ensures p in h
        {
          if p > i {
            assert p in rest;
          }
        }
      } else if !Matches(results[i], c) {
        assert h == rest;
      }
    }
  }

  /** `_get_resends`: every "Unavailable" position, with no bound, or none at
      all when the failure counter is zero. */
  function ResendLines(resp: MulticastResponse): (lines: seq<nat>)
    ensures HasError(resp) ==> ListsHits(lines, resp.results, Resend, 0, |resp.results|)
    ensures !HasError(resp) ==> lines == []
  {
    if !HasError(resp) then []
    else
      HitsSpec(resp.results, Resend, 0, |resp.results|);
      Hits(resp.results, Resend, 0, |resp.results|)
  }

  /** `has_resends`: a failure is counted and some result, at any position,
      says "Unavailable". */
  predicate HasResends(resp: MulticastResponse)
  {
    HasError(resp) && |ResendLines(resp)| > 0
  }

  /** `has_resends` holds exactly when a failure is counted and some result,
      wherever it stands, says "Unavailable". */
  lemma ResendsSpec(resp: MulticastResponse)
    ensures HasResends(resp) <==>
              HasError(resp) && exists p :: 0 <= p < |resp.results| && Matches(resp.results[p], Resend)
  {
    if HasError(resp) {
      var lines := ResendLines(resp);
      if |lines| > 0 {
        assert Matches(resp.results[lines[0]], Resend);
      }
      if p :| 0 <= p < |resp.results| && Matches(resp.results[p], Resend) {
        assert p in lines;
      }
    }
  }

  /** The loop of `get_resend_ids`: the leading lines below `n`; the first line
      at or past `n` stops it. */
  function Below(lines: seq<nat>, n: nat): (r: seq<nat>)
    ensures |r| <= |lines| && r == lines[..|r|]
    ensures forall j :: 0 <= j < |r| ==> r[j] < n
    ensures |r| < |lines| ==> lines[|r|] >= n
  {
    if |lines| == 0 || lines[0] >= n then [] else [lines[0]] + Below(lines[1..], n)
  }

  /** The ids standing at the given positions. */
  function Project(ids: seq<string>, h: seq<nat>): (r: seq<string>)
    requires forall j :: 0 <= j < |h| ==> h[j] < |ids|
    ensures |r| == |h| && forall j :: 0 <= j < |h| ==> r[j] == ids[h[j]]
  {
    seq(|h|, j requires 0 <= j < |h| => ids[h[j]])
  }

  /** `h` lists exactly the positions below both lengths whose result falls in
      `c`, in increasing order, and `r` holds the caller's ids at them. */
  ghost predicate Picks(h: seq<nat>, r: seq<string>, regIds: seq<string>, results: seq<Entry>, c: Category)
  {
    && Embeds(h, r, regIds)
    && (forall j :: 0 <= j < |h| ==> h[j] < |results| && Matches(results[h[j]], c))
    && (forall p :: 0 <= p < |regIds| && p < |results| && Matches(results[p], c) ==> p in h)
  }

  /** `r` is the order-preserving selection of `regIds` at the positions whose
      result falls in `c`; positions past either list are ignored. */
  ghost predicate Extracted(r: seq<string>, regIds: seq<string>, results: seq<Entry>, c: Category)
  {
    exists h :: Picks(h, r, regIds, results, c)
  }

  /** With no ids there is nothing to pick. */
  lemma PicksNothing(regIds: seq<string>, results: seq<Entry>, c: Category)
    requires |regIds| == 0
    ensures Picks([], [], regIds, results, c)
  {
  }

  lemma PicksOfHits(regIds: seq<string>, results: seq<Entry>, c: Category)
    requires ListsHits(Hits(results, c, 0, |regIds|), results, c, 0, |regIds|)
    ensures var h := Hits(results, c, 0, |regIds|); Picks(h, Project(regIds, h), regIds, results, c)
  {
    HitsSpec(results, c, 0, |regIds|);
  }

  /** The generic extractor loop of `get_successes`, `get_unregister_errors`
      and `get_canonical_ids`, once their guards have passed. */
  function Select(regIds: seq<string>, results: seq<Entry>, c: Category): (r: seq<string>)
    ensures Extracted(r, regIds, results, c)
  {
    var h := Hits(results, c, 0, |regIds|);
    HitsSpec(results, c, 0, |regIds|);
    PicksOfHits(regIds, results, c);
    Project(regIds, h)
  }

  /** `get_successes`: the ids whose result carries a `message_id`; nothing
      when `regIds` is empty or the success counter is zero. */
  function GetSuccesses(resp: MulticastResponse, regIds: seq<string>): (r: seq<string>)
    ensures |regIds| == 0 || !HasSuccess(resp) ==> r == []
    ensures HasSuccess(resp) ==> Extracted(r, regIds, resp.results, Delivered)
  {
    if |regIds| == 0 then PicksNothing(regIds, resp.results, Delivered); []
    else if !HasSuccess(resp) then []
    else Select(regIds, resp.results, Delivered)
  }

  /** `get_unregister_errors`: the ids whose result says "NotRegistered" or
      "InvalidRegistration"; nothing when `regIds` is empty or the failure
      counter is zero. */
  function GetUnregisterErrors(resp: MulticastResponse, regIds: seq<string>): (r: seq<string>)
    ensures |regIds| == 0 || !HasError(resp) ==> r == []
    ensures HasError(resp) ==> Extracted(r, regIds, resp.results, Unregister)
  {
    if |regIds| == 0 then PicksNothing(regIds, resp.results, Unregister); []
    else if !HasError(resp) then []
    else Select(regIds, resp.results, Unregister)
  }

  /** `get_resend_ids`: the ids whose result says "Unavailable"; nothing when
      `regIds` is empty or the failure counter is zero. */
  function GetResendIds(resp: MulticastResponse, regIds: seq<string>): (r: seq<string>)
    ensures |regIds| == 0 || !HasError(resp) ==> r == []
    ensures HasError(resp) ==> Extracted(r, regIds, resp.results, Resend)
  {
    if |regIds| == 0 then PicksNothing(regIds, resp.results, Resend); []
    else
      var lines := ResendLines(resp);
      var h := Below(lines, |regIds|);
      ResendPicks(resp, regIds, lines, h);
      Project(regIds, h)
  }

  /** From sorted lines, `Below` keeps every line under `n`, in order. */
  lemma BelowKeepsSmall(lines: seq<nat>, n: nat)
    requires forall j, k :: 0 <= j < k < |lines| ==> lines[j] < lines[k]
    ensures IncreasingBelow(Below(lines, n), n)
    ensures forall p :: p in lines && p < n ==> p in Below(lines, n)
  {
    var h := Below(lines, n);
    forall p | p in lines && p < n
      ensures p in h
    {
      var t :| 0 <= t < |lines| && lines[t] == p;
      assert t < |h|;
      assert h[t] == p;
    }
  }

  lemma ResendPicks(resp: MulticastResponse, regIds: seq<string>, lines: seq<nat>, h: seq<nat>)
    requires lines == ResendLines(resp) && h == Below(lines, |regIds|)
    ensures forall j :: 0 <= j < |h| ==> h[j] < |regIds|
    ensures HasError(resp) ==> Picks(h, Project(regIds, h), regIds, resp.results, Resend)
  {
    BelowKeepsSmall(lines, |regIds|);
    assert forall j :: 0 <= j < |h| ==> h[j] in lines;
  }

  /** The old ids of a list of (old id, canonical id) pairs. */
  function OldIds(pairs: seq<(string, string)>): (ids: seq<string>)
    ensures |ids| == |pairs| && forall j :: 0 <= j < |pairs| ==> ids[j] == pairs[j].0
  {
    seq(|pairs|, j requires 0 <= j < |pairs| => pairs[j].0)
  }

  /** Each pair is the caller's id at a listed position with that position's
      replacement id. */
  ghost predicate PairsAt(h: seq<nat>, pairs: seq<(string, string)>, results: seq<Entry>)
  {
    && |pairs| == |h|
    && forall j :: 0 <= j < |h| ==>
         h[j] < |results| && results[h[j]].registrationId.Some? && pairs[j].1 == results[h[j]].registrationId.value
  }

  /** `get_canonical_ids`: (old id, replacement id) for every result that
      carries a `registration_id`, whatever its `message_id` or `error` say;
      nothing when `regIds` is empty or the canonical counter is zero. */
  function GetCanonicalIds(resp: MulticastResponse, regIds: seq<string>): (r: seq<(string, string)>)
    ensures |regIds| == 0 || !HasCanonical(resp) ==> r == []
    ensures HasCanonical(resp) ==>
              exists h :: Picks(h, OldIds(r), regIds, resp.results, Rotated) && PairsAt(h, r, resp.results)
  {
    if |regIds| == 0 then
      PicksNothing(regIds, resp.results, Rotated);
      assert OldIds([]) == [] && PairsAt([], [], resp.results);
      []
    else if !HasCanonical(resp) then []
    else
      var h := Hits(resp.results, Rotated, 0, |regIds|);
      HitsSpec(resp.results, Rotated, 0, |regIds|);
      var r := seq(|h|, j requires 0 <= j < |h| => (regIds[h[j]], resp.results[h[j]].registrationId.value));
      PicksOfHits(regIds, resp.results, Rotated);
      assert OldIds(r) == Project(regIds, h);
      assert PairsAt(h, r, resp.results);
      r
  }

  /** An extracted list is never longer than either the caller's ids or the
      results: the shorter one bounds it, whatever the mismatch. */
  lemma ExtractedLength(r: seq<string>, regIds: seq<string>, results: seq<Entry>, c: Category)
    requires Extracted(r, regIds, results, c)
    ensures IsSubsequence(r, regIds)
    ensures |r| <= |regIds| && |r| <= |results|
  {
    var h :| Picks(h, r, regIds, results, c);
    var m := if |regIds| < |results| then |regIds| else |results|;
    assert IncreasingBelow(h, m);
    IncreasingBelowLength(h, m);
  }

  ghost predicate Distinct(ids: seq<string>)
  {
    forall i, j :: 0 <= i < j < |ids| ==> ids[i] != ids[j]
  }

  lemma PickedAt(h: seq<nat>, r: seq<string>, regIds: seq<string>, results: seq<Entry>, c: Category, j: nat)
    requires Picks(h, r, regIds, results, c) && j < |r|
    ensures h[j] < |regIds| && h[j] < |results| && r[j] == regIds[h[j]] && Matches(results[h[j]], c)
  {
  }

  lemma DistinctAt(ids: seq<string>, p1: nat, p2: nat)
    requires Distinct(ids) && p1 < |ids| && p2 < |ids| && p1 != p2
    ensures ids[p1] != ids[p2]
  {
    if p2 < p1 {
      assert ids[p2] != ids[p1];
    }
  }

  /** A picked id stands at a position whose result falls in `c`. */
  lemma PositionOf(h: seq<nat>, r: seq<string>, regIds: seq<string>, results: seq<Entry>, c: Category, id: string)
    returns (p: nat)
    requires Picks(h, r, regIds, results, c) && id in r
    ensures p < |regIds| && p < |results| && regIds[p] == id && Matches(results[p], c)
  {
    var j :| 0 <= j < |r| && r[j] == id;
    PickedAt(h, r, regIds, results, c, j);
    p := h[j];
  }

  /** With distinct ids, the id at a position whose result falls outside
      `c` is not picked for `c`. */
  lemma NotPicked(h: seq<nat>, r: seq<string>, regIds: seq<string>, results: seq<Entry>, c: Category, p: nat)
    requires Distinct(regIds) && Picks(h, r, regIds, results, c)
    requires p < |regIds| && p < |results| && !Matches(results[p], c)
    ensures regIds[p] !in r
  {
    forall j | 0 <= j < |r|
      ensures r[j] != regIds[p]
    {
      PickedAt(h, r, regIds, results, c, j);
      DistinctAt(regIds, h[j], p);
    }
  }

  /** Two extractions by categories no result can fall in at once share no
      id, provided the caller's ids are distinct. */
  lemma ExtractedDisjoint(r1: seq<string>, r2: seq<string>, regIds: seq<string>, results: seq<Entry>,
                          c1: Category, c2: Category, id: string)
    requires Distinct(regIds)
    requires Extracted(r1, regIds, results, c1) && Extracted(r2, regIds, results, c2)
    requires forall p :: 0 <= p < |results| ==> !(Matches(results[p], c1) && Matches(results[p], c2))
    ensures !(id in r1 && id in r2)
  {
    if id in r1 {
      var h1 :| Picks(h1, r1, regIds, results, c1);
      var p := PositionOf(h1, r1, regIds, results, c1, id);
      assert !Matches(results[p], c2);
      var h2 :| Picks(h2, r2, regIds, results, c2);
      NotPicked(h2, r2, regIds, results, c2, p);
    }
  }

  /** No result is both "Unavailable" and an unregister error, so when the
      caller's ids are distinct no id is both resent and dropped. */
  lemma ResendAndUnregisterDisjoint(resp: MulticastResponse, regIds: seq<string>, id: string)
    requires Distinct(regIds)
    ensures !(id in GetResendIds(resp, regIds) && id in GetUnregisterErrors(resp, regIds))
  {
    if HasError(resp) {
      ExtractedDisjoint(GetResendIds(resp, regIds), GetUnregisterErrors(resp, regIds), regIds, resp.results,
                        Resend, Unregister, id);
    }
  }

  /** Whether a position qualifies as rotated depends on its
      `registration_id` alone. */
  lemma {:induction false} HitsSeeOnlyRotation(results: seq<Entry>, other: seq<Entry>, i: nat, bound: nat)
    requires i <= |results| == |other|
    requires forall p :: 0 <= p < |results| ==> results[p].registrationId == other[p].registrationId
    ensures Hits(results, Rotated, i, bound) == Hits(other, Rotated, i, bound)
    decreases |results| - i
  {
    if i < |results| {
      HitsSeeOnlyRotation(results, other, i + 1, bound);
    }
  }

  /** The canonical pairs ignore `message_id`, `error` and the other
      counters: two responses that agree on the canonical counter and on
      every position's `registration_id` yield the same pairs. */
  lemma CanonicalIgnoresStatus(resp: MulticastResponse, other: MulticastResponse, regIds: seq<string>)
    requires resp.canonicalIds == other.canonicalIds && |resp.results| == |other.results|
    requires forall p :: 0 <= p < |resp.results| ==> resp.results[p].registrationId == other.results[p].registrationId
    ensures GetCanonicalIds(resp, regIds) == GetCanonicalIds(other, regIds)
  {
    var h := Hits(resp.results, Rotated, 0, |regIds|);
    HitsSeeOnlyRotation(resp.results, other.results, 0, |regIds|);
    HitsSpec(resp.results, Rotated, 0, |regIds|);
    if |regIds| > 0 && HasCanonical(resp) {
      var mine, theirs := GetCanonicalIds(resp, regIds), GetCanonicalIds(other, regIds);
      assert |mine| == |h| == |theirs|;
      forall j | 0 <= j < |h| ensures mine[j] == theirs[j] {
        assert resp.results[h[j]].registrationId == other.results[h[j]].registrationId;
      }
    }
  }

  /** `has_resends` needs a counted failure, yet it looks at every position
      while `get_resend_ids` stops at the caller's last id: an "Unavailable"
      result past the end of the ids makes `has_resends` hold with nothing to
      resend. */
  lemma ResendsWithoutResendIds(resp: MulticastResponse)
    ensures HasResends(resp) ==> HasError(resp)
    ensures HasResends(OverlongResponse()) && GetResendIds(OverlongResponse(), ["only"]) == []
  {
    assert 1 in ResendLines(OverlongResponse());
  }

  /** A reply with one result more than the one id it answers, and that
      extra result says "Unavailable". */
  function OverlongResponse(): MulticastResponse
  {
    MulticastResponse(0, 1, 0, [Entry(Some("1"), None, None), Entry(None, Some("Unavailable"), None)])
  }

  /** Six recipients 4, 8, 15, 16, 23 and 42 answered with a success, an
      "Unavailable", an "InvalidRegistration", a success, a success with a
      replacement id 32 and a "NotRegistered". */
  function MixedResponse(): MulticastResponse
  {
    MulticastResponse(3, 3, 1, [
      Entry(Some("1:0408"), None, None),
      Entry(None, Some("Unavailable"), None),
      Entry(None, Some("InvalidRegistration"), None),
      Entry(Some("1:1516"), None, None),
      Entry(Some("1:2342"), None, Some("32")),
      Entry(None, Some("NotRegistered"), None)])
  }

  lemma MixedResends(results: seq<Entry>)
    requires results == MixedResponse().results
    ensures Hits(results, Resend, 0, 6) == [1]
  {
    assert Hits(results, Resend, 2, 6) == [];
  }

  lemma MixedUnregisters(results: seq<Entry>)
    requires results == MixedResponse().results
    ensures Hits(results, Unregister, 0, 6) == [2, 5]
  {
    assert Hits(results, Unregister, 5, 6) == [5];
    assert Hits(results, Unregister, 2, 6) == [2, 5];
  }

  lemma MixedRotations(results: seq<Entry>)
    requires results == MixedResponse().results
    ensures Hits(results, Rotated, 0, 6) == [4]
  {
    assert Hits(results, Rotated, 5, 6) == [];
    assert Hits(results, Rotated, 4, 6) == [4];
  }

  lemma MixedDeliveries(results: seq<Entry>)
    requires results == MixedResponse().results
    ensures Hits(results, Delivered, 0, 6) == [0, 3, 4]
  {
    assert Hits(results, Delivered, 5, 6) == [];
    assert Hits(results, Delivered, 4, 6) == [4];
    assert Hits(results, Delivered, 3, 6) == [3, 4];
  }

  const MixedIds: seq<string> := ["4", "8", "15", "16", "23", "42"]

  /** The mixed response: every predicate holds; 8 is resent, 15 and 42 are
      dropped, 23 is rotated to 32 and 4, 16 and 23 were delivered; with no
      ids every list is empty. */
  lemma MixedScenario()
    ensures var resp := MixedResponse();
            && HasError(resp) && HasCanonical(resp) && HasResends(resp) && HasSuccess(resp)
            && GetResendIds(resp, MixedIds) == ["8"]
            && GetUnregisterErrors(resp, MixedIds) == ["15", "42"]
            && GetCanonicalIds(resp, MixedIds) == [("23", "32")]
            && GetSuccesses(resp, MixedIds) == ["4", "16", "23"]
            && GetUnregisterErrors(resp, []) == [] && GetCanonicalIds(resp, []) == [] && GetResendIds(resp, []) == []
  {
    MixedResendIds();
    MixedUnregisterIds();
    MixedCanonicalIds();
    MixedSuccessIds();
  }

  lemma MixedResendIds()
    ensures HasResends(MixedResponse()) && GetResendIds(MixedResponse(), MixedIds) == ["8"]
  {
    var resp := MixedResponse();
    MixedResends(resp.results);
    assert ResendLines(resp) == [1];
    assert Below([1], 6) == [1];
    assert Project(MixedIds, [1]) == ["8"];
  }

  lemma MixedUnregisterIds()
    ensures GetUnregisterErrors(MixedResponse(), MixedIds) == ["15", "42"]
  {
    MixedUnregisters(MixedResponse().results);
    assert Project(MixedIds, [2, 5]) == ["15", "42"];
  }

  lemma MixedCanonicalIds()
    ensures GetCanonicalIds(MixedResponse(), MixedIds) == [("23", "32")]
  {
    MixedRotations(MixedResponse().results);
  }

  lemma MixedSuccessIds()
    ensures GetSuccesses(MixedResponse(), MixedIds) == ["4", "16", "23"]
  {
    MixedDeliveries(MixedResponse().results);
    assert Project(MixedIds, [0, 3, 4]) == ["4", "16", "23"];
  }
}
