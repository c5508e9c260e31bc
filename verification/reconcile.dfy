/** `parse_response` of the two sample senders (their copies are the same):
    after a multicast reply, each device record whose id was replaced takes
    the canonical id, and each device whose id was refused gets an empty id.
    The registry maps a registration id to the device record stored under
    it. */
module Reconcile {
  import opened Wrappers
  import opened Response

  /** A device record; only `registrationId` is ever changed. */
  datatype Device = Device(registrationId: string, userId: int, id: int)

  type Registry = map<string, Device>

  /** The canonical id of the last pair for `oldId`, if any: the one that
      wins when the pairs are applied in order. */
  function LastRotation(pairs: seq<(string, string)>, oldId: string): Option<string>
  {
    if |pairs| == 0 then None
    else if pairs[|pairs| - 1].0 == oldId then Some(pairs[|pairs| - 1].1)
    else LastRotation(pairs[..|pairs| - 1], oldId)
  }

  /** The record under `key` with its id set to `newId`, when the key is in
      the registry. */
  function SetId(reg: Registry, key: string, newId: string): (r: Registry)
    ensures r.Keys == reg.Keys
    ensures forall k :: k in reg && k != key ==> r[k] == reg[k]
    ensures key in reg ==> r[key] == reg[key].(registrationId := newId)
  {
    if key in reg then reg[key := reg[key].(registrationId := newId)] else reg
  }

  /** The first loop of `parse_response`: every (old, canonical) pair, in
      order, whose old id is a key of the registry. A later pair for the
      same old id overrides an earlier one. */
  function ReplaceCanonical(reg: Registry, pairs: seq<(string, string)>): (r: Registry)
    ensures r.Keys == reg.Keys
    ensures forall k :: k in reg ==>
              r[k] == match LastRotation(pairs, k)
                      case None => reg[k]
                      case Some(c) => reg[k].(registrationId := c)
  {
    if |pairs| == 0 then reg
    else
      var last := pairs[|pairs| - 1];
      SetId(ReplaceCanonical(reg, pairs[..|pairs| - 1]), last.0, last.1)
  }

  /** The second loop: every refused id that is a key gets an empty id. */
  function ClearUnregistered(reg: Registry, invalid: seq<string>): (r: Registry)
    ensures r.Keys == reg.Keys
    ensures forall k :: k in reg ==> r[k] == if k in invalid then reg[k].(registrationId := "") else reg[k]
  {
    if |invalid| == 0 then reg
    else SetId(ClearUnregistered(reg, invalid[..|invalid| - 1]), invalid[|invalid| - 1], "")
  }

  /** What reconciling makes of the record stored under `key`: a refused id
      ends empty even when it was also replaced, a replaced id takes its
      last canonical id, and every other field stays as it was. */
  function DeviceAfter(d: Device, key: string, pairs: seq<(string, string)>, invalid: seq<string>): Device
  {
    if key in invalid then d.(registrationId := "")
    else match LastRotation(pairs, key)
         case None => d
         case Some(c) => d.(registrationId := c)
  }

  /** `parse_response`: no key is added or removed, and each record ends as
      `DeviceAfter` says. The third loop only reads the successes (the hook
      it would call is commented out), so it changes nothing. */
  function ParseResponse(reg: Registry, resp: MulticastResponse, ids: seq<string>): (r: Registry)
    ensures r.Keys == reg.Keys
    ensures forall k :: k in reg ==>
              r[k] == DeviceAfter(reg[k], k, GetCanonicalIds(resp, ids), GetUnregisterErrors(resp, ids))
  {
    ClearUnregistered(ReplaceCanonical(reg, GetCanonicalIds(resp, ids)), GetUnregisterErrors(resp, ids))
  }

  /** Reconciling changes registration ids only. */
  lemma ParseKeepsFields(reg: Registry, resp: MulticastResponse, ids: seq<string>)
    ensures forall k :: k in reg ==>
              && ParseResponse(reg, resp, ids)[k].userId == reg[k].userId
              && ParseResponse(reg, resp, ids)[k].id == reg[k].id
  {
  }

  /** A rotation pair only ever names one of the caller's ids. */
  lemma {:induction false} RotationsNameIds(pairs: seq<(string, string)>, ids: seq<string>, k: string)
    requires forall j :: 0 <= j < |pairs| ==> pairs[j].0 in ids
    requires k !in ids
    ensures LastRotation(pairs, k).None?
    decreases |pairs|
  {
    if |pairs| > 0 {
      RotationsNameIds(pairs[..|pairs| - 1], ids, k);
    }
  }

  /** Records stored under keys the request did not name are left alone. */
  lemma ParseTouchesOnlyIds(reg: Registry, resp: MulticastResponse, ids: seq<string>, k: string)
    requires k in reg && k !in ids
    ensures ParseResponse(reg, resp, ids)[k] == reg[k]
  {
    var pairs := GetCanonicalIds(resp, ids);
    var invalid := GetUnregisterErrors(resp, ids);
    ExtractedMembers(invalid, ids, resp.results, Unregister);
    if HasCanonical(resp) {
      var h :| Picks(h, OldIds(pairs), ids, resp.results, Rotated) && PairsAt(h, pairs, resp.results);
      forall j | 0 <= j < |pairs| ensures pairs[j].0 in ids {
        assert OldIds(pairs)[j] == ids[h[j]];
      }
      RotationsNameIds(pairs, ids, k);
    }
  }

  /** Every id an extractor returns is one of the caller's ids. */
  lemma ExtractedMembers(r: seq<string>, regIds: seq<string>, results: seq<Entry>, c: Category)
    requires Extracted(r, regIds, results, c) || r == []
    ensures forall x :: x in r ==> x in regIds
  {
    if r != [] {
      var h :| Picks(h, r, regIds, results, c);
      forall j | 0 <= j < |r|
        ensures r[j] in regIds
      {
        PickedAt(h, r, regIds, results, c, j);
      }
    }
  }

  /** A reply that counts no replacement and no failure changes nothing:
      successes alone are only read. */
  lemma QuietResponseKeepsRegistry(reg: Registry, resp: MulticastResponse, ids: seq<string>)
    requires !HasCanonical(resp) && !HasError(resp)
    ensures ParseResponse(reg, resp, ids) == reg
  {
  }

  /** Reconciling twice with the same reply is reconciling once. */
  lemma ParseIdempotent(reg: Registry, resp: MulticastResponse, ids: seq<string>)
    ensures ParseResponse(ParseResponse(reg, resp, ids), resp, ids) == ParseResponse(reg, resp, ids)
  {
  }
}
