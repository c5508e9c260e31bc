/** `construct_payload`: the request body as the dictionary the client builds,
    before any JSON or form encoding. */
module Payload {
  import opened Wrappers
  import opened Errors

  /** The values a payload entry can hold. */
  datatype Value =
    | Text(text: string)
    | Number(number: int)
    | Flag(flag: bool)
    | TextList(items: seq<string>)
    | Object(fields: map<string, string>)

  type Payload = map<string, Value>

  /** A JSON request goes to a list of registration ids; a plaintext request
      goes to one. */
  datatype Target = Multicast(ids: seq<string>) | Single(id: string)

  /** The gateway's longest time to live, four weeks in seconds. */
  const MaxTimeToLive := 2419200

  const DataPrefix := "data."

  /** The key a plaintext request uses for the data entry `k`. */
  function DataKey(k: string): string
  {
    DataPrefix + k
  }

  predicate IsDataKey(k: string)
  {
    |k| >= |DataPrefix| && k[..|DataPrefix|] == DataPrefix
  }

  /** The data entry a plaintext key stands for. */
  function DataName(k: string): string
    requires IsDataKey(k)
  {
    k[|DataPrefix|..]
  }

  lemma DataKeyParts(k: string)
    ensures IsDataKey(DataKey(k)) && DataName(DataKey(k)) == k
  {
    assert DataKey(k)[..|DataPrefix|] == DataPrefix;
  }

  /** `if time_to_live:`, where both `None` and `0` are false. */
  predicate TtlGiven(timeToLive: Option<int>)
  {
    timeToLive.Some? && timeToLive.value != 0
  }

  /** `if collapse_key:`, where both `None` and the empty string are false. */
  predicate KeyGiven(collapseKey: Option<string>)
  {
    collapseKey.Some? && collapseKey.value != ""
  }

  /** The entries every control key is reserved for. */
  const ControlKeys: set<string> :=
    {"registration_ids", "registration_id", "data", "delay_while_idle", "time_to_live", "collapse_key"}

  /** No prefixed plaintext data key can clash with a control key. */
  lemma DataKeysAvoidControlKeys(k: string)
    ensures DataKey(k) !in ControlKeys
  {
    var d := DataKey(k);
    assert |d| >= 5 && d[..5] == "data.";
    assert "registration_ids"[..5] == "regis";
    assert "registration_id"[..5] == "regis";
    assert "delay_while_idle"[..5] == "delay";
    assert "time_to_live"[..5] == "time_";
    assert "collapse_key"[..5] == "colla";
  }

  /** The plaintext form of the message body: each entry `k` renamed to
      `data.k`, same value. */
  function Flatten(data: map<string, string>): (p: Payload)
    ensures forall k :: k in data ==> DataKey(k) in p && p[DataKey(k)] == Text(data[k])
    ensures forall key :: key in p ==> IsDataKey(key) && DataName(key) in data
  {
    forall k | k in data
      ensures IsDataKey(DataKey(k)) && DataName(DataKey(k)) == k
    {
      DataKeyParts(k);
    }
    map k | k in data :: DataKey(k) := Text(data[k])
  }

  /** `order` lists every key of `data` once: the snapshot `data.keys()`
      takes, in whatever order the dictionary yields its keys. */
  ghost predicate IsKeyOrder(data: map<string, string>, order: seq<string>)
  {
    && (forall i :: 0 <= i < |order| ==> order[i] in data)
    && (forall i, j :: 0 <= i < j < |order| ==> order[i] != order[j])
    && (forall k :: k in data ==> k in order)
  }

  /** The renaming loop as the source writes it: for each key `k` of the
      snapshot, in turn, the entry is popped and stored again under
      `data.k`, in the same dictionary. A renamed entry can land on a key
      the snapshot has yet to reach. */
  function RenameInPlace(d: map<string, string>, order: seq<string>): map<string, string>
    requires forall i :: 0 <= i < |order| ==> order[i] in d
    requires forall i, j :: 0 <= i < j < |order| ==> order[i] != order[j]
    decreases |order|
  {
    if |order| == 0 then d
    else
      var k := order[0];
      RenameInPlace((d - {k})[DataKey(k) := d[k]], order[1..])
  }

  /** No entry `k` sits beside an entry `data.k`. */
  predicate NoPrefixedTwin(data: map<string, string>)
  {
    forall k :: k in data ==> DataKey(k) !in data
  }

  /** A string dictionary read as payload entries. */
  function AsText(d: map<string, string>): (p: Payload)
    ensures p.Keys == d.Keys
  {
    map key | key in d :: Text(d[key])
  }

  lemma DataNameKey(key: string)
    requires IsDataKey(key)
    ensures DataKey(DataName(key)) == key
  {
    assert key == key[..|DataPrefix|] + key[|DataPrefix|..];
  }

  /** `m` is the dictionary once the keys in `done` have been renamed and
      the other keys of `data` have not. */
  ghost predicate RenamedPart(m: map<string, string>, data: map<string, string>, done: set<string>)
  {
    && (forall key :: key in m <==> Unrenamed(data, done, key) || Renamed(data, done, key))
    && (forall key :: key in m ==> m[key] == if Unrenamed(data, done, key) then data[key] else data[DataName(key)])
  }

  predicate Unrenamed(data: map<string, string>, done: set<string>, key: string)
  {
    key in data && key !in done
  }

  predicate Renamed(data: map<string, string>, done: set<string>, key: string)
  {
    IsDataKey(key) && DataName(key) in data && DataName(key) in done
  }

  /** Renaming one more key `k` takes one `RenamedPart` to the next, when
      there is no prefixed twin. */
  lemma RenameStep(m: map<string, string>, data: map<string, string>, done: set<string>, k: string)
    requires NoPrefixedTwin(data)
    requires RenamedPart(m, data, done)
    requires k in data && k !in done
    ensures k in m
    ensures RenamedPart((m - {k})[DataKey(k) := m[k]], data, done + {k})
  {
    assert Unrenamed(data, done, k);
    var n := (m - {k})[DataKey(k) := m[k]];
    var done' := done + {k};
    DataKeyParts(k);
    assert DataKey(k) !in data;
    assert Renamed(data, done', DataKey(k)) && !Unrenamed(data, done', DataKey(k));
    assert !Unrenamed(data, done', k);
    assert !Renamed(data, done', k) by {
      if IsDataKey(k) {
        DataNameKey(k);
      }
    }
    forall key | key != k && key != DataKey(k)
      ensures Unrenamed(data, done', key) == Unrenamed(data, done, key)
      ensures Renamed(data, done', key) == Renamed(data, done, key)
    {
      if IsDataKey(key) && DataName(key) == k {
        DataNameKey(key);
      }
    }
  }

  lemma ElementsOfTail(order: seq<string>)
    requires |order| > 0
    ensures (set x | x in order) == {order[0]} + set x | x in order[1..]
  {
    assert order == [order[0]] + order[1..];
  }

  lemma {:induction false} RenameSteps(m: map<string, string>, data: map<string, string>, done: set<string>,
                                       order: seq<string>)
    requires NoPrefixedTwin(data)
    requires RenamedPart(m, data, done)
    requires forall i :: 0 <= i < |order| ==> order[i] in data && order[i] !in done
    requires forall i, j :: 0 <= i < j < |order| ==> order[i] != order[j]
    ensures forall i :: 0 <= i < |order| ==> order[i] in m
    ensures RenamedPart(RenameInPlace(m, order), data, done + set x | x in order)
    decreases |order|
  {
    forall i | 0 <= i < |order| ensures order[i] in m {
      assert Unrenamed(data, done, order[i]);
    }
    if |order| > 0 {
      var k := order[0];
      RenameStep(m, data, done, k);
      RenameSteps((m - {k})[DataKey(k) := m[k]], data, done + {k}, order[1..]);
      ElementsOfTail(order);
    }
  }

  /** Once every key is renamed, the dictionary holds what `Flatten` builds. */
  lemma AllRenamed(r: map<string, string>, data: map<string, string>)
    requires RenamedPart(r, data, data.Keys)
    ensures AsText(r) == Flatten(data)
  {
    var f := Flatten(data);
    forall key | key in r ensures key in f && f[key] == Text(r[key]) {
      assert Renamed(data, data.Keys, key);
      DataNameKey(key);
    }
    forall key | key in f ensures key in r {
      DataNameKey(key);
      assert Renamed(data, data.Keys, key);
    }
  }

  /** When no key has a prefixed twin, the in-place loop yields exactly the
      entries `Flatten` builds, whatever order the snapshot takes. */
  lemma RenameMatchesFlatten(data: map<string, string>, order: seq<string>)
    requires IsKeyOrder(data, order)
    requires NoPrefixedTwin(data)
    ensures AsText(RenameInPlace(data, order)) == Flatten(data)
  {
    assert RenamedPart(data, data, {});
    RenameSteps(data, data, {}, order);
    assert {} + (set x | x in order) == data.Keys;
    AllRenamed(RenameInPlace(data, order), data);
  }

  /** The loop loses an entry when a key meets its prefixed twin after it:
      `{"a": "1", "data.a": "2"}` with `a` first ends as the one entry
      `data.data.a` carrying `a`'s value, where `Flatten` keeps both. */
  lemma CollidingKeysLoseEntry()
    ensures var data := map["a" := "1", DataKey("a") := "2"];
            && IsKeyOrder(data, ["a", DataKey("a")])
            && RenameInPlace(data, ["a", DataKey("a")]) == map[DataKey(DataKey("a")) := "1"]
            && AsText(RenameInPlace(data, ["a", DataKey("a")])) != Flatten(data)
  {
    var a, da := "a", DataKey("a");
    assert |da| == 6 && |DataKey(da)| == 11;
    var data := map[a := "1", da := "2"];
    var once := (data - {a})[da := "1"];
    assert once == map[da := "1"];
    assert RenameInPlace(data, [a, da]) == RenameInPlace(once, [da]);
    assert (once - {da})[DataKey(da) := "1"] == map[DataKey(da) := "1"];
    assert [a, da][1..] == [da];
    assert [da][1..] == [];
    assert da in Flatten(data);
  }

  const OptionKeys: set<string> := {"delay_while_idle", "time_to_live", "collapse_key"}

  /** The addressing and message-body part of the payload. */
  function Body(to: Target, data: map<string, string>): (p: Payload)
    ensures to.Multicast? ==>
              && p.Keys <= {"registration_ids", "data"}
              && "registration_ids" in p && p["registration_ids"] == TextList(to.ids)
              && ("data" in p <==> |data| > 0)
              && (|data| > 0 ==> p["data"] == Object(data))
    ensures to.Single? ==>
              && "registration_id" in p && p["registration_id"] == Text(to.id)
              && (forall k :: k in data ==> DataKey(k) in p && p[DataKey(k)] == Text(data[k]))
              && (forall key :: key in p && key != "registration_id" ==> IsDataKey(key) && DataName(key) in data)
    ensures forall key :: key in p && key in ControlKeys ==>
              key == (if to.Multicast? then "registration_ids" else "registration_id") || (to.Multicast? && key == "data")
  {
    match to
    case Multicast(ids) =>
      map["registration_ids" := TextList(ids)] + (if |data| > 0 then map["data" := Object(data)] else map[])
    case Single(id) =>
      var flat := Flatten(data);
      forall key | key in flat ensures key !in ControlKeys {
        DataKeysAvoidControlKeys(DataName(key));
        assert DataKey(DataName(key)) == key by {
          assert key == key[..|DataPrefix|] + key[|DataPrefix|..];
        }
      }
      map["registration_id" := Text(id)] + flat
  }

  /** Writes the three optional entries onto `p`, each only when truthy. */
  function WithOptions(p: Payload, collapseKey: Option<string>, delayWhileIdle: bool,
                       timeToLive: Option<int>): (q: Payload)
    ensures "delay_while_idle" in q <==> delayWhileIdle || "delay_while_idle" in p
    ensures delayWhileIdle ==> q["delay_while_idle"] == Flag(true)
    ensures "time_to_live" in q <==> TtlGiven(timeToLive) || "time_to_live" in p
    ensures TtlGiven(timeToLive) ==> q["time_to_live"] == Number(timeToLive.value)
    ensures "collapse_key" in q <==> KeyGiven(collapseKey) || "collapse_key" in p
    ensures KeyGiven(collapseKey) ==> q["collapse_key"] == Text(collapseKey.value)
    ensures forall key :: key in p && key !in OptionKeys ==> key in q && q[key] == p[key]
    ensures forall key :: key in q && key !in OptionKeys ==> key in p
  {
    var withDelay := if delayWhileIdle then p["delay_while_idle" := Flag(true)] else p;
    var withTtl := if TtlGiven(timeToLive) then withDelay["time_to_live" := Number(timeToLive.value)] else withDelay;
    if KeyGiven(collapseKey) then withTtl["collapse_key" := Text(collapseKey.value)] else withTtl
  }

  lemma MulticastShape(ids: seq<string>, data: map<string, string>, collapseKey: Option<string>,
                        delayWhileIdle: bool, timeToLive: Option<int>)
    ensures var q := WithOptions(Body(Multicast(ids), data), collapseKey, delayWhileIdle, timeToLive);
              && (forall key :: key in q ==> key in ControlKeys && key != "registration_id")
              && "registration_ids" in q && q["registration_ids"] == TextList(ids)
              && ("data" in q <==> |data| > 0)
              && (|data| > 0 ==> q["data"] == Object(data))
  {
    var body := Body(Multicast(ids), data);
    var q := WithOptions(body, collapseKey, delayWhileIdle, timeToLive);
    forall key | key in q ensures key in ControlKeys && key != "registration_id" {
      if key !in OptionKeys {
        assert key in body;
      }
    }
  }

  lemma SingleShape(id: string, data: map<string, string>, collapseKey: Option<string>,
                    delayWhileIdle: bool, timeToLive: Option<int>)
    ensures var q := WithOptions(Body(Single(id), data), collapseKey, delayWhileIdle, timeToLive);
              && "registration_id" in q && q["registration_id"] == Text(id)
              && "registration_ids" !in q && "data" !in q
              && (forall k :: k in data ==> DataKey(k) in q && q[DataKey(k)] == Text(data[k]))
              && (forall key :: key in q && key !in ControlKeys ==> IsDataKey(key) && DataName(key) in data)
  {
    var body := Body(Single(id), data);
    var q := WithOptions(body, collapseKey, delayWhileIdle, timeToLive);
    forall k | k in data
      ensures DataKey(k) in q && q[DataKey(k)] == Text(data[k])
    {
      DataKeysAvoidControlKeys(k);
      assert DataKey(k) in body && DataKey(k) !in OptionKeys;
    }
    forall key | key in q && key !in ControlKeys
      ensures IsDataKey(key) && DataName(key) in data
    {
      assert key in body && key != "registration_id";
    }
  }

  /** The exception `construct_payload` raises, if any. A nonzero time to
      live must lie in [0, MaxTimeToLive] and needs a collapse key that is
      not `None`; an empty collapse key passes. A time to live of 0 or `None`
      skips both checks. */
  function PayloadError(collapseKey: Option<string>, timeToLive: Option<int>): (e: Option<GcmError>)
    ensures e == Some(InvalidTtl) <==> TtlGiven(timeToLive) && !(0 <= timeToLive.value <= MaxTimeToLive)
    ensures e == Some(NoCollapseKey) <==>
              TtlGiven(timeToLive) && 0 <= timeToLive.value <= MaxTimeToLive && collapseKey.None?
    ensures e.Some? ==> e.value == InvalidTtl || e.value == NoCollapseKey
  {
    if TtlGiven(timeToLive) && (timeToLive.value > MaxTimeToLive || timeToLive.value < 0) then
      Some(InvalidTtl)
    else if TtlGiven(timeToLive) && collapseKey.None? then
      Some(NoCollapseKey)
    else
      None
  }

  /** `construct_payload`: it fails exactly with `PayloadError`, and the
      three options are only written when truthy; `ConstructShape` states
      the rest of the payload. */
  function ConstructPayload(to: Target, data: map<string, string>, collapseKey: Option<string>,
                            delayWhileIdle: bool, timeToLive: Option<int>): (r: Result<Payload, GcmError>)
    ensures r.Failure? <==> PayloadError(collapseKey, timeToLive).Some?
    ensures r.Failure? ==> r.error == PayloadError(collapseKey, timeToLive).value
    ensures r.Success? ==>
              && ("delay_while_idle" in r.value <==> delayWhileIdle)
              && (delayWhileIdle ==> r.value["delay_while_idle"] == Flag(true))
              && ("time_to_live" in r.value <==> TtlGiven(timeToLive))
              && (TtlGiven(timeToLive) ==> r.value["time_to_live"] == Number(timeToLive.value))
              && ("collapse_key" in r.value <==> KeyGiven(collapseKey))
              && (KeyGiven(collapseKey) ==> r.value["collapse_key"] == Text(collapseKey.value))
  {
    match PayloadError(collapseKey, timeToLive)
    case Some(e) => Failure(e)
    case None => Success(WithOptions(Body(to, data), collapseKey, delayWhileIdle, timeToLive))
  }

  /** The shape of a built payload. A JSON payload holds only control keys:
      the id list and, when there is data, the data object. A plaintext
      payload holds the one id and every data entry under its `data.` key,
      and nothing else outside the control keys. */
  lemma ConstructShape(to: Target, data: map<string, string>, collapseKey: Option<string>,
                       delayWhileIdle: bool, timeToLive: Option<int>)
    requires PayloadError(collapseKey, timeToLive).None?
    ensures var p := ConstructPayload(to, data, collapseKey, delayWhileIdle, timeToLive).value;
            to.Multicast? ==>
              && (forall key :: key in p ==> key in ControlKeys && key != "registration_id")
              && "registration_ids" in p && p["registration_ids"] == TextList(to.ids)
              && ("data" in p <==> |data| > 0)
              && (|data| > 0 ==> p["data"] == Object(data))
    ensures var p := ConstructPayload(to, data, collapseKey, delayWhileIdle, timeToLive).value;
            to.Single? ==>
              && "registration_id" in p && p["registration_id"] == Text(to.id)
              && "registration_ids" !in p && "data" !in p
              && (forall k :: k in data ==> DataKey(k) in p && p[DataKey(k)] == Text(data[k]))
              && (forall key :: key in p && key !in ControlKeys ==> IsDataKey(key) && DataName(key) in data)
  {
    if to.Multicast? {
      MulticastShape(to.ids, data, collapseKey, delayWhileIdle, timeToLive);
    } else {
      SingleShape(to.id, data, collapseKey, delayWhileIdle, timeToLive);
    }
  }

  /** The entry names behind the `data.`-prefixed text entries of `p`. */
  function DataNames(p: Payload): (names: set<string>)
    ensures forall name :: name in names ==> DataKey(name) in p && p[DataKey(name)].Text?
  {
    var names := set key | key in p && IsDataKey(key) && p[key].Text? :: DataName(key);
    forall name | name in names ensures DataKey(name) in p && p[DataKey(name)].Text? {
      var key :| key in p && IsDataKey(key) && p[key].Text? && DataName(key) == name;
      assert key == DataKey(name) by {
        assert key == key[..|DataPrefix|] + key[|DataPrefix|..];
      }
    }
    names
  }

  /** The message body a payload carries, read back as the gateway reads it:
      the `data` object of a JSON payload, or the `data.`-prefixed entries of a
      plaintext one with the prefix removed. */
  function ReadData(p: Payload): map<string, string>
  {
    if "data" in p && p["data"].Object? then p["data"].fields
    else map name | name in DataNames(p) :: p[DataKey(name)].text
  }

  lemma ControlKeysAreNotDataKeys(key: string)
    requires key in ControlKeys
    ensures !IsDataKey(key)
  {
    assert "registration_ids"[..5] == "regis";
    assert "registration_id"[..5] == "regis";
    assert "delay_while_idle"[..5] == "delay";
    assert "time_to_live"[..5] == "time_";
    assert "collapse_key"[..5] == "colla";
  }

  lemma ReadMulticastData(p: Payload, data: map<string, string>)
    requires forall key :: key in p ==> key in ControlKeys
    requires "data" in p <==> |data| > 0
    requires |data| > 0 ==> p["data"] == Object(data)
    ensures ReadData(p) == data
  {
    if |data| == 0 {
      forall key | key in p ensures !IsDataKey(key) {
        ControlKeysAreNotDataKeys(key);
      }
      assert DataNames(p) == {};
    }
  }

  lemma ReadSingleData(p: Payload, data: map<string, string>)
    requires "data" !in p
    requires forall k :: k in data ==> DataKey(k) in p && p[DataKey(k)] == Text(data[k])
    requires forall key :: key in p && key !in ControlKeys ==> IsDataKey(key) && DataName(key) in data
    ensures ReadData(p) == data
  {
    var names := DataNames(p);
    forall k | k in data ensures k in names {
      DataKeyParts(k);
    }
    forall name | name in names ensures name in data {
      var key := DataKey(name);
      DataKeyParts(name);
      DataKeysAvoidControlKeys(name);
    }
  }

  /** Building a payload loses nothing of the message body and invents nothing:
      reading the body back from a built payload gives the caller's data, in
      both the JSON and the plaintext form. */
  lemma ConstructKeepsData(to: Target, data: map<string, string>, collapseKey: Option<string>,
                           delayWhileIdle: bool, timeToLive: Option<int>)
    requires PayloadError(collapseKey, timeToLive).None?
    ensures ReadData(ConstructPayload(to, data, collapseKey, delayWhileIdle, timeToLive).value) == data
  {
    var p := ConstructPayload(to, data, collapseKey, delayWhileIdle, timeToLive).value;
    ConstructShape(to, data, collapseKey, delayWhileIdle, timeToLive);
    if to.Multicast? {
      ReadMulticastData(p, data);
    } else {
      ReadSingleData(p, data);
    }
  }

  /** A JSON payload with every option carries all five entries. */
  lemma AllOptionsExample(data: map<string, string>)
    requires |data| > 0
    ensures var r := ConstructPayload(Multicast(["1", "2"]), data, Some("foo"), true, Some(3600));
            && r.Success?
            && "registration_ids" in r.value && "data" in r.value && "collapse_key" in r.value
            && "delay_while_idle" in r.value && "time_to_live" in r.value
  {
    ConstructShape(Multicast(["1", "2"]), data, Some("foo"), true, Some(3600));
  }

  /** A time to live without a collapse key, or one outside
      [0, MaxTimeToLive], is refused. */
  lemma RefusedExamples(to: Target, data: map<string, string>)
    ensures ConstructPayload(to, data, None, false, Some(3600)) == Failure(NoCollapseKey)
    ensures ConstructPayload(to, data, Some("foo"), false, Some(5000000)) == Failure(InvalidTtl)
    ensures ConstructPayload(to, data, None, false, Some(-10)) == Failure(InvalidTtl)
  {
  }

  /** A plaintext payload carries the id and each data entry under its
      prefixed key, `data.param1` for `param1`. */
  lemma PlaintextExample(data: map<string, string>)
    requires "param1" in data && "param2" in data
    ensures var r := ConstructPayload(Single("1234"), data, None, false, None);
            && r.Success?
            && "registration_id" in r.value && DataKey("param1") in r.value && DataKey("param2") in r.value
  {
    ConstructShape(Single("1234"), data, None, false, None);
  }

  /** An empty collapse key passes the time-to-live check, since only
      `None` is refused, and is then left out of the payload. */
  lemma EmptyCollapseKeyExample(to: Target, data: map<string, string>)
    ensures var r := ConstructPayload(to, data, Some(""), false, Some(3600));
            r.Success? && "collapse_key" !in r.value && "time_to_live" in r.value
  {
  }
}
