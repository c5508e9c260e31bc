/** The plaintext protocol: parsing the gateway's `key=value` reply
    (`handle_plaintext_response`) and the blocking retry loop of
    `request_plaintext`, with its exponential backoff. */
module Plaintext {
  import opened Wrappers
  import opened Errors
  import opened Text
  import opened Transport
  import opened Payload
  import opened Seqs

  /** Backoff bounds, in milliseconds. */
  const BackoffInitialDelay := 1000
  const MaxBackoffDelay := 1024000

  const NoResponse := "no response"
  const NoTries := "number of tries 0: why did you call this?"

  /** `handle_plaintext_response`. The reply is stripped and cut into lines,
      which `ReadLines` reads. */
  function HandlePlaintextResponse(response: string): (r: Result<Option<string>, GcmError>)
    ensures |response| == 0 ==> r == Failure(GcmException(NoResponse))
    ensures r.Failure? && IsRetriable(r.error) ==> r.error == Unavailable
    ensures r.Success? && r.value.Some? ==> '=' !in r.value.value
    ensures r.Success? && r.value.Some? ==> |Split(Strip(response), '\n')| == 2
  {
    if |response| == 0 then Failure(GcmException(NoResponse))
    else ReadLines(Split(Strip(response), '\n'))
  }

  /** The lines of a reply: the first must be exactly one `key=value` pair.
      An `Error` key goes through `raise_error`; otherwise a two-line reply
      yields the value of its second line and any other reply yields
      nothing. A first line that is not one pair is Python's `ValueError`, a
      second line without `=` its `IndexError`. */
  function ReadLines(lines: seq<string>): (r: Result<Option<string>, GcmError>)
    requires |lines| >= 1
    ensures r.Failure? && IsRetriable(r.error) ==> r.error == Unavailable
    ensures r.Success? && r.value.Some? ==> '=' !in r.value.value && |lines| == 2
  {
    var kv := Split(lines[0], '=');
    if |kv| != 2 then Failure(ValueError)
    else if kv[0] == "Error" then Failure(RaiseError(kv[1]))
    else if |lines| == 2 then
      var second := Split(lines[1], '=');
      if |second| < 2 then Failure(IndexError) else Success(Some(second[1]))
    else Success(None)
  }

  /** One line of a gateway reply. */
  function Line(key: string, value: string): string
  {
    key + "=" + value
  }

  /** Text that `strip()` leaves alone at its front... */
  predicate CleanStart(s: string)
  {
    |s| > 0 && !IsSpace(s[0])
  }

  /** ... and at its end. */
  predicate CleanEnd(s: string)
  {
    |s| > 0 && !IsSpace(s[|s| - 1])
  }

  /** A field of a reply: it holds neither separator. */
  predicate Field(s: string)
  {
    '=' !in s && '\n' !in s
  }

  lemma SplitLine(key: string, value: string)
    requires Field(key) && Field(value)
    ensures Split(Line(key, value), '=') == [key, value]
    ensures '\n' !in Line(key, value)
  {
    assert Join([key, value], '=') == Line(key, value) by {
      assert [key, value][1..] == [value];
    }
    SplitJoin([key, value], '=');
  }

  lemma SplitSingleLine(s: string)
    requires '\n' !in s
    ensures Split(s, '\n') == [s]
  {
    SplitJoin([s], '\n');
  }

  lemma SplitTwoLines(a: string, b: string)
    requires '\n' !in a && '\n' !in b
    ensures Split(a + "\n" + b, '\n') == [a, b]
  {
    assert Join([a, b], '\n') == a + "\n" + b by {
      assert [a, b][1..] == [b];
    }
    SplitJoin([a, b], '\n');
  }

  /** An error reply `Error=<code>` raises the exception `raise_error`
      assigns to the code. */
  lemma ErrorReply(code: string)
    requires Field(code) && (|code| == 0 || !IsSpace(code[|code| - 1]))
    ensures HandlePlaintextResponse(Line("Error", code)) == Failure(RaiseError(code))
  {
    var s := Line("Error", code);
    assert s[0] == 'E';
    assert s[|s| - 1] == if |code| == 0 then '=' else code[|code| - 1];
    assert Strip(s) == s;
    SplitLine("Error", code);
    SplitSingleLine(s);
  }

  /** A one-line reply with any other key yields nothing. */
  lemma OneLineReply(key: string, value: string)
    requires Field(key) && Field(value) && key != "Error"
    requires CleanStart(key) && CleanEnd(value)
    ensures HandlePlaintextResponse(Line(key, value)) == Success(None)
  {
    var s := Line(key, value);
    assert s[0] == key[0] && s[|s| - 1] == value[|value| - 1];
    assert Strip(s) == s;
    SplitLine(key, value);
    SplitSingleLine(s);
  }

  /** A two-line reply whose first key is not `Error` yields the value of
      its second line. */
  lemma TwoLineReply(key1: string, value1: string, key2: string, value2: string)
    requires Field(key1) && Field(value1) && Field(key2) && Field(value2) && key1 != "Error"
    requires CleanStart(key1) && CleanEnd(value2)
    ensures HandlePlaintextResponse(Line(key1, value1) + "\n" + Line(key2, value2)) == Success(Some(value2))
  {
    var a, b := Line(key1, value1), Line(key2, value2);
    var s := a + "\n" + b;
    assert s[0] == key1[0] && s[|s| - 1] == value2[|value2| - 1];
    assert Strip(s) == s;
    SplitLine(key1, value1);
    SplitLine(key2, value2);
    SplitTwoLines(a, b);
  }

  lemma JoinStart(parts: seq<string>, sep: char)
    requires |parts| >= 1 && |parts[0]| > 0
    ensures |Join(parts, sep)| > 0 && Join(parts, sep)[0] == parts[0][0]
  {
  }

  lemma {:induction false} JoinEnd(parts: seq<string>, sep: char)
    requires |parts| >= 1 && |parts[|parts| - 1]| > 0
    ensures var s := Join(parts, sep);
            |s| > 0 && s[|s| - 1] == parts[|parts| - 1][|parts[|parts| - 1]| - 1]
    decreases |parts|
  {
    if |parts| > 1 {
      JoinEnd(parts[1..], sep);
    }
  }

  /** Lines that make up a reply `strip()` leaves alone: none holds a line
      break, the first starts and the last ends with a visible character. */
  predicate ReplyShaped(lines: seq<string>)
  {
    && |lines| >= 1
    && (forall i :: 0 <= i < |lines| ==> '\n' !in lines[i])
    && CleanStart(lines[0]) && CleanEnd(lines[|lines| - 1])
  }

  /** Such lines, joined by line breaks, are read back line for line. */
  lemma ReplyLines(lines: seq<string>)
    requires ReplyShaped(lines)
    ensures HandlePlaintextResponse(Join(lines, '\n')) == ReadLines(lines)
  {
    JoinStart(lines, '\n');
    JoinEnd(lines, '\n');
    SplitJoin(lines, '\n');
  }

  /** A reply of three or more lines whose first key is not `Error` yields
      nothing, like a one-line reply: only exactly two lines yield a
      value. */
  lemma ManyLineReply(lines: seq<string>, key: string, value: string)
    requires ReplyShaped(lines) && |lines| >= 3
    requires lines[0] == Line(key, value) && Field(key) && Field(value) && key != "Error"
    ensures HandlePlaintextResponse(Join(lines, '\n')) == Success(None)
  {
    ReplyLines(lines);
    SplitLine(key, value);
  }

  /** A first line `Error=<code>` raises the exception for the code, whatever
      lines follow it. */
  lemma ErrorFirstLine(lines: seq<string>, code: string)
    requires ReplyShaped(lines)
    requires lines[0] == Line("Error", code) && Field(code)
    ensures HandlePlaintextResponse(Join(lines, '\n')) == Failure(RaiseError(code))
  {
    ReplyLines(lines);
    SplitLine("Error", code);
  }

  /** A first line that is not exactly one `key=value` pair, with no `=` or
      with more than one, raises `ValueError` whatever follows. */
  lemma MalformedFirstLine(lines: seq<string>, parts: seq<string>)
    requires ReplyShaped(lines)
    requires |parts| >= 1 && |parts| != 2 && (forall i :: 0 <= i < |parts| ==> '=' !in parts[i])
    requires lines[0] == Join(parts, '=')
    ensures HandlePlaintextResponse(Join(lines, '\n')) == Failure(ValueError)
  {
    ReplyLines(lines);
    SplitJoin(parts, '=');
  }

  /** The replies of the plaintext parsing scenario. */
  lemma NotRegisteredReply()
    ensures HandlePlaintextResponse("Error=NotRegistered") == Failure(NotRegistered)
  {
    var s := Line("Error", "NotRegistered");
    assert s == "Error=NotRegistered";
    ErrorReply("NotRegistered");
  }

  lemma IdReply()
    ensures HandlePlaintextResponse("id=23436576") == Success(None)
  {
    var s := Line("id", "23436576");
    assert s == "id=23436576";
    OneLineReply("id", "23436576");
  }

  lemma RotatedIdReply()
    ensures HandlePlaintextResponse(Line("id", "23436576") + "\n" + Line("registration_id", "3456"))
            == Success(Some("3456"))
  {
    TwoLineReply("id", "23436576", "registration_id", "3456");
  }

  /** The backoff after one more `Unavailable`: doubled, but never beyond
      the maximum. */
  function NextBackoff(backoff: int): (r: int)
    ensures r <= MaxBackoffDelay
    ensures 0 <= backoff <= MaxBackoffDelay ==> backoff <= r
  {
    if 2 * backoff < MaxBackoffDelay then 2 * backoff else MaxBackoffDelay
  }

  /** The backoff in force during attempt `k` (counting from 0). */
  function BackoffAt(k: nat): (b: int)
    ensures BackoffInitialDelay <= b <= MaxBackoffDelay
  {
    if k == 0 then BackoffInitialDelay else NextBackoff(BackoffAt(k - 1))
  }

  function Pow2(k: nat): nat
  {
    if k == 0 then 1 else 2 * Pow2(k - 1)
  }

  /** The backoff doubles from 1 s for ten retries and then stays at its
      maximum, 1024 s. */
  lemma {:induction false} BackoffClosedForm(k: nat)
    ensures k <= 10 ==> BackoffAt(k) == BackoffInitialDelay * Pow2(k)
    ensures k >= 10 ==> BackoffAt(k) == MaxBackoffDelay
  {
    if k > 0 {
      BackoffClosedForm(k - 1);
      if k <= 10 {
        Pow2Below(k - 1, 9);
        assert Pow2(9) == 512;
        assert BackoffAt(k - 1) <= 512000;
      }
    }
  }

  lemma {:induction false} Pow2Below(i: nat, j: nat)
    requires i <= j
    ensures Pow2(i) <= Pow2(j)
    decreases j
  {
    if i < j {
      Pow2Below(i, j - 1);
    }
  }

  /** The time slept after the `k`-th `Unavailable`, `jitter` standing for
      the value `random.randrange(backoff)` drew. */
  function SleepTime(k: nat, jitter: int): int
  {
    BackoffAt(k) / 2 + jitter
  }

  /** With the random part drawn from [0, b), the sleep lies in
      [b/2, b/2 + b) for the backoff b in force. */
  lemma SleepBounds(k: nat, jitter: int)
    requires 0 <= jitter < BackoffAt(k)
    ensures BackoffAt(k) / 2 <= SleepTime(k, jitter) < BackoffAt(k) / 2 + BackoffAt(k)
  {
  }

  /** One attempt: the request, then the parsing of its reply. Both can
      raise `GCMUnavailableException`, and only that exception is retried. */
  function PlainAttempt(w: Wire<string>): (r: Result<Option<string>, GcmError>)
    ensures r != Failure(IOError)
  {
    match MakeRequest(w)
    case Failure(e) => Failure(e)
    case Success(body) => HandlePlaintextResponse(body)
  }

  /** An attempt is retried when the gateway answered 500 or 503, or when
      its reply was the error code `Unavailable`; failing to connect is not
      retried. */
  lemma RetriedAttempts(w: Wire<string>)
    ensures PlainAttempt(w) == Failure(Unavailable) <==>
      (w.HttpError? && (w.code == 500 || w.code == 503))
      || (w.Reply? && HandlePlaintextResponse(w.body) == Failure(Unavailable))
    ensures w.IoFailure? || w.OtherFailure? ==> PlainAttempt(w) == Failure(Connection)
  {
  }

  /** The checks `request_plaintext` makes before its first request: a
      registration id, a nonzero number of tries and a payload that
      `construct_payload` accepts. */
  predicate Ready(registrationId: string, collapseKey: Option<string>, timeToLive: Option<int>, tries: int)
  {
    registrationId != "" && tries != 0 && PayloadError(collapseKey, timeToLive).None?
  }

  /** The retry loop of `request_plaintext`. The reply of request `k` is
      `script[k]` and the random part of the `k`-th sleep is `jitter[k]`;
      `requests` counts requests and `sleeps` lists the sleep times in
      milliseconds. Every attempt that met `Unavailable` is followed by a
      sleep, the last one included; the loop stops at the first other
      outcome, which is the result, or once the tries are spent, with
      `IOError`. */
  method RetryLoop(tries: int, script: seq<Wire<string>>, jitter: seq<int>)
    returns (result: Result<Option<string>, GcmError>, requests: nat, sleeps: seq<int>)
    requires tries <= |script| && tries <= |jitter|
    ensures (|sleeps| == requests == Rounds(tries) && result == Failure(IOError))
            || (|sleeps| + 1 == requests <= Rounds(tries) && result == PlainAttempt(script[|sleeps|])
                && result != Failure(Unavailable))
    ensures forall k :: 0 <= k < |sleeps| ==> PlainAttempt(script[k]) == Failure(Unavailable)
    ensures forall k :: 0 <= k < |sleeps| ==> sleeps[k] == SleepTime(k, jitter[k])
  {
    requests, sleeps := 0, [];
    var k := 0;
    while k < tries
      invariant 0 <= k <= Rounds(tries)
      invariant requests == k && |sleeps| == k
      invariant forall j :: 0 <= j < k ==> PlainAttempt(script[j]) == Failure(Unavailable)
      invariant forall j :: 0 <= j < k ==> sleeps[j] == SleepTime(j, jitter[j])
    {
      var outcome := PlainAttempt(script[k]);
      requests := requests + 1;
      if outcome != Failure(Unavailable) {
        return outcome, requests, sleeps;
      }
      sleeps := sleeps + [SleepTime(k, jitter[k])];
      k := k + 1;
    }
    result := Failure(IOError);
  }

  /** `request_plaintext`: an empty id, zero tries or an invalid payload
      fail before any request; otherwise the retry loop runs, and it ends
      in `IOError` exactly when every request met `Unavailable`. */
  method RequestPlaintext(registrationId: string, data: map<string, string>, collapseKey: Option<string>,
                          delayWhileIdle: bool, timeToLive: Option<int>, tries: int,
                          script: seq<Wire<string>>, jitter: seq<int>)
    returns (result: Result<Option<string>, GcmError>, requests: nat, sleeps: seq<int>)
    requires tries <= |script| && tries <= |jitter|
    ensures registrationId == "" ==> result == Failure(MissingRegistration)
    ensures registrationId != "" && tries == 0 ==> result == Failure(GcmException(NoTries))
    ensures registrationId != "" && tries != 0 && PayloadError(collapseKey, timeToLive).Some? ==>
      result == Failure(PayloadError(collapseKey, timeToLive).value)
    ensures !Ready(registrationId, collapseKey, timeToLive, tries) ==>
      requests == 0 && sleeps == []
    ensures Ready(registrationId, collapseKey, timeToLive, tries) ==>
      (|sleeps| == requests == Rounds(tries) && result == Failure(IOError))
      || (|sleeps| + 1 == requests <= Rounds(tries) && result == PlainAttempt(script[|sleeps|])
          && result != Failure(Unavailable))
    ensures forall k :: 0 <= k < |sleeps| ==> PlainAttempt(script[k]) == Failure(Unavailable)
    ensures forall k :: 0 <= k < |sleeps| ==> sleeps[k] == SleepTime(k, jitter[k])
    ensures result == Failure(IOError) <==>
      Ready(registrationId, collapseKey, timeToLive, tries) && |sleeps| == requests
  {
    if registrationId == "" {
      return Failure(MissingRegistration), 0, [];
    }
    if tries == 0 {
      return Failure(GcmException(NoTries)), 0, [];
    }
    var payload := ConstructPayload(Single(registrationId), data, collapseKey, delayWhileIdle, timeToLive);
    if payload.Failure? {
      return Failure(payload.error), 0, [];
    }
    result, requests, sleeps := RetryLoop(tries, script, jitter);
  }

  lemma AcceptedReply(reply: string)
    requires reply == "id=123456789"
    ensures PlainAttempt(Reply(reply)) == Success(None)
  {
    assert Line("id", "123456789") == reply;
    OneLineReply("id", "123456789");
  }

  /** Two `Unavailable` replies and then `id=123456789`, with the default
      five tries and whatever data: three requests, two sleeps within
      [b/2, b/2 + b) of the doubling backoff, and nothing returned. */
  method RetryPlaintextOk(data: map<string, string>, reply: string, jitter: seq<int>)
    returns (result: Result<Option<string>, GcmError>, requests: nat, sleeps: seq<int>)
    requires reply == "id=123456789"
    requires |jitter| == 5 && 0 <= jitter[0] < BackoffAt(0) && 0 <= jitter[1] < BackoffAt(1)
    ensures result == Success(None) && requests == 3 && |sleeps| == 2
    ensures 500 <= sleeps[0] < 1500 && 1000 <= sleeps[1] < 3000
  {
    AcceptedReply(reply);
    var script := [HttpError(503), HttpError(503), Reply(reply), OtherFailure, OtherFailure];
    result, requests, sleeps := RequestPlaintext("1234", data, None, false, None, 5, script, jitter);
    assert Ready("1234", None, None, 5);
    assert PlainAttempt(script[0]) == PlainAttempt(script[1]) == Failure(Unavailable);
    assert PlainAttempt(script[2]) == Success(None);
    assert |sleeps| == 2;
    FirstSleeps(jitter, sleeps);
  }

  /** The first two sleeps of the retry loop: within [500, 1500) and
      [1000, 3000) milliseconds. */
  lemma FirstSleeps(jitter: seq<int>, sleeps: seq<int>)
    requires |sleeps| == 2 <= |jitter| && 0 <= jitter[0] < BackoffAt(0) && 0 <= jitter[1] < BackoffAt(1)
    requires forall k :: 0 <= k < 2 ==> sleeps[k] == SleepTime(k, jitter[k])
    ensures 500 <= sleeps[0] < 1500 && 1000 <= sleeps[1] < 3000
  {
    assert BackoffAt(1) == 2000;
    SleepBounds(0, jitter[0]);
    SleepBounds(1, jitter[1]);
  }

  /** Only `Unavailable` replies with two tries: two requests, a sleep
      after each, and `IOError`. */
  method RetryPlaintextFail(data: map<string, string>, jitter: seq<int>)
    returns (result: Result<Option<string>, GcmError>, requests: nat, sleeps: seq<int>)
    requires |jitter| == 2
    ensures result == Failure(IOError) && requests == 2 && |sleeps| == 2
  {
    var script := [HttpError(503), HttpError(503)];
    assert Ready("1234", None, None, 2);
    result, requests, sleeps :=
      RequestPlaintext("1234", data, None, false, None, 2, script, jitter);
  }
}
