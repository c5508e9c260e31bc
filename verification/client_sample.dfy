/** `send_notification` of the client sample: it refuses to start only
    without ids, then runs the same retry loop as the multicast sample,
    with the current time as its collapse key. */
module ClientSample {
  import opened Wrappers
  import opened Response
  import opened Transport
  import opened JsonRequest
  import opened Reconcile
  import opened Seqs
  import opened Retry
  import opened Driver
  import MulticastSample

  /** The guard at the top: no ids. An empty payload is left to
      `request_json` to refuse, and an empty registry is simply never
      updated. */
  predicate Refused(ids: seq<string>)
  {
    |ids| == 0
  }

  /** `send_notification(ids, devices_by_reg_id, payload, max_attempts)`;
      `now` stands for `str(datetime.now())` and `script[i]` for what the
      gateway does on attempt `i`. A refused call returns `False` and
      touches nothing; otherwise the loop's attempts and registry updates
      are those of the shared loop, it returns `True` exactly when the last
      reply had nothing to resend, it never makes more attempts than
      allowed, every attempt goes to some of the caller's ids, and a device
      the caller did not name keeps its record. */
  method SendNotification(ids: seq<string>, devices: Registry, data: map<string, string>,
                          maxAttempts: int, now: string, script: seq<Wire<JsonBody>>)
    returns (ok: bool, reg: Registry, trace: Trace, pauses: nat)
    requires Rounds(maxAttempts) <= |script|
    ensures Refused(ids) ==> !ok && reg == devices && trace == [] && pauses == 0
    ensures !Refused(ids) ==>
              && trace == Run(Sender(data, now), ids, Rounds(maxAttempts), script)
              && reg == Replay(devices, trace)
    ensures ok <==> Succeeded(trace)
    ensures pauses == Pauses(trace)
    ensures |trace| <= Rounds(maxAttempts)
    ensures forall k :: 0 <= k < |trace| ==> IsSubsequence(trace[k].ids, ids)
    ensures reg.Keys == devices.Keys
    ensures forall key :: key in devices && key !in ids ==> reg[key] == devices[key]
  {
    if Refused(ids) {
      return false, devices, [], 0;
    }
    ok, reg, trace, pauses := Deliver(ids, devices, data, now, maxAttempts, script);
    RunFacts(ids, data, now, Rounds(maxAttempts), script);
    ReplayKeepsDevices(devices, trace);
    forall key | key in devices && key !in ids
      ensures reg[key] == devices[key]
    {
      UnnamedDevicesUntouched(ids, devices, data, now, Rounds(maxAttempts), script, key);
    }
  }

  /** The two samples side by side. Where the multicast sample does not
      refuse, they make the same attempts, leave the same registry, pause
      as often and return the same flag. With ids but no data, the
      multicast sample makes no request while this one makes one, which is
      refused, and both return `False`. */
  method SamplesAgree(ids: seq<string>, devices: Registry, data: map<string, string>,
                      maxAttempts: int, now: string, script: seq<Wire<JsonBody>>)
    returns (ok: bool, reg: Registry, trace: Trace, pauses: nat,
             okMulticast: bool, regMulticast: Registry, traceMulticast: Trace, pausesMulticast: nat)
    requires Rounds(maxAttempts) <= |script|
    ensures !MulticastSample.Refused(ids, data, devices) ==>
              ok == okMulticast && reg == regMulticast && trace == traceMulticast && pauses == pausesMulticast
    ensures |ids| > 0 && |data| == 0 && maxAttempts > 0 ==>
              |traceMulticast| == 0 && |trace| == 1 && !ok && !okMulticast
  {
    ok, reg, trace, pauses := SendNotification(ids, devices, data, maxAttempts, now, script);
    okMulticast, regMulticast, traceMulticast, pausesMulticast :=
      MulticastSample.SendNotification(ids, devices, data, maxAttempts, now, script);
    if |ids| > 0 && |data| == 0 && maxAttempts > 0 {
      if |ids| <= MaxRegIds {
        NoDataOneAttempt(ids, now, Rounds(maxAttempts), script);
      } else {
        NonRetriableStops(ids, data, now, Rounds(maxAttempts), script);
      }
    }
  }
}
