/** `send_notification` of the multicast sample: it refuses to start
    without ids, without a payload or without devices, then runs the shared
    retry loop with the current time as its collapse key. */
module MulticastSample {
  import opened Wrappers
  import opened Response
  import opened Transport
  import opened JsonRequest
  import opened Reconcile
  import opened Seqs
  import opened Retry
  import opened Driver

  /** The guard at the top: no ids, an empty payload or an empty registry. */
  predicate Refused(ids: seq<string>, data: map<string, string>, devices: Registry)
  {
    |ids| == 0 || |data| == 0 || |devices| == 0
  }

  /** `send_notification(ids, devices_by_reg_id, payload, max_attempts)`;
      `now` stands for `str(datetime.now())` and `script[i]` for what the
      gateway does on attempt `i`. A refused call returns `False` and
      touches nothing; otherwise the loop's attempts and registry updates
      are those of the shared loop, it returns `True` exactly when the last
      reply had nothing to resend, it never makes more attempts than
      allowed, every attempt goes to some of the caller's ids, and a device
      the caller did not name keeps its record. */
  method SendNotification(ids: seq<string>, devices: Registry, data: map<string, string>,
                          maxAttempts: int, now: string, script: seq<Wire<JsonBody>>)
    returns (ok: bool, reg: Registry, trace: Trace, pauses: nat)
    requires Rounds(maxAttempts) <= |script|
    ensures Refused(ids, data, devices) ==> !ok && reg == devices && trace == [] && pauses == 0
    ensures !Refused(ids, data, devices) ==>
              && trace == Run(Sender(data, now), ids, Rounds(maxAttempts), script)
              && reg == Replay(devices, trace)
    ensures ok <==> Succeeded(trace)
    ensures pauses == Pauses(trace)
    ensures |trace| <= Rounds(maxAttempts)
    ensures forall k :: 0 <= k < |trace| ==> IsSubsequence(trace[k].ids, ids)
    ensures reg.Keys == devices.Keys
    ensures forall key :: key in devices && key !in ids ==> reg[key] == devices[key]
  {
    if Refused(ids, data, devices) {
      return false, devices, [], 0;
    }
    ok, reg, trace, pauses := Deliver(ids, devices, data, now, maxAttempts, script);
    RunFacts(ids, data, now, Rounds(maxAttempts), script);
    ReplayKeepsDevices(devices, trace);
    forall key | key in devices && key !in ids
      ensures reg[key] == devices[key]
    {
      UnnamedDevicesUntouched(ids, devices, data, now, Rounds(maxAttempts), script, key);
    }
  }
}
