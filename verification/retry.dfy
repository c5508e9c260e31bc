/** The shape of the samples' retry loop, apart from what one attempt does:
    attempt with the current ids, stop unless the outcome calls for another
    round, narrow the ids, and go round again while attempts are left. */
module Retry {
  import opened Seqs

  /** What the loop needs to know: the attempt itself (ids and the reply the
      transport produced), whether an outcome calls for another round, and
      the ids of that round. */
  datatype Policy<-W, !O> = Policy(attempt: (seq<string>, W) -> O,
                                 goOn: O -> bool,
                                 next: (seq<string>, O) -> seq<string>)

  /** One attempt: the ids it was given and its outcome. */
  datatype Step<O> = Step(ids: seq<string>, outcome: O)

  /** The attempts made with `budget` attempts left; `script[k]` is what the
      transport does on attempt `k`. */
  function Run<W, O>(p: Policy<W, O>, ids: seq<string>, budget: nat, script: seq<W>): seq<Step<O>>
    requires budget <= |script|
    decreases budget
  {
    if budget == 0 then []
    else
      var o := p.attempt(ids, script[0]);
      if p.goOn(o) then [Step(ids, o)] + Run(p, p.next(ids, o), budget - 1, script[1..])
      else [Step(ids, o)]
  }

  /** Step `k` calls for another round and hands its next ids to step
      `k + 1`. */
  ghost predicate HandsOn<W, O>(p: Policy<W, O>, trace: seq<Step<O>>, k: nat)
    requires k + 1 < |trace|
  {
    p.goOn(trace[k].outcome) && trace[k + 1].ids == p.next(trace[k].ids, trace[k].outcome)
  }

  /** The defining facts of a trace, step by step: it is no longer than the
      budget and empty only without one; it starts with the caller's ids;
      step `k` is the attempt with its own ids against `script[k]`; every
      step but the last hands on; and it stops before the budget runs out
      only on an outcome that does not call for another round. */
  ghost predicate IsRun<W, O>(p: Policy<W, O>, ids: seq<string>, budget: nat, script: seq<W>, trace: seq<Step<O>>)
    requires budget <= |script|
  {
    && |trace| <= budget
    && (budget > 0 ==> |trace| > 0)
    && (|trace| > 0 ==> trace[0].ids == ids)
    && (forall k :: 0 <= k < |trace| ==> trace[k].outcome == p.attempt(trace[k].ids, script[k]))
    && (forall k :: 0 <= k < |trace| - 1 ==> HandsOn(p, trace, k))
    && (0 < |trace| < budget ==> !p.goOn(trace[|trace| - 1].outcome))
  }

  /** `Run` has the defining facts. */
  lemma {:induction false} RunIsRun<W, O>(p: Policy<W, O>, ids: seq<string>, budget: nat, script: seq<W>)
    requires budget <= |script|
    ensures IsRun(p, ids, budget, script, Run(p, ids, budget, script))
    decreases budget
  {
    if budget > 0 {
      var o := p.attempt(ids, script[0]);
      if p.goOn(o) {
        var next := p.next(ids, o);
        var rest := Run(p, next, budget - 1, script[1..]);
        RunIsRun(p, next, budget - 1, script[1..]);
        var trace := [Step(ids, o)] + rest;
        forall k | 0 <= k < |trace|
          ensures trace[k].outcome == p.attempt(trace[k].ids, script[k])
        {
          if k > 0 {
            assert trace[k] == rest[k - 1];
            assert script[1..][k - 1] == script[k];
          }
        }
        forall k | 0 <= k < |trace| - 1
          ensures HandsOn(p, trace, k)
        {
          if k > 0 {
            assert HandsOn(p, rest, k - 1);
            assert trace[k] == rest[k - 1] && trace[k + 1] == rest[k];
          }
        }
      }
    }
  }

  /** The defining facts admit only `Run`. */
  lemma {:induction false} OnlyRun<W, O>(p: Policy<W, O>, ids: seq<string>, budget: nat, script: seq<W>,
                                         trace: seq<Step<O>>)
    requires budget <= |script|
    requires IsRun(p, ids, budget, script, trace)
    ensures trace == Run(p, ids, budget, script)
    decreases budget
  {
    if budget > 0 {
      var o := p.attempt(ids, script[0]);
      assert trace[0] == Step(ids, o);
      if p.goOn(o) {
        var next := p.next(ids, o);
        var rest := trace[1..];
        assert |rest| > 0 ==> rest[0] == trace[1] && HandsOn(p, trace, 0);
        assert |rest| > 0 ==> rest[|rest| - 1] == trace[|trace| - 1];
        forall k | 0 <= k < |rest|
          ensures rest[k].outcome == p.attempt(rest[k].ids, script[1..][k])
        {
          assert rest[k] == trace[k + 1];
        }
        forall k | 0 <= k < |rest| - 1
          ensures HandsOn(p, rest, k)
        {
          assert HandsOn(p, trace, k + 1);
          assert rest[k] == trace[k + 1] && rest[k + 1] == trace[k + 2];
        }
        assert IsRun(p, next, budget - 1, script[1..], rest);
        OnlyRun(p, next, budget - 1, script[1..], rest);
        assert trace == [trace[0]] + rest;
      } else {
        assert |trace| > 1 ==> HandsOn(p, trace, 0);
      }
    }
  }

  /** Attempt `k` goes to some of the caller's ids, in their order, when
      every round narrows the ids it is handed. */
  lemma {:induction false} StepNarrows<W, O>(p: Policy<W, O>, ids: seq<string>, budget: nat, script: seq<W>,
                                             trace: seq<Step<O>>, k: nat)
    requires budget <= |script|
    requires forall x, o :: IsSubsequence(p.next(x, o), x)
    requires IsRun(p, ids, budget, script, trace) && k < |trace|
    ensures IsSubsequence(trace[k].ids, ids)
  {
    if k == 0 {
      SubsequenceReflexive(ids);
    } else {
      StepNarrows(p, ids, budget, script, trace, k - 1);
      assert HandsOn(p, trace, k - 1);
      SubsequenceTransitive(trace[k].ids, trace[k - 1].ids, ids);
    }
  }

  /** Every attempt goes to some of the caller's ids, in their order, when
      every round narrows the ids it is handed. */
  lemma RunNarrows<W, O>(p: Policy<W, O>, ids: seq<string>, budget: nat, script: seq<W>)
    requires budget <= |script|
    requires forall x, o :: IsSubsequence(p.next(x, o), x)
    ensures forall k :: 0 <= k < |Run(p, ids, budget, script)| ==> IsSubsequence(Run(p, ids, budget, script)[k].ids, ids)
  {
    var trace := Run(p, ids, budget, script);
    RunIsRun(p, ids, budget, script);
    forall k | 0 <= k < |trace|
      ensures IsSubsequence(trace[k].ids, ids)
    {
      StepNarrows(p, ids, budget, script, trace, k);
    }
  }

  /** What the caller has gathered from the trace: `absorb` applied to each
      step in order. */
  function Fold<O, R>(absorb: (R, Step<O>) -> R, start: R, trace: seq<Step<O>>): R
  {
    if |trace| == 0 then start else absorb(Fold(absorb, start, trace[..|trace| - 1]), trace[|trace| - 1])
  }

  /** A pause separates each attempt from the next. */
  function Pauses<O>(trace: seq<Step<O>>): nat
  {
    if |trace| == 0 then 0 else |trace| - 1
  }

  /** The loop itself: attempt, absorb the step, stop unless the outcome
      calls for another round, stop without a pause when it was the last
      attempt allowed, otherwise pause and go round with the next ids. */
  method Drive<W, O, R>(p: Policy<W, O>, absorb: (R, Step<O>) -> R, start: R,
                        ids: seq<string>, budget: nat, script: seq<W>)
    returns (gathered: R, trace: seq<Step<O>>, pauses: nat)
    requires budget <= |script|
    ensures trace == Run(p, ids, budget, script)
    ensures gathered == Fold(absorb, start, trace)
    ensures pauses == Pauses(trace)
  {
    gathered, trace, pauses := start, [], 0;
    var current := ids;
    var i := 0;
    assert script[i..] == script;
    while i < budget
      invariant 0 <= i <= budget && |trace| == i && pauses == i
      invariant i == budget ==> i == 0
      invariant Run(p, ids, budget, script) == trace + Run(p, current, budget - i, script[i..])
      invariant gathered == Fold(absorb, start, trace)
      decreases budget - i
    {
      var o := p.attempt(current, script[i]);
      assert script[i..][0] == script[i] && script[i..][1..] == script[i + 1..];
      var step := Step(current, o);
      var rest := if p.goOn(o) then Run(p, p.next(current, o), budget - i - 1, script[i + 1..]) else [];
      assert Run(p, current, budget - i, script[i..]) == [step] + rest;
      var before := trace;
      trace := trace + [step];
      assert before + ([step] + rest) == trace + rest;
      assert trace[..|trace| - 1] == before;
      gathered := absorb(gathered, step);
      if !p.goOn(o) {
        return;
      }
      current := p.next(current, o);
      if i == budget - 1 {
        break;
      }
      pauses := pauses + 1;
      i := i + 1;
    }
  }
}
