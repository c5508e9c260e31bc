/** Order-preserving subsequences, witnessed by strictly increasing positions. */
module Seqs {

  /** How many times a loop over `range(n)` runs: never when `n` is negative. */
  function Rounds(n: int): nat
  {
    if n < 0 then 0 else n
  }

  /** Every position listed in `idx` is below `n`, and the list is strictly increasing. */
  ghost predicate IncreasingBelow(idx: seq<nat>, n: nat)
  {
    && (forall j :: 0 <= j < |idx| ==> idx[j] < n)
    && (forall j, k :: 0 <= j < k < |idx| ==> idx[j] < idx[k])
  }

  /** `idx` lists, in increasing order, the positions of `b` that spell out `a`. */
  ghost predicate Embeds<T>(idx: seq<nat>, a: seq<T>, b: seq<T>)
  {
    && |idx| == |a|
    && IncreasingBelow(idx, |b|)
    && (forall j :: 0 <= j < |idx| ==> a[j] == b[idx[j]])
  }

  /** `a` is obtained from `b` by deleting elements, keeping the order of the rest. */
  ghost predicate IsSubsequence<T>(a: seq<T>, b: seq<T>)
  {
    exists idx :: Embeds(idx, a, b)
  }

  /** A strictly increasing list of positions below `n` has at most `n` entries. */
  lemma {:induction false} IncreasingBelowLength(idx: seq<nat>, n: nat)
    requires IncreasingBelow(idx, n)
    ensures |idx| <= n
    decreases |idx|
  {
    if |idx| > 0 {
      var last := idx[|idx| - 1];
      var front := idx[..|idx| - 1];
      assert IncreasingBelow(front, last) by {
        forall j | 0 <= j < |front|
          ensures front[j] < last
        {
          assert idx[j] < idx[|idx| - 1];
        }
      }
      IncreasingBelowLength(front, last);
    }
  }

  /** Every sequence is a subsequence of itself. */
  lemma SubsequenceReflexive<T>(a: seq<T>)
    ensures IsSubsequence(a, a)
  {
    var idx: seq<nat> := seq(|a|, j requires 0 <= j < |a| => j);
    assert Embeds(idx, a, a);
  }

  /** Taking a subsequence of a subsequence yields a subsequence of the original. */
  lemma SubsequenceTransitive<T>(a: seq<T>, b: seq<T>, c: seq<T>)
    requires IsSubsequence(a, b) && IsSubsequence(b, c)
    ensures IsSubsequence(a, c)
  {
    var ab :| Embeds(ab, a, b);
    var bc :| Embeds(bc, b, c);
    var ac: seq<nat> := seq(|ab|, j requires 0 <= j < |ab| => bc[ab[j]]);
    assert Embeds(ac, a, c);
  }
}
