/**
 * The identifier allocator's history. The catalog hands out oids from one counter that
 * every object kind shares; each issued oid exceeds the one issued just before it.
 */
module Oids {

  /** Each oid in the history is larger than the one issued just before it. */
  ghost predicate StepwiseIncreasing(issued: seq<nat>)
  {
    forall i :: 0 < i < |issued| ==> issued[i - 1] < issued[i]
  }

  /** Issuance order is the numeric order: an oid issued earlier is strictly smaller. */
  lemma {:induction false} IssuedInOrder(issued: seq<nat>, i: nat, j: nat)
    requires StepwiseIncreasing(issued)
    requires i < j < |issued|
    ensures issued[i] < issued[j]
    decreases j - i
  {
    if i + 1 < j {
      IssuedInOrder(issued, i, j - 1);
    }
  }

  /** No two issuances, of whatever object kind, ever produced the same oid. */
  lemma IssuedDistinct(issued: seq<nat>)
    requires StepwiseIncreasing(issued)
    ensures forall i, j :: 0 <= i < |issued| && 0 <= j < |issued| && i != j ==> issued[i] != issued[j]
  {
    forall i, j | 0 <= i < |issued| && 0 <= j < |issued| && i != j
      ensures issued[i] != issued[j]
    {
      if i < j { IssuedInOrder(issued, i, j); } else { IssuedInOrder(issued, j, i); }
    }
  }

  /** Issuing the next counter value keeps the history increasing when the counter lies above it. */
  lemma IssueNext(issued: seq<nat>, next: nat)
    requires StepwiseIncreasing(issued)
    requires forall i :: 0 <= i < |issued| ==> issued[i] < next
    ensures StepwiseIncreasing(issued + [next])
    ensures next !in issued
  {
  }

  /** The oids `first`, `first + 1`, ..., `first + n - 1`: what `n` calls of GetNextOid hand out. */
  function Consecutive(first: nat, n: nat): (r: seq<nat>)
    ensures |r| == n
    ensures forall i :: 0 <= i < n ==> r[i] == first + i
  {
    if n == 0 then [] else Consecutive(first, n - 1) + [first + n - 1]
  }

  /** Handing out `m` oids and then `n` more hands out `m + n` consecutive oids. */
  lemma ConsecutiveAppend(first: nat, m: nat, n: nat)
    ensures Consecutive(first, m) + Consecutive(first + m, n) == Consecutive(first, m + n)
  {
    var l, r := Consecutive(first, m) + Consecutive(first + m, n), Consecutive(first, m + n);
    assert forall i :: 0 <= i < |l| ==> l[i] == r[i];
  }

  /** Issuing `n` consecutive counter values keeps the history increasing and below the advanced counter. */
  lemma IssueConsecutive(issued: seq<nat>, next: nat, n: nat)
    requires StepwiseIncreasing(issued)
    requires forall i :: 0 <= i < |issued| ==> issued[i] < next
    ensures StepwiseIncreasing(issued + Consecutive(next, n))
    ensures forall i :: 0 <= i < |issued| + n ==> (issued + Consecutive(next, n))[i] < next + n
  {
    var all := issued + Consecutive(next, n);
    forall i | 0 < i < |all|
      ensures all[i - 1] < all[i]
    {
      if i > |issued| {
        assert all[i - 1] == next + (i - 1 - |issued|);
      }
    }
  }
}
