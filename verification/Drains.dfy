/** Work done a batch at a time that schedules itself again after a full batch, with
  * anything running between its rounds. */
module Drains {

  /** Everything added between the first `n` rounds. */
  function Total(added: nat -> nat, n: nat): nat {
    if n == 0 then 0 else Total(added, n - 1) + added(n - 1)
  }

  /** `left(k)` is what round `k` finds: a full round takes a batch away, and what runs
    * after it adds `added(k)` at most. */
  ghost predicate IsDraining(left: nat -> nat, added: nat -> nat, full: nat -> bool, batch: nat) {
    forall k: nat :: full(k) ==> left(k + 1) + batch <= left(k) + added(k)
  }

  ghost predicate AllFull(full: nat -> bool, n: nat) {
    forall k: nat :: k < n ==> full(k)
  }

  lemma {:induction false} FullRoundsTakeAway(left: nat -> nat, added: nat -> nat, full: nat -> bool, batch: nat, n: nat)
    requires IsDraining(left, added, full, batch) && AllFull(full, n)
    ensures left(n) + n * batch <= left(0) + Total(added, n)
  {
    if n > 0 {
      FullRoundsTakeAway(left, added, full, batch, n - 1);
      assert full(n - 1) && left(n - 1 + 1) == left(n);
      assert n * batch == (n - 1) * batch + batch;
    }
  }

  /** If `bound` is all the others ever add, some round is not full, after at most one
    * full round for each batch there was or came to be. */
  lemma SomeRoundIsShort(left: nat -> nat, added: nat -> nat, full: nat -> bool, batch: nat, bound: nat)
    returns (last: nat)
    requires IsDraining(left, added, full, batch) && batch > 0
    requires forall n: nat :: Total(added, n) <= bound
    ensures !full(last) && AllFull(full, last)
    ensures last * batch <= left(0) + bound
  {
    last := FirstShort(left, added, full, batch, bound, 0);
    FullRoundsTakeAway(left, added, full, batch, last);
  }

  lemma FirstShort(left: nat -> nat, added: nat -> nat, full: nat -> bool, batch: nat, bound: nat, from: nat)
    returns (last: nat)
    requires IsDraining(left, added, full, batch) && batch > 0 && AllFull(full, from)
    requires forall n: nat :: Total(added, n) <= bound
    ensures !full(last) && AllFull(full, last)
    decreases left(0) + bound - from
  {
    if !full(from) {
      last := from;
    } else {
      FullRoundsTakeAway(left, added, full, batch, from + 1);
      assert from + 1 <= (from + 1) * batch;
      last := FirstShort(left, added, full, batch, bound, from + 1);
    }
  }
}
