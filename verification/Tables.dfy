/** Tables and the index reads made of them.
  *
  * A table is the sequence of its rows in creation order and an id is a row's
  * position, so ids are fresh and ascending ids are oldest first. An index read
  * is `Select`; `.take(n)` is `Take`; `.first()` is the first id of the result.
  */
module Tables {

  datatype Option<+T> = None | Some(value: T)

  predicate Ascending(ids: seq<nat>) {
    forall i, j :: 0 <= i < j < |ids| ==> ids[i] < ids[j]
  }

  /** The ids of the rows an index read matches, oldest first. */
  function Select<T>(rows: seq<T>, p: T -> bool): (ids: seq<nat>)
    ensures Ascending(ids)
    ensures forall i: nat :: i in ids <==> i < |rows| && p(rows[i])
  {
    if rows == [] then [] else
      var last := |rows| - 1;
      var ids := Select(rows[..last], p);
      assert forall k :: 0 <= k < |ids| ==> ids[k] < last by {
        forall k | 0 <= k < |ids| ensures ids[k] < last {
          assert ids[k] in ids;
        }
      }
      if p(rows[last]) then ids + [last] else ids
  }

  function Take<T>(s: seq<T>, n: nat): seq<T> {
    if |s| <= n then s else s[..n]
  }

  function IdSet(ids: seq<nat>): set<nat> {
    set i | i in ids
  }

  /** An ascending list has as many members as entries. */
  lemma AscendingCount(ids: seq<nat>)
    requires Ascending(ids)
    ensures |IdSet(ids)| == |ids|
  {
    DistinctCount(ids);
  }

  lemma LastOfAscending(ids: seq<nat>)
    requires Ascending(ids) && ids != []
    ensures ids[|ids| - 1] in ids
    ensures forall i: nat :: i in ids ==> i <= ids[|ids| - 1]
    ensures forall i: nat :: i in ids[..|ids| - 1] <==> i in ids && i != ids[|ids| - 1]
    ensures Ascending(ids[..|ids| - 1])
  {}

  /** Two ascending lists with the same members are the same list. */
  lemma {:induction false} AscendingUnique(a: seq<nat>, b: seq<nat>)
    requires Ascending(a) && Ascending(b)
    requires forall i: nat :: i in a <==> i in b
    ensures a == b
  {
    hide Ascending;
    assert a != [] ==> a[0] in a;
    assert b != [] ==> b[0] in b;
    if a != [] {
      var la, lb := |a| - 1, |b| - 1;
      LastOfAscending(a);
      LastOfAscending(b);
      assert a[la] == b[lb];
      forall i: nat ensures i in a[..la] <==> i in b[..lb] {
        assert i in a <==> i in b;
      }
      AscendingUnique(a[..la], b[..lb]);
      assert a == a[..la] + [a[la]] && b == b[..lb] + [b[lb]];
    }
  }

  lemma NoneSelected<T>(rows: seq<T>, p: T -> bool)
    requires Select(rows, p) == []
    ensures forall i :: 0 <= i < |rows| ==> !p(rows[i])
  {}

  lemma NothingSelected<T>(rows: seq<T>, p: T -> bool)
    requires forall i :: 0 <= i < |rows| ==> !p(rows[i])
    ensures Select(rows, p) == []
  {}

  /** Rows deleted: a hole where each was. */
  function Removed<T>(rows: seq<Option<T>>, ids: seq<nat>): (r: seq<Option<T>>)
    ensures |r| == |rows|
    ensures forall i :: 0 <= i < |r| ==> r[i] == if i in ids then None else rows[i]
  {
    seq(|rows|, i requires 0 <= i < |rows| => if i in ids then None else rows[i])
  }

  // ---- Index orders ----

  /** An index order over a table of `n` rows: every id once. */
  predicate IsListing(listing: seq<nat>, n: nat) {
    && (forall i :: 0 <= i < n ==> i in listing)
    && (forall k :: 0 <= k < |listing| ==> listing[k] < n)
    && Distinct(listing)
  }

  predicate Distinct(ids: seq<nat>) {
    forall j, k :: 0 <= j < k < |ids| ==> ids[j] != ids[k]
  }

  /** What an index range holds, in index order. */
  function Ranged<T>(rows: seq<T>, listing: seq<nat>, p: T -> bool): (ids: seq<nat>)
    ensures forall i: nat :: i in ids <==> i in listing && i < |rows| && p(rows[i])
  {
    if listing == [] then [] else
      var rest := Ranged(rows, listing[1..], p);
      if listing[0] < |rows| && p(rows[listing[0]]) then [listing[0]] + rest else rest
  }

  lemma DistinctConcat(a: seq<nat>, b: seq<nat>)
    requires Distinct(a) && Distinct(b)
    requires forall i: nat :: i in a ==> i !in b
    ensures Distinct(a + b)
  {
    forall j, k | 0 <= j < k < |a + b| ensures (a + b)[j] != (a + b)[k] {
      if j < |a| <= k {
        assert a[j] in a && b[k - |a|] in b;
      }
    }
  }

  lemma {:induction false} RangedDistinct<T>(rows: seq<T>, listing: seq<nat>, p: T -> bool)
    requires Distinct(listing)
    ensures Distinct(Ranged(rows, listing, p))
  {
    if listing != [] {
      RangedDistinct(rows, listing[1..], p);
      assert listing[0] !in listing[1..];
      DistinctConcat([listing[0]], Ranged(rows, listing[1..], p));
    }
  }

  lemma {:induction false} DistinctCount(ids: seq<nat>)
    requires Distinct(ids)
    ensures |IdSet(ids)| == |ids|
  {
    if ids == [] {
      assert IdSet(ids) == {};
    } else {
      var last := |ids| - 1;
      DistinctCount(ids[..last]);
      assert ids == ids[..last] + [ids[last]];
      assert IdSet(ids) == IdSet(ids[..last]) + {ids[last]};
      assert ids[last] !in ids[..last];
    }
  }

  // ---- Counting ----

  lemma SubsetCount(a: set<nat>, b: set<nat>)
    requires a <= b
    ensures |a| <= |b|
  {
    assert b == a + (b - a);
  }

  lemma DifferenceCount(a: set<nat>, b: set<nat>)
    requires b <= a
    ensures |a - b| == |a| - |b|
  {
    assert a == (a - b) + b;
  }
}
