/** The supersede pass: every rollback snapshot goes but the newest complete one,
  * however many there are. */
module SnapshotSupersede {
  import opened Tables
  import opened Vocabulary
  import opened Store
  import opened Snapshots

  function Rollbacks(rows: Rows, box: nat): seq<nat> {
    Select(rows, RollbackOf(box))
  }

  /** The box's undo point: its newest complete rollback snapshot. */
  predicate IsUndoPoint(rows: Rows, box: nat, id: nat) {
    && id in Rollbacks(rows, box) && IsComplete(rows, id)
    && forall j :: j in Rollbacks(rows, box) && IsComplete(rows, j) ==> j <= id
  }

  predicate HasUndoPoint(rows: Rows, box: nat) {
    exists id :: id in Rollbacks(rows, box) && IsComplete(rows, id)
  }

  lemma {:induction false} FirstCompleteIs(rows: Rows, ids: seq<nat>)
    ensures var found := FirstComplete(rows, ids);
            && (found.None? ==> forall k :: 0 <= k < |ids| ==> !IsComplete(rows, ids[k]))
            && (found.Some? ==>
                  exists k :: 0 <= k < |ids| && ids[k] == found.value && IsComplete(rows, ids[k])
                              && forall j :: 0 <= j < k ==> !IsComplete(rows, ids[j]))
  {
    if ids != [] && !IsComplete(rows, ids[0]) {
      FirstCompleteIs(rows, ids[1..]);
      var found := FirstComplete(rows, ids[1..]);
      if found.Some? {
        var k :| 0 <= k < |ids[1..]| && ids[1..][k] == found.value && IsComplete(rows, ids[1..][k])
                 && forall j :: 0 <= j < k ==> !IsComplete(rows, ids[1..][j]);
        assert ids[k + 1] == found.value;
        assert forall j :: 1 <= j < k + 1 ==> ids[j] == ids[1..][j - 1];
      }
    } else if ids != [] {
      assert ids[0] == FirstComplete(rows, ids).value;
    }
  }

  /** The page is the newest end of the box's rollback rows, newest first. */
  lemma PageIsNewest(rows: Rows, box: nat)
    ensures var page, all := RollbackPage(rows, box), Rollbacks(rows, box);
            && |page| == (if |all| < 50 then |all| else 50)
            && (forall k :: 0 <= k < |page| ==> page[k] == all[|all| - 1 - k])
            && (forall i :: i in page ==> i in all)
            && (forall i, j :: i in page && j in all && i < j ==> j in page)
  {
    var page, all := RollbackPage(rows, box), Rollbacks(rows, box);
    assert forall k :: 0 <= k < |page| ==> page[k] == all[|all| - 1 - k];
    forall i, j | i in page && j in all && i < j ensures j in page {
      var a :| 0 <= a < |page| && page[a] == i;
      var b :| 0 <= b < |all| && all[b] == j;
      assert all[|all| - 1 - a] == i && b > |all| - 1 - a;
      assert page[|all| - 1 - b] == j;
    }
  }

  /** The undo point is never scheduled for deletion, in the page or beyond it. */
  lemma UndoPointIsKept(rows: Rows, box: nat, id: nat)
    requires IsUndoPoint(rows, box, id)
    ensures id !in Superseded(rows, box)
    ensures id in RollbackPage(rows, box) ==> FirstComplete(rows, RollbackPage(rows, box)) == Some(id)
  {
    var page := RollbackPage(rows, box);
    PageIsNewest(rows, box);
    FirstCompleteIs(rows, page);
    if id in page {
      var found := FirstComplete(rows, page);
      assert found.Some?;
      var k :| 0 <= k < |page| && page[k] == found.value && IsComplete(rows, page[k])
               && forall j :: 0 <= j < k ==> !IsComplete(rows, page[j]);
      var a :| 0 <= a < |page| && page[a] == id;
      assert page[k] in page && page[k] <= id;
      assert a <= k;
    }
  }

  // ---- Passes with their deletes applied ----

  function Pass(rows: Rows, box: nat): Rows {
    Removed(rows, Superseded(rows, box))
  }

  function Passes(rows: Rows, box: nat, n: nat): Rows
    decreases n
  {
    if n == 0 then rows else Passes(Pass(rows, box), box, n - 1)
  }

  lemma PassKeepsUndoPoint(rows: Rows, box: nat, id: nat)
    requires IsUndoPoint(rows, box, id)
    ensures IsUndoPoint(Pass(rows, box), box, id)
  {
    UndoPointIsKept(rows, box, id);
    var after := Pass(rows, box);
    assert id in Rollbacks(after, box) && IsComplete(after, id);
    forall j | j in Rollbacks(after, box) && IsComplete(after, j) ensures j <= id {
      assert j in Rollbacks(rows, box) && IsComplete(rows, j);
    }
  }

  /** A pass removes what it schedules and nothing else. */
  lemma PassShrinks(rows: Rows, box: nat)
    ensures IdSet(Rollbacks(Pass(rows, box), box)) == IdSet(Rollbacks(rows, box)) - IdSet(Superseded(rows, box))
  {}

  lemma SomethingGoes(rows: Rows, box: nat, id: nat)
    requires IsUndoPoint(rows, box, id) && |Rollbacks(rows, box)| > 1
    ensures |Rollbacks(Pass(rows, box), box)| < |Rollbacks(rows, box)|
  {
    var page, all := RollbackPage(rows, box), Rollbacks(rows, box);
    PageIsNewest(rows, box);
    UndoPointIsKept(rows, box, id);
    FirstCompleteIs(rows, page);
    assert page[0] != page[1] && page[0] in page && page[1] in page;
    var kept := FirstComplete(rows, page);
    var goes := if Some(page[0]) == kept then page[1] else page[0];
    assert goes in Superseded(rows, box) && goes in all;
    PassShrinks(rows, box);
    AscendingCount(all);
    AscendingCount(Rollbacks(Pass(rows, box), box));
    assert goes !in IdSet(Rollbacks(Pass(rows, box), box));
    SubsetCount(IdSet(Rollbacks(Pass(rows, box), box)), IdSet(all) - {goes});
  }

  lemma OnlyTheUndoPoint(rows: Rows, box: nat, id: nat)
    requires IsUndoPoint(rows, box, id) && |Rollbacks(rows, box)| <= 1
    ensures Rollbacks(rows, box) == [id]
  {}

  lemma PassLeavesFewer(rows: Rows, box: nat, id: nat, n: nat)
    requires IsUndoPoint(rows, box, id) && |Rollbacks(rows, box)| <= n + 2
    ensures |Rollbacks(Pass(rows, box), box)| <= n + 1
  {
    hide Pass, Superseded;
    if |Rollbacks(rows, box)| > 1 {
      SomethingGoes(rows, box, id);
    } else {
      PassShrinks(rows, box);
      AscendingCount(Rollbacks(rows, box));
      AscendingCount(Rollbacks(Pass(rows, box), box));
      SubsetCount(IdSet(Rollbacks(Pass(rows, box), box)), IdSet(Rollbacks(rows, box)));
    }
  }

  /** Repeated with its deletes applied, the pass leaves exactly the undo point. */
  lemma {:induction false} PassesConverge(rows: Rows, box: nat, id: nat, n: nat)
    requires IsUndoPoint(rows, box, id) && |Rollbacks(rows, box)| <= n + 1
    ensures Rollbacks(Passes(rows, box, n), box) == [id]
    decreases n
  {
    hide Pass, IsUndoPoint, Rollbacks;
    if n == 0 {
      OnlyTheUndoPoint(rows, box, id);
    } else {
      PassKeepsUndoPoint(rows, box, id);
      PassLeavesFewer(rows, box, id, n - 1);
      PassesConverge(Pass(rows, box), box, id, n - 1);
    }
  }

  /** Every box with a complete rollback snapshot has one newest. */
  lemma UndoPointExists(rows: Rows, box: nat)
    requires HasUndoPoint(rows, box)
    ensures exists id :: IsUndoPoint(rows, box, id)
  {
    var complete := Select(rows, CompleteOf(box, Rollback));
    var some :| some in Rollbacks(rows, box) && IsComplete(rows, some);
    assert some in complete;
    var id := complete[|complete| - 1];
    assert id in complete;
    forall j | j in Rollbacks(rows, box) && IsComplete(rows, j) ensures j <= id {
      assert j in complete;
    }
    assert IsUndoPoint(rows, box, id);
  }

  /** A box with any complete rollback snapshot ends with one: its newest. */
  lemma OneUndoPointIsLeft(rows: Rows, box: nat, n: nat)
    requires HasUndoPoint(rows, box) && |Rollbacks(rows, box)| <= n + 1
    ensures exists id: nat :: IsUndoPoint(rows, box, id) && Rollbacks(Passes(rows, box, n), box) == [id]
  {
    UndoPointExists(rows, box);
    var id :| IsUndoPoint(rows, box, id);
    PassesConverge(rows, box, id, n);
  }

  // ---- A pass run again while its deletes are on their way ----

  /** Any of the deletes a pass scheduled have begun, any have finished. */
  predicate PartlyApplied(rows: Rows, rows': Rows, box: nat) {
    && |rows'| == |rows|
    && forall i :: 0 <= i < |rows| && rows'[i] != rows[i] ==>
         && i in Superseded(rows, box)
         && (rows'[i].None? || (rows[i].Some? && rows'[i].value == rows[i].value.(status := SnapshotDeleting)))
  }

  lemma AppliedKeepsUndoPoint(rows: Rows, rows': Rows, box: nat, id: nat)
    requires IsUndoPoint(rows, box, id) && PartlyApplied(rows, rows', box)
    ensures IsUndoPoint(rows', box, id) && id !in Superseded(rows', box)
  {
    UndoPointIsKept(rows, box, id);
    assert id in Rollbacks(rows', box);
    forall j | j in Rollbacks(rows', box) && IsComplete(rows', j) ensures j <= id {
      assert j in Rollbacks(rows, box) && IsComplete(rows, j);
    }
    UndoPointIsKept(rows', box, id);
  }

  lemma SparedIsFirst(rows: Rows, box: nat, i: nat)
    requires i in RollbackPage(rows, box) && i !in Superseded(rows, box)
    ensures FirstComplete(rows, RollbackPage(rows, box)) == Some(i)
  {}

  predicate Descending(ids: seq<nat>) {
    forall a, b :: 0 <= a < b < |ids| ==> ids[a] > ids[b]
  }

  lemma PageDescends(rows: Rows, box: nat)
    ensures Descending(RollbackPage(rows, box))
  {
    PageIsNewest(rows, box);
  }

  lemma {:induction false} FirstCompleteIsGreatest(rows: Rows, ids: seq<nat>, i: nat)
    requires Descending(ids) && FirstComplete(rows, ids) == Some(i)
    ensures IsComplete(rows, i)
    ensures forall j: nat :: j in ids && IsComplete(rows, j) ==> j <= i
  {
    hide IsComplete;
    assert ids == [ids[0]] + ids[1..];
    if !IsComplete(rows, ids[0]) {
      FirstCompleteIsGreatest(rows, ids[1..], i);
    } else {
      forall j: nat | j in ids ensures j <= ids[0] {
        var k :| 0 <= k < |ids| && ids[k] == j;
      }
    }
  }

  /** What a page spares is the undo point. */
  lemma SparedIsUndoPoint(rows: Rows, box: nat, i: nat)
    requires i in RollbackPage(rows, box) && i !in Superseded(rows, box)
    ensures IsUndoPoint(rows, box, i)
  {
    SparedIsFirst(rows, box, i);
    PageIsNewest(rows, box);
    PageDescends(rows, box);
    hide RollbackPage, Superseded, FirstComplete, IsComplete, Rollbacks;
    FirstCompleteIsGreatest(rows, RollbackPage(rows, box), i);
  }

  /** Run again, whichever of its deletes have taken effect, the pass names nothing it
    * had read and spared: what it adds lay beyond the first page. */
  lemma PassAgainAddsOnlyOlder(rows: Rows, rows': Rows, box: nat, i: nat)
    requires PartlyApplied(rows, rows', box) && i in Superseded(rows', box)
    ensures i in Superseded(rows, box) || (i in Rollbacks(rows, box) && i !in RollbackPage(rows, box))
  {
    assert i in Rollbacks(rows', box) && i in Rollbacks(rows, box);
    if i !in Superseded(rows, box) && i in RollbackPage(rows, box) {
      SparedIsUndoPoint(rows, box, i);
      AppliedKeepsUndoPoint(rows, rows', box, i);
      assert false;
    }
  }

  /** With no more rows than a page, it names exactly those of its deletes that have
    * not finished. */
  lemma PassIsIdempotent(rows: Rows, rows': Rows, box: nat, i: nat)
    requires PartlyApplied(rows, rows', box) && |Rollbacks(rows, box)| <= 50
    ensures i in Superseded(rows', box) <==> i in Superseded(rows, box) && rows'[i].Some?
  {
    WholePage(rows, box);
    AppliedFits(rows, rows', box);
    WholePage(rows', box);
    if i in Superseded(rows', box) {
      PassAgainAddsOnlyOlder(rows, rows', box, i);
    } else if i in Superseded(rows, box) && rows'[i].Some? {
      assert i in Rollbacks(rows', box);
      SparedIsUndoPoint(rows', box, i);
      assert i in Rollbacks(rows, box) && IsComplete(rows, i);
      UndoPointExists(rows, box);
      var id :| IsUndoPoint(rows, box, id);
      AppliedKeepsUndoPoint(rows, rows', box, id);
      UndoPointIsKept(rows, box, id);
    }
  }

  /** With no more rows than a page, a pass schedules every rollback row of the box but
    * its undo point. */
  lemma PassSchedulesExactly(rows: Rows, box: nat, i: nat)
    requires |Rollbacks(rows, box)| <= 50
    ensures i in Superseded(rows, box) <==> i < |rows| && RollbackOf(box)(rows[i]) && !IsUndoPoint(rows, box, i)
  {
    WholePage(rows, box);
    if i in RollbackPage(rows, box) && i !in Superseded(rows, box) {
      SparedIsUndoPoint(rows, box, i);
    }
    if IsUndoPoint(rows, box, i) {
      UndoPointIsKept(rows, box, i);
    }
  }

  lemma WholePage(rows: Rows, box: nat)
    requires |Rollbacks(rows, box)| <= 50
    ensures forall i: nat :: i in RollbackPage(rows, box) <==> i in Rollbacks(rows, box)
  {
    PageIsNewest(rows, box);
    var page, all := RollbackPage(rows, box), Rollbacks(rows, box);
    forall i | i in all ensures i in page {
      var k :| 0 <= k < |all| && all[k] == i;
      assert page[|all| - 1 - k] == i;
    }
  }

  lemma AppliedFits(rows: Rows, rows': Rows, box: nat)
    requires PartlyApplied(rows, rows', box)
    ensures |Rollbacks(rows', box)| <= |Rollbacks(rows, box)|
  {
    AscendingCount(Rollbacks(rows, box));
    AscendingCount(Rollbacks(rows', box));
    SubsetCount(IdSet(Rollbacks(rows', box)), IdSet(Rollbacks(rows, box)));
  }
}
