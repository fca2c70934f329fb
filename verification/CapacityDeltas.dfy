/** What each transaction does to the snapshot commitments the capacity check reads:
  * a conversion moves slots from one column to the other, a capture fills slots the
  * box had already, and a delete gives back an image the provider no longer keeps. */
module CapacityDeltas {
  import opened Tables
  import opened Vocabulary
  import opened Store
  import opened SlugAvailability
  import opened Operations
  import opened Checkout
  import opened Capacity
  import CheckoutInvariant
  import CheckoutSteps
  import CheckoutRuns
  import Snapshots

  // ---- Counting rows ----

  lemma {:induction false} ActiveRowsAdds(a: seq<SnapshotImage>, b: seq<SnapshotImage>, box: nat)
    ensures ActiveRows(a + b, box) == ActiveRows(a, box) + ActiveRows(b, box)
  {
    if b == [] {
      assert a + b == a;
    } else {
      assert (a + b)[..|a + b| - 1] == a + b[..|b| - 1];
      ActiveRowsAdds(a, b[..|b| - 1], box);
    }
  }

  lemma {:induction false} CountedRowsAdds(a: seq<SnapshotImage>, b: seq<SnapshotImage>)
    ensures CountedRows(a + b) == CountedRows(a) + CountedRows(b)
  {
    if b == [] {
      assert a + b == a;
    } else {
      assert (a + b)[..|a + b| - 1] == a + b[..|b| - 1];
      CountedRowsAdds(a, b[..|b| - 1]);
    }
  }

  lemma {:induction false} NoRowsOfOthers(rows: seq<SnapshotImage>, box: nat, other: nat)
    requires forall k :: 0 <= k < |rows| ==> rows[k].box == box
    requires other != box
    ensures ActiveRows(rows, other) == 0
  {
    if rows != [] { NoRowsOfOthers(rows[..|rows| - 1], box, other); }
  }

  function Unfilled(plan: BoxPlan, active: nat): nat {
    Max(0, SnapshotSlots(plan) - active)
  }

  lemma PartsAdd(before: seq<SnapshotImage>, mid: seq<SnapshotImage>, after: seq<SnapshotImage>, box: nat)
    ensures ActiveRows(before + mid + after, box) ==
            ActiveRows(before, box) + ActiveRows(mid, box) + ActiveRows(after, box)
    ensures CountedRows(before + mid + after) == CountedRows(before) + CountedRows(mid) + CountedRows(after)
  {
    ActiveRowsAdds(before + mid, after, box);
    ActiveRowsAdds(before, mid, box);
    CountedRowsAdds(before + mid, after);
    CountedRowsAdds(before, mid);
  }

  lemma OthersUnmoved(
    before: seq<SnapshotImage>, gone: seq<SnapshotImage>, come: seq<SnapshotImage>, after: seq<SnapshotImage>,
    box: nat, other: nat)
    requires forall k :: 0 <= k < |gone| ==> gone[k].box == box
    requires forall k :: 0 <= k < |come| ==> come[k].box == box
    requires other != box
    ensures ActiveRows(before + gone + after, other) == ActiveRows(before + come + after, other)
  {
    PartsAdd(before, gone, after, other);
    PartsAdd(before, come, after, other);
    NoRowsOfOthers(gone, box, other);
    NoRowsOfOthers(come, box, other);
  }

  // ---- The listing does not matter ----

  /** What a box counts while it is there: the slots it has not filled. */
  function FreeAt(boxes: seq<Box>, box: nat, rows: seq<SnapshotImage>): nat {
    if box < |boxes| && IsLive(boxes[box]) then Unfilled(boxes[box].plan, ActiveRows(rows, box)) else 0
  }

  /** Over the boxes in table order. */
  function FreeByTable(boxes: seq<Box>, rows: seq<SnapshotImage>): nat {
    if boxes == [] then 0 else FreeByTable(boxes[..|boxes| - 1], rows) + FreeAt(boxes, |boxes| - 1, rows)
  }

  /** Over a list of ids. */
  function FreeOf(boxes: seq<Box>, ids: seq<nat>, rows: seq<SnapshotImage>): nat {
    if ids == [] then 0 else FreeOf(boxes, ids[..|ids| - 1], rows) + FreeAt(boxes, ids[|ids| - 1], rows)
  }

  /** Every open reservation in table order counts the slots of its plan. */
  function SlotsByTable(intents: seq<Intent>): nat {
    if intents == [] then 0 else
      var last := |intents| - 1;
      SlotsByTable(intents[..last]) + if OpenReservation()(intents[last]) then SnapshotSlots(intents[last].plan) else 0
  }

  ghost predicate ListsLive(boxes: seq<Box>, ids: seq<nat>) {
    Distinct(ids) && forall b: nat :: b in ids <==> b < |boxes| && IsLive(boxes[b])
  }

  lemma {:induction false} FreeOfAdds(boxes: seq<Box>, a: seq<nat>, b: seq<nat>, rows: seq<SnapshotImage>)
    ensures FreeOf(boxes, a + b, rows) == FreeOf(boxes, a, rows) + FreeOf(boxes, b, rows)
  {
    if b == [] {
      assert a + b == a;
    } else {
      assert (a + b)[..|a + b| - 1] == a + b[..|b| - 1];
      FreeOfAdds(boxes, a, b[..|b| - 1], rows);
    }
  }

  lemma {:induction false} FreeOfPlanned(boxes: seq<Box>, ids: seq<nat>, rows: seq<SnapshotImage>)
    requires forall k :: 0 <= k < |ids| ==> ids[k] < |boxes| && IsLive(boxes[ids[k]])
    ensures FreeSlots(PlannedBoxes(boxes, ids), rows) == FreeOf(boxes, ids, rows)
  {
    if ids != [] {
      FreeOfPlanned(boxes, ids[..|ids| - 1], rows);
      assert PlannedBoxes(boxes, ids)[..|ids| - 1] == PlannedBoxes(boxes, ids[..|ids| - 1]);
    }
  }

  lemma {:induction false} FreeOfPrefix(boxes: seq<Box>, ids: seq<nat>, rows: seq<SnapshotImage>)
    requires boxes != [] && forall k :: 0 <= k < |ids| ==> ids[k] < |boxes| - 1
    ensures FreeOf(boxes, ids, rows) == FreeOf(boxes[..|boxes| - 1], ids, rows)
  {
    if ids != [] {
      FreeOfPrefix(boxes, ids[..|ids| - 1], rows);
    }
  }

  function WithoutAt(ids: seq<nat>, k: nat): seq<nat>
    requires k < |ids|
  {
    ids[..k] + ids[k + 1..]
  }

  lemma WithoutAtDistinct(ids: seq<nat>, k: nat)
    requires k < |ids| && Distinct(ids)
    ensures Distinct(WithoutAt(ids, k))
    ensures forall b :: b in WithoutAt(ids, k) <==> b in ids && b != ids[k]
  {
    assert ids == ids[..k] + [ids[k]] + ids[k + 1..];
  }

  lemma FreeOfWithoutAt(boxes: seq<Box>, ids: seq<nat>, k: nat, rows: seq<SnapshotImage>)
    requires k < |ids|
    ensures FreeOf(boxes, ids, rows) == FreeOf(boxes, WithoutAt(ids, k), rows) + FreeAt(boxes, ids[k], rows)
  {
    assert ids == ids[..k] + [ids[k]] + ids[k + 1..];
    FreeOfAdds(boxes, ids[..k] + [ids[k]], ids[k + 1..], rows);
    FreeOfAdds(boxes, ids[..k], [ids[k]], rows);
    FreeOfAdds(boxes, ids[..k], ids[k + 1..], rows);
    assert [ids[k]][..0] == [];
  }

  /** However the live boxes are listed, each of them once, they count the same. */
  lemma {:induction false} AnyListing(boxes: seq<Box>, ids: seq<nat>, rows: seq<SnapshotImage>)
    requires ListsLive(boxes, ids)
    ensures FreeOf(boxes, ids, rows) == FreeByTable(boxes, rows)
  {
    if boxes == [] {
      DistinctCount(ids);
      assert IdSet(ids) == {};
    } else {
      var last := |boxes| - 1;
      var rest := ids;
      if IsLive(boxes[last]) {
        assert last in ids;
        var k: nat :| k < |ids| && ids[k] == last;
        WithoutAtDistinct(ids, k);
        FreeOfWithoutAt(boxes, ids, k, rows);
        rest := WithoutAt(ids, k);
      }
      forall k | 0 <= k < |rest| ensures rest[k] < last { assert rest[k] in rest; }
      FreeOfPrefix(boxes, rest, rows);
      AnyListing(boxes[..last], rest, rows);
    }
  }

  function OpenPlans(intents: seq<Intent>): seq<BoxPlan> {
    var open := Select(intents, OpenReservation());
    assert forall k :: 0 <= k < |open| ==> open[k] in open;
    PlansOf(intents, open)
  }

  lemma {:induction false} OpenInOrder(intents: seq<Intent>)
    ensures CheckoutSlots(OpenPlans(intents)) == SlotsByTable(intents)
  {
    if intents != [] {
      var last := |intents| - 1;
      OpenInOrder(intents[..last]);
      if OpenReservation()(intents[last]) {
        assert OpenPlans(intents)[..|OpenPlans(intents)| - 1] == OpenPlans(intents[..last]);
      } else {
        assert OpenPlans(intents) == OpenPlans(intents[..last]);
      }
    }
  }

  /** What the capacity check reads as the snapshot commitments of the tables. */
  function SnapshotCommitments(db: Db): nat {
    CurrentDemand(db, 0).snapshotCommitments
  }

  /** They are sums over the tables, whatever order the index reads list them in. */
  lemma CommitmentsByTable(db: Db, now: int)
    ensures CurrentDemand(db, now).snapshotCommitments == SnapshotCommitments(db)
    ensures SnapshotCommitments(db) ==
            CountedRows(db.snapshots) + FreeByTable(db.boxes, db.snapshots) + SlotsByTable(db.intents)
  {
    var live := LiveBoxIds(db.boxes, LIVE_STATUSES);
    LiveBoxListing(db.boxes);
    forall k | 0 <= k < |live| ensures live[k] < |db.boxes| && IsLive(db.boxes[live[k]]) { assert live[k] in live; }
    FreeOfPlanned(db.boxes, live, db.snapshots);
    AnyListing(db.boxes, live, db.snapshots);
    OpenInOrder(db.intents);
  }

  // ---- Conversion ----

  lemma {:induction false} SlotsWithout(intents: seq<Intent>, i: nat, row: Intent)
    requires i < |intents| && !OpenReservation()(row)
    ensures SlotsByTable(intents[i := row]) ==
            SlotsByTable(intents) - if OpenReservation()(intents[i]) then SnapshotSlots(intents[i].plan) else 0
  {
    var last := |intents| - 1;
    if i < last {
      SlotsWithout(intents[..last], i, row);
      assert intents[i := row][..last] == intents[..last][i := row];
    } else {
      assert intents[i := row][..last] == intents[..last];
    }
  }

  /** Snapshots belong to boxes that were made. */
  predicate SnapshotsKnown(db: Db) {
    forall k :: 0 <= k < |db.snapshots| ==> db.snapshots[k].box < |db.boxes|
  }

  lemma {:induction false} NoRowsYet(rows: seq<SnapshotImage>, box: nat)
    requires forall k :: 0 <= k < |rows| ==> rows[k].box != box
    ensures ActiveRows(rows, box) == 0
  {
    if rows != [] { NoRowsYet(rows[..|rows| - 1], box); }
  }

  /** A conversion that makes a box takes away the slots its reservation held - none if
    * it had lapsed - and adds those of the plan sold. */
  lemma ConversionMovesSlots(db: Db, i: nat, customer: nat, order: nat, subscription: nat, plan: BoxPlan, now: int)
    requires CheckoutInvariant.Sound(db) && SnapshotsKnown(db) && i < |db.intents| && db.intents[i].box.None?
    requires ConvertCheckoutIntentToBox(db, i, customer, order, subscription, plan, now).1.Fulfilled?
    ensures var db' := ConvertCheckoutIntentToBox(db, i, customer, order, subscription, plan, now).0;
            SnapshotCommitments(db') ==
            SnapshotCommitments(db) + SnapshotSlots(plan)
            - if db.intents[i].status == Active then SnapshotSlots(db.intents[i].plan) else 0
  {
    hide SnapshotCommitments, ConvertCheckoutIntentToBox, IsSlugAvailable, ReadCapacityUsage;
    var db' := ConvertCheckoutIntentToBox(db, i, customer, order, subscription, plan, now).0;
    CheckoutSteps.ConversionUnfolds(db, i, customer, order, subscription, plan, now);
    ConvertedTables(db, i, customer, subscription, plan, now);
    CommitmentsByTable(db, now);
    CommitmentsByTable(db', now);
    SlotsWithout(db.intents, i, db'.intents[i]);
    NoRowsYet(db.snapshots, |db.boxes|);
    assert db'.boxes[..|db.boxes|] == db.boxes;
  }

  lemma ConvertedTables(db: Db, i: nat, customer: nat, subscription: nat, plan: BoxPlan, now: int)
    requires i < |db.intents|
    ensures var db' := StartOperation(CheckoutSteps.Boxed(db, i, customer, subscription, plan), |db.boxes|, CreateBox,
                                      CreateOf(|db.boxes|), None, now).0;
            && db'.snapshots == db.snapshots
            && |db'.intents| == |db.intents| && db'.intents == db.intents[i := db'.intents[i]]
            && !OpenReservation()(db'.intents[i])
            && db'.boxes == db.boxes + [Box(db.intents[i].user, db.intents[i].slug, plan, Creating, Some(subscription))]
  {}

  /** ... and nothing at all when an open reservation is sold as what it was. */
  lemma ConversionKeepsCommitments(db: Db, i: nat, customer: nat, order: nat, subscription: nat, now: int)
    requires CheckoutInvariant.Sound(db) && SnapshotsKnown(db) && i < |db.intents| && db.intents[i].status == Active
    ensures SnapshotCommitments(ConvertCheckoutIntentToBox(db, i, customer, order, subscription, db.intents[i].plan, now).0) ==
            SnapshotCommitments(db)
  {
    hide SnapshotCommitments, ReadCapacityUsage;
    assert CheckoutInvariant.RowSound(db.intents[i], |db.boxes|);
    CheckoutRuns.ActiveConverts(db, i, customer, order, subscription, db.intents[i].plan, now);
    ConversionMovesSlots(db, i, customer, order, subscription, db.intents[i].plan, now);
  }

  // ---- The snapshot table ----

  function ImageOf(row: Option<Snapshots.Row>): seq<SnapshotImage> {
    if row.None? then [] else [SnapshotImage(row.value.box, row.value.image, row.value.status)]
  }

  /** What capacity reads of the snapshot table. */
  function Images(rows: Snapshots.Rows): seq<SnapshotImage> {
    if rows == [] then [] else Images(rows[..|rows| - 1]) + ImageOf(rows[|rows| - 1])
  }

  lemma {:induction false} ImagesAdd(a: Snapshots.Rows, b: Snapshots.Rows)
    ensures Images(a + b) == Images(a) + Images(b)
  {
    if b == [] {
      assert a + b == a;
    } else {
      assert (a + b)[..|a + b| - 1] == a + b[..|b| - 1];
      ImagesAdd(a, b[..|b| - 1]);
    }
  }

  lemma PatchedImages(rows: Snapshots.Rows, id: nat, row: Option<Snapshots.Row>)
    requires id < |rows|
    ensures Images(rows[id := row]) == Images(rows[..id]) + ImageOf(row) + Images(rows[id + 1..])
  {
    assert rows[id := row] == rows[..id] + [row] + rows[id + 1..];
    ImagesAdd(rows[..id] + [row], rows[id + 1..]);
    ImagesAdd(rows[..id], [row]);
    assert [row][..0] == [];
  }

  /** The commitments when the snapshot table is `rows`. */
  function CommitmentsWith(db: Db, rows: Snapshots.Rows): nat {
    SnapshotCommitments(db.(snapshots := Images(rows)))
  }

  function Counts(row: Option<Snapshots.Row>): nat {
    if row.Some? && (Committed(row.value.status) || row.value.image.Some?) then 1 else 0
  }

  function Fills(row: Option<Snapshots.Row>): nat {
    if row.Some? && Committed(row.value.status) then 1 else 0
  }

  function ActiveIn(rows: Snapshots.Rows, box: nat): nat {
    ActiveRows(Images(rows), box)
  }

  /** Slots of a box that `active` rows leave unfilled; a box that is gone has none. */
  function UnfilledOf(db: Db, box: nat, active: int): nat {
    if box < |db.boxes| && IsLive(db.boxes[box]) then Max(0, SnapshotSlots(db.boxes[box].plan) - active) else 0
  }

  lemma {:induction false} FreeMoves(boxes: seq<Box>, rows: seq<SnapshotImage>, rows': seq<SnapshotImage>, box: nat)
    requires forall other: nat :: other != box ==> ActiveRows(rows, other) == ActiveRows(rows', other)
    ensures FreeByTable(boxes, rows') - FreeByTable(boxes, rows) ==
            FreeAt(boxes, box, rows') - FreeAt(boxes, box, rows)
  {
    if boxes != [] {
      FreeMoves(boxes[..|boxes| - 1], rows, rows', box);
    }
  }

  lemma ImagesCount(row: Option<Snapshots.Row>, box: nat)
    requires row.Some? ==> row.value.box == box
    ensures CountedRows(ImageOf(row)) == Counts(row) && ActiveRows(ImageOf(row), box) == Fills(row)
    ensures forall k :: 0 <= k < |ImageOf(row)| ==> ImageOf(row)[k].box == box
  {
    assert ImageOf(row) != [] ==> ImageOf(row)[..0] == [];
  }

  /** What one row's change costs, whatever the change: what it counts, and what it
    * leaves of its box's slots. */
  lemma PatchedRowCost(db: Db, rows: Snapshots.Rows, id: nat, row: Option<Snapshots.Row>, box: nat)
    requires id < |rows| && (rows[id].Some? ==> rows[id].value.box == box) && (row.Some? ==> row.value.box == box)
    ensures ActiveIn(rows, box) >= Fills(rows[id])
    ensures ActiveIn(rows[id := row], box) == ActiveIn(rows, box) - Fills(rows[id]) + Fills(row)
    ensures CommitmentsWith(db, rows[id := row]) - CommitmentsWith(db, rows) ==
            Counts(row) - Counts(rows[id])
            + UnfilledOf(db, box, ActiveIn(rows, box) - Fills(rows[id]) + Fills(row)) - UnfilledOf(db, box, ActiveIn(rows, box))
  {
    hide SnapshotCommitments, Images, FreeByTable, SlotsByTable, CountedRows, ActiveRows, ImageOf, Counts, Fills;
    var before, after := Images(rows[..id]), Images(rows[id + 1..]);
    var gone, come := ImageOf(rows[id]), ImageOf(row);
    assert rows[id := rows[id]] == rows;
    PatchedImages(rows, id, rows[id]);
    PatchedImages(rows, id, row);
    ImagesCount(rows[id], box);
    ImagesCount(row, box);
    PartsAdd(before, gone, after, box);
    PartsAdd(before, come, after, box);
    forall other: nat | other != box
      ensures ActiveRows(before + gone + after, other) == ActiveRows(before + come + after, other)
    {
      OthersUnmoved(before, gone, come, after, box, other);
    }
    FreeMoves(db.boxes, before + gone + after, before + come + after, box);
    CommitmentsByTable(db.(snapshots := Images(rows)), 0);
    CommitmentsByTable(db.(snapshots := Images(rows[id := row])), 0);
  }

  // ---- Captures ----

  /** A capture begun inside a box's slots costs nothing, and one image beyond them or
    * for a box that is gone; what it schedules costs nothing yet. */
  lemma BeginCost(db: Db, w: Snapshots.World, box: nat, split: Snapshots.Split, cls: Snapshots.SnapshotClass, now: int)
    requires Snapshots.SnapshotCapacityPlan(w.rows, box, split, cls).canInsert
    ensures CommitmentsWith(db, Snapshots.BeginSnapshot(w, box, split, cls, now).rows) ==
            CommitmentsWith(db, w.rows) + if UnfilledOf(db, box, ActiveIn(w.rows, box)) > 0 then 0 else 1
  {
    hide SnapshotCommitments, Images, ActiveRows, Snapshots.SnapshotCapacityPlan;
    var hole := w.rows + [None];
    var row := Some(Snapshots.NewRow(box, cls, now));
    assert w.rows + [row] == hole[|w.rows| := row];
    assert hole[..|w.rows|] == w.rows;
    HoleCostsNothing(w.rows);
    PatchedRowCost(db, hole, |w.rows|, row, box);
  }

  lemma HoleCostsNothing(rows: Snapshots.Rows)
    ensures Images(rows + [None]) == Images(rows)
  {
    assert (rows + [None])[..|rows|] == rows;
  }

  /** Progress of a capture under way - image announced, capture complete - costs
    * nothing, for any box. */
  lemma ProgressCost(db: Db, w: Snapshots.World, id: nat, image: nat, days: int)
    requires Snapshots.Exists(w, id) && Committed(w.rows[id].value.status)
    ensures CommitmentsWith(db, Snapshots.MarkCreating(w, id, image).rows) == CommitmentsWith(db, w.rows)
    ensures CommitmentsWith(db, Snapshots.CompleteSnapshot(w, id, days).rows) == CommitmentsWith(db, w.rows)
  {
    hide SnapshotCommitments, Images, ActiveRows;
    var box := w.rows[id].value.box;
    PatchedRowCost(db, w.rows, id, Snapshots.MarkCreating(w, id, image).rows[id], box);
    PatchedRowCost(db, w.rows, id, Snapshots.CompleteSnapshot(w, id, days).rows[id], box);
  }

  function ImageCount(row: Snapshots.Row): nat {
    if row.image.Some? then 1 else 0
  }

  /** A failed capture that goes on counts again, for what it had stopped counting. */
  lemma RevivalCost(db: Db, w: Snapshots.World, id: nat, image: nat)
    requires Snapshots.Exists(w, id) && w.rows[id].value.status == CaptureFailed
    ensures var row := w.rows[id].value;
            CommitmentsWith(db, Snapshots.MarkCreating(w, id, image).rows) ==
            CommitmentsWith(db, w.rows) - ImageCount(row)
            + if UnfilledOf(db, row.box, ActiveIn(w.rows, row.box)) > 0 then 0 else 1
  {
    hide SnapshotCommitments, Images, ActiveRows;
    PatchedRowCost(db, w.rows, id, Snapshots.MarkCreating(w, id, image).rows[id], w.rows[id].value.box);
  }

  // ---- Deletes ----

  /** Whether the box's slots, one row fewer filling them, would leave one free. */
  predicate WithinSlots(db: Db, rows: Snapshots.Rows, box: nat) {
    box < |db.boxes| && IsLive(db.boxes[box]) && ActiveIn(rows, box) <= SnapshotSlots(db.boxes[box].plan)
  }

  /** Claiming a row for deletion, by a sweep or one by one, frees a slot of its box
    * while its image still counts; removing it gives the image back. Together they
    * give nothing back inside the box's slots, and one beyond them. */
  lemma ClaimThenRemoveCost(db: Db, w: Snapshots.World, id: nat)
    requires Snapshots.Exists(w, id) && id in w.scheduled && Committed(w.rows[id].value.status)
    ensures var row := w.rows[id].value;
            var w1 := Snapshots.ClaimSnapshotDelete(w, id);
            var w2 := Snapshots.RemoveSnapshotRow(w1, id);
            && w1.rows == Snapshots.AllDeleting(w.rows, [id])
            && CommitmentsWith(db, w1.rows) ==
               CommitmentsWith(db, w.rows) + ImageCount(row) - (if WithinSlots(db, w.rows, row.box) then 0 else 1)
            && CommitmentsWith(db, w2.rows) == CommitmentsWith(db, w1.rows) - ImageCount(row)
  {
    hide SnapshotCommitments, Images, ActiveRows;
    var box := w.rows[id].value.box;
    var w1 := Snapshots.ClaimSnapshotDelete(w, id);
    assert [id][..0] == [] && Snapshots.AllDeleting(w.rows, []) == w.rows;
    PatchedRowCost(db, w.rows, id, w1.rows[id], box);
    PatchedRowCost(db, w1.rows, id, None, box);
  }

  /** A capture that fails costs what a claim costs: its image, if it had announced one,
    * on top of the slot it leaves. */
  lemma FailCost(db: Db, w: Snapshots.World, id: nat, now: int)
    requires Snapshots.Exists(w, id) && Committed(w.rows[id].value.status)
    ensures var row := w.rows[id].value;
            CommitmentsWith(db, Snapshots.FailSnapshot(w, id, now).rows) ==
            CommitmentsWith(db, w.rows) + ImageCount(row) - (if WithinSlots(db, w.rows, row.box) then 0 else 1)
  {
    hide SnapshotCommitments, Images, ActiveRows;
    PatchedRowCost(db, w.rows, id, Snapshots.FailSnapshot(w, id, now).rows[id], w.rows[id].value.box);
  }
}
