/** What each snapshot transaction writes and what it admits, in the numbers the
  * policy promises. */
module SnapshotAnswers {
  import opened Tables
  import opened Vocabulary
  import opened Store
  import opened Snapshots
  import SnapshotEviction
  import SnapshotRetention

  const DAY: int := 24 * 60 * 60 * 1000

  // ---- The split ----

  /** An Air box keeps three daily snapshots. A Pro box has five slots, of which its
    * owner gives away as many as they say, two if they never said, and never more than
    * there are. */
  lemma SplitExactly(box: Allotment)
    ensures var split := ResolveSnapshotSplit(box);
            && (box.plan.Air? ==> split == Split(3, 0))
            && (box.plan.Pro? && box.storedManualCap.None? ==> split == Split(3, 2))
            && (box.plan.Pro? && box.storedManualCap.Some? ==>
                  && split.automatic + split.manual == 5
                  && forall m: nat :: m <= 5 ==>
                       Distance(split.manual, box.storedManualCap.value) <= Distance(m, box.storedManualCap.value))
  {}

  function Distance(a: int, b: int): nat {
    if a < b then b - a else a - b
  }

  /** Undo points and duplicates are always admitted and nothing gives way to them. */
  lemma ReservedAdmission(rows: Rows, box: nat, split: Split, cls: SnapshotClass)
    requires cls.Rollback? || cls.Duplicate?
    ensures SnapshotCapacityPlan(rows, box, split, cls) == CapacityPlan(true, [], 0)
  {}

  // ---- A row's life ----

  /** What a capture that was admitted leaves: its evictions scheduled, and a pending row
    * with no image that expires in a day; refused, it leaves no trace. */
  lemma BegunRow(w: World, box: nat, split: Split, cls: SnapshotClass, now: int)
    ensures var plan := SnapshotCapacityPlan(w.rows, box, split, cls);
            var w' := BeginSnapshot(w, box, split, cls, now);
            && (!plan.canInsert ==> w' == w)
            && (plan.canInsert ==>
                  && w'.rows == w.rows + [Some(Row(box, cls, CapturePending, None, now, Some(now + DAY)))]
                  && (forall i: nat :: i in w'.scheduled <==> i in w.scheduled || i in plan.evictions)
                  && w'.claims == w.claims && w'.revivals == w.revivals)
  {
    hide SnapshotCapacityPlan;
  }

  /** Only its own row, and neither what is scheduled nor what was claimed. */
  predicate PatchesOnly(w: World, w': World, id: nat) {
    && |w'.rows| == |w.rows| && w'.scheduled == w.scheduled && w'.claims == w.claims
    && forall i :: 0 <= i < |w.rows| && i != id ==> w'.rows[i] == w.rows[i]
  }

  /** A capture that is not being deleted goes on as told: its image is announced, it is
    * complete and kept as long as its class is - a manual one for good - or it failed
    * and is kept for a day. */
  lemma CaptureSteps(w: World, id: nat, image: nat, days: int, now: int)
    requires Exists(w, id) && w.rows[id].value.status != SnapshotDeleting
    ensures var row := w.rows[id].value;
            var w1, w2, w3 := MarkCreating(w, id, image), CompleteSnapshot(w, id, days), FailSnapshot(w, id, now);
            && PatchesOnly(w, w1, id) && PatchesOnly(w, w2, id) && PatchesOnly(w, w3, id)
            && w1.rows[id] == Some(row.(status := CaptureCreating, image := Some(image)))
            && w2.rows[id] == Some(row.(status := CaptureComplete,
                                        expiresAt := if row.cls.Manual? then None else Some(row.createdAt + days * DAY)))
            && w3.rows[id] == Some(row.(status := CaptureFailed, expiresAt := Some(now + DAY)))
  {}

  /** Whatever the row, no capture step moves another; one that is gone or being deleted
    * they leave alone too. */
  lemma OnlyItsRow(w: World, id: nat, image: nat, days: int, now: int)
    ensures var w1, w2, w3 := MarkCreating(w, id, image), CompleteSnapshot(w, id, days), FailSnapshot(w, id, now);
            && PatchesOnly(w, w1, id) && PatchesOnly(w, w2, id) && PatchesOnly(w, w3, id)
            && (!Exists(w, id) || w.rows[id].value.status == SnapshotDeleting ==> w1 == w && w2 == w && w3 == w)
  {
    if Exists(w, id) && w.rows[id].value.status != SnapshotDeleting {
      CaptureSteps(w, id, image, days, now);
    }
  }

  /** A delete that is scheduled and runs to its end removes its row and nothing else;
    * one that nothing scheduled does nothing. */
  lemma DeleteRuns(w: World, id: nat)
    requires Exists(w, id)
    ensures var w' := RemoveSnapshotRow(ClaimSnapshotDelete(w, id), id);
            if id in w.scheduled then PatchesOnly(w, w', id) && w'.rows[id].None? else w' == w
    ensures Exists(ScheduleDelete(w, id), id) && id in ScheduleDelete(w, id).scheduled
            && ScheduleDelete(w, id).rows == w.rows
    ensures id in w.scheduled ==> ClaimSnapshotDelete(w, id).rows[id] == Some(w.rows[id].value.(status := SnapshotDeleting))
  {}

  // ---- The sweep ----

  /** Past its expiry, and not being deleted yet. */
  predicate IsExpired(row: Option<Row>, now: int) {
    && row.Some? && row.value.status != SnapshotDeleting
    && row.value.expiresAt.Some? && row.value.expiresAt.value >= 0 && row.value.expiresAt.value < now
  }

  /** A claim takes rows past their expiry only, as many as it may, and all of them when
    * it reports no more; it marks those it takes, and moves nothing else. */
  lemma ClaimExactly(w: World, listing: seq<nat>, limit: nat, now: int)
    requires IsListing(listing, |w.rows|) && limit > 0
    ensures var claim := ExpiryClaim(w.rows, listing, limit, now);
            var w' := ClaimExpired(w, listing, limit, now);
            && |w'.rows| == |w.rows| && w'.scheduled == w.scheduled && w'.claims == w.claims + claim.ids
            && Distinct(claim.ids)
            && (forall i :: 0 <= i < |w.rows| ==>
                  w'.rows[i] == if i in claim.ids && w.rows[i].Some? then Some(w.rows[i].value.(status := SnapshotDeleting))
                                else w.rows[i])
            && (forall i :: i in claim.ids ==> i < |w.rows| && IsExpired(w.rows[i], now))
            && (claim.hasMore <==> |claim.ids| == limit)
            && (!claim.hasMore ==> forall i :: 0 <= i < |w.rows| && IsExpired(w.rows[i], now) ==> i in claim.ids)
  {
    SnapshotRetention.ClaimIsExact(w.rows, listing, limit, now);
    SnapshotEviction.AllDeletingRows(w.rows, ExpiryClaim(w.rows, listing, limit, now).ids);
    forall i | 0 <= i < |w.rows| ensures Claimable(now)(w.rows[i]) <==> IsExpired(w.rows[i], now) {}
    hide PastExpiry, Claimable, IsExpired;
  }

  /** A round that nothing interrupts leaves no row it claimed without a delete on its
    * way, and schedules nothing else. */
  lemma RoundStrandsNone(w: World, listing: seq<nat>, limit: nat, now: int, i: nat)
    requires IsListing(listing, |w.rows|) && limit > 0
    ensures var claim, w' := ExpiryClaim(w.rows, listing, limit, now), SweepRound(w, listing, limit, now);
            && w'.rows == ClaimExpired(w, listing, limit, now).rows
            && (i in w'.scheduled <==> i in w.scheduled || i in claim.ids)
            && (i in claim.ids ==> Exists(w', i) && !SnapshotRetention.IsStranded(w', i))
  {
    ClaimExactly(w, listing, limit, now);
  }
}
