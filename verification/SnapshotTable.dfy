/** The snapshot transactions as the program performs them: counted status by status
  * with early exits, evictions and deletes scheduled one by one, rows patched in
  * place. */
module SnapshotTable {
  import opened Tables
  import opened Vocabulary
  import opened Store
  import opened Snapshots
  import SnapshotRetention
  import SnapshotEviction
  import SnapshotAnswers

  lemma {:induction false} StatusesAdd(
    rows: Rows, box: nat, cls: SnapshotClass, statuses: seq<SnapshotStatus>, status: SnapshotStatus)
    requires status !in statuses
    ensures |Select(rows, InStatuses(box, cls, statuses + [status]))| ==
            |Select(rows, InStatuses(box, cls, statuses))| + |Select(rows, ClassInStatus(box, cls, status))|
  {
    if rows != [] {
      StatusesAdd(rows[..|rows| - 1], box, cls, statuses, status);
    }
  }

  lemma {:induction false} NoStatuses(rows: Rows, box: nat, cls: SnapshotClass)
    ensures Select(rows, InStatuses(box, cls, [])) == []
  {
    if rows != [] {
      NoStatuses(rows[..|rows| - 1], box, cls);
    }
  }

  /** Count active rows one status at a time, leaving as soon as the budget is spent:
    * the count is exact if and only if the total is below the limit. */
  method CountActiveSnapshotsByClass(rows: Rows, box: nat, cls: SnapshotClass, limit: nat) returns (counted: Count)
    requires limit >= 1
    ensures counted == ActiveCount(rows, box, cls, limit)
    ensures counted.exact <==> |Select(rows, ActiveOf(box, cls))| < limit
  {
    var count := 0;
    NoStatuses(rows, box, cls);
    for k := 0 to |ACTIVE_SNAPSHOT_STATUSES|
      invariant count < limit
      invariant count == |Select(rows, InStatuses(box, cls, ACTIVE_SNAPSHOT_STATUSES[..k]))|
    {
      var status := ACTIVE_SNAPSHOT_STATUSES[k];
      var read := Take(Select(rows, ClassInStatus(box, cls, status)), limit - count);
      StatusesAdd(rows, box, cls, ACTIVE_SNAPSHOT_STATUSES[..k], status);
      assert ACTIVE_SNAPSHOT_STATUSES[..k + 1] == ACTIVE_SNAPSHOT_STATUSES[..k] + [status];
      count := count + |read|;
      if count >= limit {
        StatusesWiden(rows, box, cls, ACTIVE_SNAPSHOT_STATUSES[..k + 1], ACTIVE_SNAPSHOT_STATUSES);
        return Count(count, false);
      }
    }
    assert ACTIVE_SNAPSHOT_STATUSES[..|ACTIVE_SNAPSHOT_STATUSES|] == ACTIVE_SNAPSHOT_STATUSES;
    counted := Count(count, true);
  }

  lemma {:induction false} StatusesWiden(
    rows: Rows, box: nat, cls: SnapshotClass, some: seq<SnapshotStatus>, more: seq<SnapshotStatus>)
    requires forall s :: s in some ==> s in more
    ensures |Select(rows, InStatuses(box, cls, some))| <= |Select(rows, InStatuses(box, cls, more))|
  {
    if rows != [] {
      StatusesWiden(rows[..|rows| - 1], box, cls, some, more);
    }
  }

  method SnapshotCapacityPlanFor(rows: Rows, box: nat, split: Split, cls: SnapshotClass) returns (plan: CapacityPlan)
    ensures plan == SnapshotCapacityPlan(rows, box, split, cls)
  {
    if AllowanceOf(cls) == Reserved {
      return CapacityPlan(true, [], 0);
    }
    if AllowanceOf(cls) == FromManual {
      var counted := CountActiveSnapshotsByClass(rows, box, cls, split.manual + 1);
      return CapacityPlan(counted.count < split.manual, [], 0);
    }
    var cap := split.automatic;
    var batch := cap + 1;
    var counted := CountActiveSnapshotsByClass(rows, box, cls, cap + batch);
    var required := SnapshotEvictionCount(counted.count, cap);
    var evictions := OldestComplete(rows, box, cls, if required < batch then required else batch);
    plan := CapacityPlan(counted.exact && |evictions| == required && required <= batch, evictions, required);
  }

  // ---- Reading claims in order ----

  lemma {:induction false} PastExpiryAppends(
    rows: Rows, listing: seq<nat>, statuses: seq<SnapshotStatus>, status: SnapshotStatus, now: int)
    ensures PastExpiry(rows, listing, statuses + [status], now) ==
            PastExpiry(rows, listing, statuses, now) + Ranged(rows, listing, ClaimableIn(status, now))
  {
    var all := statuses + [status];
    var here := Ranged(rows, listing, ClaimableIn(status, now));
    if statuses == [] {
      assert all[1..] == [] && here + [] == here && [] + here == here;
    } else {
      var first, rest := Ranged(rows, listing, ClaimableIn(statuses[0], now)), PastExpiry(rows, listing, statuses[1..], now);
      PastExpiryAppends(rows, listing, statuses[1..], status, now);
      assert all[0] == statuses[0] && all[1..] == statuses[1..] + [status];
      assert first + (rest + here) == (first + rest) + here;
    }
  }

  lemma {:induction false} RangedAgrees(rows: Rows, rows': Rows, listing: seq<nat>, p: Option<Row> -> bool)
    requires |rows'| == |rows| && forall i :: 0 <= i < |rows| ==> p(rows[i]) == p(rows'[i])
    ensures Ranged(rows, listing, p) == Ranged(rows', listing, p)
  {
    if listing != [] {
      RangedAgrees(rows, rows', listing[1..], p);
    }
  }

  lemma TakeAppends(a: seq<nat>, b: seq<nat>, n: nat)
    ensures |Take(a, n)| <= n
    ensures Take(a + b, n) == Take(a, n) + Take(b, n - |Take(a, n)|)
  {}

  lemma {:induction false} PastExpiryIn(rows: Rows, listing: seq<nat>, statuses: seq<SnapshotStatus>, now: int)
    ensures forall i :: i in PastExpiry(rows, listing, statuses, now) ==>
              i < |rows| && rows[i].Some? && rows[i].value.status in statuses
  {
    if statuses != [] {
      PastExpiryIn(rows, listing, statuses[1..], now);
    }
  }

  /** Rows claimed under earlier statuses do not show under a later one. */
  lemma LaterStatusUnaffected(rows: Rows, listing: seq<nat>, ids: seq<nat>, status: SnapshotStatus, now: int)
    requires status != SnapshotDeleting
    requires forall i :: i in ids ==> i < |rows| && rows[i].Some? && rows[i].value.status != status
    ensures Ranged(AllDeleting(rows, ids), listing, ClaimableIn(status, now)) == Ranged(rows, listing, ClaimableIn(status, now))
  {
    SnapshotEviction.AllDeletingRows(rows, ids);
    RangedAgrees(AllDeleting(rows, ids), rows, listing, ClaimableIn(status, now));
  }

  /** What the first `k` statuses yield towards a claim of `limit`. */
  function ClaimedUpTo(rows: Rows, listing: seq<nat>, k: nat, limit: nat, now: int): seq<nat>
    requires k <= |DELETABLE_SNAPSHOT_STATUSES|
  {
    Take(PastExpiry(rows, listing, DELETABLE_SNAPSHOT_STATUSES[..k], now), limit)
  }

  lemma ClaimGrows(rows: Rows, listing: seq<nat>, k: nat, limit: nat, now: int)
    requires k < |DELETABLE_SNAPSHOT_STATUSES|
    ensures var ids := ClaimedUpTo(rows, listing, k, limit, now);
            var read := Ranged(AllDeleting(rows, ids), listing, ClaimableIn(DELETABLE_SNAPSHOT_STATUSES[k], now));
            && |ids| <= limit
            && ClaimedUpTo(rows, listing, k + 1, limit, now) == ids + Take(read, limit - |ids|)
  {
    var statuses, status := DELETABLE_SNAPSHOT_STATUSES[..k], DELETABLE_SNAPSHOT_STATUSES[k];
    var all := PastExpiry(rows, listing, statuses, now);
    PastExpiryAppends(rows, listing, statuses, status, now);
    assert DELETABLE_SNAPSHOT_STATUSES[..k + 1] == statuses + [status];
    PastExpiryIn(rows, listing, statuses, now);
    assert status !in statuses;
    assert forall i :: i in Take(all, limit) ==> i in all;
    LaterStatusUnaffected(rows, listing, Take(all, limit), status, now);
    TakeAppends(all, Ranged(rows, listing, ClaimableIn(status, now)), limit);
  }

  lemma {:induction false} AllDeletingAppends(rows: Rows, ids: seq<nat>, more: seq<nat>)
    ensures AllDeleting(rows, ids + more) == AllDeleting(AllDeleting(rows, ids), more)
  {
    if more == [] {
      assert ids + more == ids;
    } else {
      var last := |more| - 1;
      AllDeletingAppends(rows, ids, more[..last]);
      assert (ids + more)[..|ids + more| - 1] == ids + more[..last];
    }
  }

  class Mutations {
    var rows: Rows
    var scheduled: set<nat>
    ghost var claims: seq<nat>
    ghost var revivals: map<nat, nat>

    constructor ()
      ensures State() == EMPTY
    {
      rows, scheduled, claims, revivals := [], {}, [], map[];
    }

    ghost function State(): World
      reads this
    {
      World(rows, scheduled, claims, revivals)
    }

    method ScheduleEach(ids: seq<nat>)
      modifies `scheduled
      ensures scheduled == old(scheduled) + IdSet(ids)
    {
      for k := 0 to |ids|
        invariant scheduled == old(scheduled) + IdSet(ids[..k])
      {
        assert ids[..k + 1] == ids[..k] + [ids[k]];
        scheduled := scheduled + {ids[k]};
      }
      assert ids[..|ids|] == ids;
    }

    method BeginSnapshot(box: nat, split: Split, cls: SnapshotClass, now: int) returns (begun: Option<nat>)
      modifies this
      ensures State() == Snapshots.BeginSnapshot(old(State()), box, split, cls, now)
      ensures begun == if SnapshotCapacityPlan(old(rows), box, split, cls).canInsert then Some(|old(rows)|) else None
      ensures begun.Some? ==> |rows| == begun.value + 1
                              && rows[begun.value] == Some(Row(box, cls, CapturePending, None, now, Some(now + SnapshotAnswers.DAY)))
      ensures begun.Some? && cls == Scheduled ==> |SnapshotEviction.Standing(State(), box)| <= split.automatic
    {
      SnapshotAnswers.BegunRow(State(), box, split, cls, now);
      var plan := SnapshotCapacityPlanFor(rows, box, split, cls);
      if !plan.canInsert {
        return None;
      }
      if cls == Scheduled {
        SnapshotEviction.BeginLeavesTheCap(State(), box, split, now);
      }
      ScheduleEach(plan.evictions);
      begun := Some(|rows|);
      rows := rows + [Some(NewRow(box, cls, now))];
    }

    /** A transition of a capture; `deleting` absorbs it. */
    method PatchOpen(id: nat, row: Row)
      requires IsOpenCapture(State(), id)
      modifies `rows, `revivals
      ensures rows == old(rows)[id := Some(row)]
      ensures revivals == if row.status == CaptureFailed then old(revivals) else CountRevival(old(State()), id)
    {
      if row.status != CaptureFailed {
        revivals := CountRevival(State(), id);
      }
      rows := rows[id := Some(row)];
    }

    method MarkCreating(id: nat, image: nat)
      modifies `rows, `revivals
      ensures State() == Snapshots.MarkCreating(old(State()), id, image)
      ensures SnapshotAnswers.PatchesOnly(old(State()), State(), id)
    {
      SnapshotAnswers.OnlyItsRow(State(), id, image, 0, 0);
      if id >= |rows| || rows[id].None? || rows[id].value.status == SnapshotDeleting {
        return;
      }
      PatchOpen(id, rows[id].value.(status := CaptureCreating, image := Some(image)));
    }

    /** A late completion leaves a row being deleted alone; one that counts leaves what
      * stands of any box where it was, unless it revives a failed capture. */
    method CompleteSnapshot(id: nat, retentionDays: int)
      modifies `rows, `revivals
      ensures State() == Snapshots.CompleteSnapshot(old(State()), id, retentionDays)
      ensures !IsOpenCapture(old(State()), id) ==> State() == old(State())
      ensures IsOpenCapture(old(State()), id) ==> SnapshotRetention.KeptForGood(rows[id])
      ensures forall box :: !SnapshotEviction.Revives(old(State()), id, box) || id in scheduled ==>
                |SnapshotEviction.Standing(State(), box)| <= |SnapshotEviction.Standing(old(State()), box)|
    {
      forall box | !SnapshotEviction.Revives(State(), id, box) || id in scheduled
        ensures |SnapshotEviction.Standing(Snapshots.CompleteSnapshot(State(), id, retentionDays), box)| <=
                |SnapshotEviction.Standing(State(), box)|
      {
        SnapshotEviction.OtherStepsAddNone(State(), id, 0, retentionDays, box);
      }
      if id >= |rows| || rows[id].None? || rows[id].value.status == SnapshotDeleting {
        return;
      }
      var row := rows[id].value;
      PatchOpen(id, row.(status := CaptureComplete, expiresAt := SnapshotExpiry(row.cls, row.createdAt, retentionDays)));
    }

    method FailSnapshot(id: nat, now: int)
      modifies `rows, `revivals
      ensures State() == Snapshots.FailSnapshot(old(State()), id, now)
      ensures SnapshotAnswers.PatchesOnly(old(State()), State(), id)
    {
      SnapshotAnswers.OnlyItsRow(State(), id, 0, 0, now);
      if id >= |rows| || rows[id].None? || rows[id].value.status == SnapshotDeleting {
        return;
      }
      PatchOpen(id, rows[id].value.(status := CaptureFailed, expiresAt := Some(now + SNAPSHOT_INCOMPLETE_RETENTION_MS)));
    }

    method SupersedeRollbackSnapshots(box: nat)
      modifies `scheduled
      ensures State() == Snapshots.SupersedeRollbackSnapshots(old(State()), box)
    {
      hide RollbackPage, FirstComplete;
      var page := RollbackPage(rows, box);
      var keep := FirstComplete(rows, page);
      for k := 0 to |page|
        invariant scheduled == old(scheduled) + IdSet(Without(page[..k], keep))
      {
        assert page[..k + 1] == page[..k] + [page[k]];
        assert forall i: nat :: i in Without(page[..k + 1], keep) <==>
                 i in Without(page[..k], keep) || (i == page[k] && Some(i) != keep);
        if Some(page[k]) != keep {
          scheduled := scheduled + {page[k]};
        }
      }
      assert page[..|page|] == page;
    }

    method MarkEach(ids: seq<nat>)
      modifies `rows
      ensures rows == AllDeleting(old(rows), ids)
    {
      for j := 0 to |ids|
        invariant rows == AllDeleting(old(rows), ids[..j])
      {
        assert ids[..j + 1][..j] == ids[..j];
        rows := MarkDeleting(rows, ids[j]);
      }
      assert ids[..|ids|] == ids;
    }

    /** The part of a claim that one status makes. */
    method ClaimInStatus(ghost before: Rows, listing: seq<nat>, ids: seq<nat>, k: nat, limit: nat, now: int)
      returns (more: seq<nat>)
      requires k < |DELETABLE_SNAPSHOT_STATUSES| && |ids| <= limit
      requires ids == ClaimedUpTo(before, listing, k, limit, now) && rows == AllDeleting(before, ids)
      modifies `rows
      ensures more == ClaimedUpTo(before, listing, k + 1, limit, now) && rows == AllDeleting(before, more)
      ensures |more| <= limit
    {
      var read := Take(Ranged(rows, listing, ClaimableIn(DELETABLE_SNAPSHOT_STATUSES[k], now)), limit - |ids|);
      ClaimGrows(before, listing, k, limit, now);
      AllDeletingAppends(before, ids, read);
      hide ClaimedUpTo, AllDeleting, Ranged;
      MarkEach(read);
      more := ids + read;
    }

    method ClaimExpiredSnapshots(listing: seq<nat>, limit: nat, now: int) returns (claim: Claim)
      requires IsListing(listing, |rows|)
      modifies `rows
      ensures claim == ExpiryClaim(old(rows), listing, limit, now)
      ensures rows == AllDeleting(old(rows), claim.ids)
    {
      var ids: seq<nat> := [];
      var k := 0;
      assert ClaimedUpTo(rows, listing, 0, limit, now) == [];
      assert AllDeleting(rows, []) == rows;
      hide ClaimedUpTo, AllDeleting;
      while k < |DELETABLE_SNAPSHOT_STATUSES| && limit - |ids| > 0
        invariant k <= |DELETABLE_SNAPSHOT_STATUSES| && |ids| <= limit
        invariant ids == ClaimedUpTo(old(rows), listing, k, limit, now)
        invariant rows == AllDeleting(old(rows), ids)
      {
        ids := ClaimInStatus(old(rows), listing, ids, k, limit, now);
        k := k + 1;
      }
      ClaimComplete(old(rows), listing, k, limit, now);
      claim := Claim(ids, limit > 0 && |ids| == limit);
    }

    /** Claim until a claim comes back short, each round at its own time, scheduling
      * the deletes. */
    method DeleteExpiredSnapshots(listing: seq<nat>, clock: nat -> int) returns (last: nat)
      requires IsListing(listing, |rows|)
      modifies `rows, `scheduled, `claims
      ensures (State(), last) == SnapshotRetention.Drive(old(State()), listing, SNAPSHOT_RETENTION_SWEEP_BATCH, clock, 0)
      ensures last * 200 <= |SnapshotRetention.Left(old(State()))|
      ensures forall i :: 0 <= i < |rows| ==> !Claimable(clock(last))(rows[i])
    {
      var limit := SNAPSHOT_RETENTION_SWEEP_BATCH;
      SnapshotRetention.DriveEnds(State(), listing, limit, clock, 0);
      SnapshotRetention.DriveIsShort(State(), listing, limit, clock, 0);
      last := 0;
      var more := true;
      while more
        invariant |rows| == |old(rows)|
        invariant more ==> SnapshotRetention.Drive(State(), listing, limit, clock, last) ==
                           SnapshotRetention.Drive(old(State()), listing, limit, clock, 0)
        invariant !more ==> (State(), last) == SnapshotRetention.Drive(old(State()), listing, limit, clock, 0)
        decreases if more then 1 else 0, |SnapshotRetention.Left(State())|
      {
        SnapshotRetention.ClaimsLeaveFewer(State(), listing, limit, clock(last));
        SnapshotEviction.AllDeletingRows(rows, ExpiryClaim(rows, listing, limit, clock(last)).ids);
        var claim := ClaimExpiredSnapshots(listing, limit, clock(last));
        ScheduleEach(claim.ids);
        claims := claims + claim.ids;
        if claim.hasMore {
          last := last + 1;
        } else {
          more := false;
        }
      }
    }
  }

  lemma {:induction false} ClaimComplete(rows: Rows, listing: seq<nat>, k: nat, limit: nat, now: int)
    requires k <= |DELETABLE_SNAPSHOT_STATUSES|
    requires k < |DELETABLE_SNAPSHOT_STATUSES| ==> |ClaimedUpTo(rows, listing, k, limit, now)| >= limit
    ensures ClaimedUpTo(rows, listing, k, limit, now) == ExpiryClaim(rows, listing, limit, now).ids
    decreases |DELETABLE_SNAPSHOT_STATUSES| - k
  {
    if k == |DELETABLE_SNAPSHOT_STATUSES| {
      assert DELETABLE_SNAPSHOT_STATUSES[..k] == DELETABLE_SNAPSHOT_STATUSES;
    } else {
      ClaimGrows(rows, listing, k, limit, now);
      ClaimComplete(rows, listing, k + 1, limit, now);
    }
  }
}
