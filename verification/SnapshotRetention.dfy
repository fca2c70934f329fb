/** The retention sweep: what it claims, that it ends, and what it never touches. */
module SnapshotRetention {
  import opened Tables
  import opened Vocabulary
  import opened Store
  import opened Snapshots
  import SnapshotEviction
  import Drains

  /** The statuses are read one after the other, and together they list each
    * matching row once. */
  lemma {:induction false} ExpiredLists(rows: Rows, listing: seq<nat>, statuses: seq<SnapshotStatus>, now: int)
    requires IsListing(listing, |rows|)
    requires forall j, k :: 0 <= j < k < |statuses| ==> statuses[j] != statuses[k]
    ensures Distinct(PastExpiry(rows, listing, statuses, now))
    ensures forall i: nat :: i in PastExpiry(rows, listing, statuses, now) <==>
              i < |rows| && rows[i].Some? && rows[i].value.status in statuses && ExpiredBefore(rows[i].value, now)
  {
    if statuses != [] {
      var here, rest := Ranged(rows, listing, ClaimableIn(statuses[0], now)), PastExpiry(rows, listing, statuses[1..], now);
      ExpiredLists(rows, listing, statuses[1..], now);
      RangedDistinct(rows, listing, ClaimableIn(statuses[0], now));
      assert statuses[0] !in statuses[1..];
      assert statuses == [statuses[0]] + statuses[1..];
      DistinctConcat(here, rest);
    }
  }

  lemma DeletableStatusesDiffer()
    ensures forall j, k :: 0 <= j < k < |DELETABLE_SNAPSHOT_STATUSES| ==>
              DELETABLE_SNAPSHOT_STATUSES[j] != DELETABLE_SNAPSHOT_STATUSES[k]
  {}

  /** A claim holds at most `limit` rows, each once, each of them past its expiry; and
    * when it reports no more, it held every such row. */
  lemma ClaimIsExact(rows: Rows, listing: seq<nat>, limit: nat, now: int)
    requires IsListing(listing, |rows|)
    ensures var claim := ExpiryClaim(rows, listing, limit, now);
            && |claim.ids| <= limit
            && Distinct(claim.ids)
            && (forall i: nat :: i in claim.ids ==> i < |rows| && Claimable(now)(rows[i]))
            && (limit > 0 && !claim.hasMore ==>
                  forall i: nat :: i in claim.ids <==> i < |rows| && Claimable(now)(rows[i]))
  {
    DeletableStatusesDiffer();
    ExpiredLists(rows, listing, DELETABLE_SNAPSHOT_STATUSES, now);
  }

  /** No more means none left. */
  lemma SweepLeavesNone(w: World, listing: seq<nat>, limit: nat, now: int)
    requires IsListing(listing, |w.rows|) && limit > 0
    requires !ExpiryClaim(w.rows, listing, limit, now).hasMore
    ensures forall i :: 0 <= i < |w.rows| ==> !Claimable(now)(ClaimExpired(w, listing, limit, now).rows[i])
  {
    ClaimIsExact(w.rows, listing, limit, now);
    SnapshotEviction.AllDeletingRows(w.rows, ExpiryClaim(w.rows, listing, limit, now).ids);
  }

  // ---- Driving the sweep to its end ----

  function Undeleted(): Option<Row> -> bool {
    (row: Option<Row>) => row.Some? && row.value.status != SnapshotDeleting
  }

  function UndeletedIds(rows: Rows): set<nat> {
    set i: nat | i < |rows| && Undeleted()(rows[i])
  }

  function Left(w: World): set<nat> {
    UndeletedIds(w.rows)
  }

  lemma DeletingLeavesFewer(rows: Rows, ids: seq<nat>)
    requires Distinct(ids) && forall i: nat :: i in ids ==> i < |rows| && Undeleted()(rows[i])
    ensures |UndeletedIds(AllDeleting(rows, ids))| == |UndeletedIds(rows)| - |ids|
  {
    SnapshotEviction.AllDeletingRows(rows, ids);
    var before, after := UndeletedIds(rows), UndeletedIds(AllDeleting(rows, ids));
    forall i: nat ensures i in after <==> i in before - IdSet(ids) {}
    assert after == before - IdSet(ids);
    DifferenceCount(before, IdSet(ids));
    DistinctCount(ids);
  }

  lemma ClaimsLeaveFewer(w: World, listing: seq<nat>, limit: nat, now: int)
    requires IsListing(listing, |w.rows|)
    ensures |Left(SweepRound(w, listing, limit, now))| == |Left(w)| - |ExpiryClaim(w.rows, listing, limit, now).ids|
  {
    ClaimIsExact(w.rows, listing, limit, now);
    DeletingLeavesFewer(w.rows, ExpiryClaim(w.rows, listing, limit, now).ids);
  }

  /** The sweep as it schedules itself again: each round at its own time, whatever the
    * clock does, until a claim reports no more. */
  function Drive(w: World, listing: seq<nat>, limit: nat, clock: nat -> int, round: nat): (World, nat)
    requires IsListing(listing, |w.rows|) && limit > 0
    decreases |Left(w)|
  {
    ClaimsLeaveFewer(w, listing, limit, clock(round));
    SnapshotEviction.AllDeletingRows(w.rows, ExpiryClaim(w.rows, listing, limit, clock(round)).ids);
    var w' := SweepRound(w, listing, limit, clock(round));
    if ExpiryClaim(w.rows, listing, limit, clock(round)).hasMore then Drive(w', listing, limit, clock, round + 1)
    else (w', round)
  }

  /** It ends with nothing left that had expired by its last round. */
  lemma {:induction false} DriveEnds(w: World, listing: seq<nat>, limit: nat, clock: nat -> int, round: nat)
    requires IsListing(listing, |w.rows|) && limit > 0
    ensures var (w', last) := Drive(w, listing, limit, clock, round);
            && |w'.rows| == |w.rows|
            && round <= last
            && forall i :: 0 <= i < |w'.rows| ==> !Claimable(clock(last))(w'.rows[i])
    decreases |Left(w)|
  {
    var now := clock(round);
    ClaimsLeaveFewer(w, listing, limit, now);
    if ExpiryClaim(w.rows, listing, limit, now).hasMore {
      DriveEnds(SweepRound(w, listing, limit, now), listing, limit, clock, round + 1);
    } else {
      SweepLeavesNone(w, listing, limit, now);
    }
  }

  lemma OneRoundMore(rounds: int, limit: int, rest: int)
    requires (rounds - 1) * limit <= rest
    ensures rounds * limit <= rest + limit
  {}

  /** After at most one more round for each full batch of rows. */
  lemma {:induction false} DriveIsShort(w: World, listing: seq<nat>, limit: nat, clock: nat -> int, round: nat)
    requires IsListing(listing, |w.rows|) && limit > 0
    ensures (Drive(w, listing, limit, clock, round).1 - round) * limit <= |Left(w)|
    decreases |Left(w)|
  {
    hide ExpiryClaim, Claimable, PastExpiry;
    var now := clock(round);
    ClaimsLeaveFewer(w, listing, limit, now);
    FullBatch(w.rows, listing, limit, now);
    if ExpiryClaim(w.rows, listing, limit, now).hasMore {
      var w' := SweepRound(w, listing, limit, now);
      DriveIsShort(w', listing, limit, clock, round + 1);
      OneRoundMore(Drive(w, listing, limit, clock, round).1 - round, limit, |Left(w')|);
    }
  }

  lemma FullBatch(rows: Rows, listing: seq<nat>, limit: nat, now: int)
    ensures ExpiryClaim(rows, listing, limit, now).hasMore ==> |ExpiryClaim(rows, listing, limit, now).ids| == limit
    ensures |AllDeleting(rows, ExpiryClaim(rows, listing, limit, now).ids)| == |rows|
  {}

  /** The sweep with anything between its rounds. `at(k)` is what round `k` finds, and
    * since the round before it others left at most `added` more rows to delete. */
  ghost predicate SweepsAmidOthers(at: nat -> World, listing: nat -> seq<nat>, limit: nat, clock: nat -> int, added: nat -> nat) {
    && (forall k: nat :: IsListing(listing(k), |at(k).rows|))
    && (forall k: nat :: |Left(at(k + 1))| <= |Left(SweepRound(at(k), listing(k), limit, clock(k)))| + added(k))
  }

  /** If the others only add so many, some round is the last one: a claim that comes
    * back short, after which nothing is left that had expired when it was made. */
  lemma SweepEndsAmidOthers(
    at: nat -> World, listing: nat -> seq<nat>, limit: nat, clock: nat -> int, added: nat -> nat, bound: nat)
    returns (last: nat)
    requires SweepsAmidOthers(at, listing, limit, clock, added) && limit > 0
    requires forall n: nat :: Drains.Total(added, n) <= bound
    ensures last * limit <= |Left(at(0))| + bound
    ensures var w' := SweepRound(at(last), listing(last), limit, clock(last));
            forall i :: 0 <= i < |w'.rows| ==> !Claimable(clock(last))(w'.rows[i])
  {
    hide ExpiryClaim, SweepRound, Claimable;
    var left: nat -> nat := (k: nat) => |Left(at(k))|;
    var full: nat -> bool := (k: nat) => ExpiryClaim(at(k).rows, listing(k), limit, clock(k)).hasMore;
    forall k: nat | full(k) ensures left(k + 1) + limit <= left(k) + added(k) {
      ClaimsLeaveFewer(at(k), listing(k), limit, clock(k));
      FullBatch(at(k).rows, listing(k), limit, clock(k));
    }
    last := Drains.SomeRoundIsShort(left, added, full, limit, bound);
    RoundLeavesNone(at(last), listing(last), limit, clock(last));
  }

  lemma RoundLeavesNone(w: World, listing: seq<nat>, limit: nat, now: int)
    requires IsListing(listing, |w.rows|) && limit > 0 && !ExpiryClaim(w.rows, listing, limit, now).hasMore
    ensures var w' := SweepRound(w, listing, limit, now);
            forall i :: 0 <= i < |w'.rows| ==> !Claimable(now)(w'.rows[i])
  {
    SweepLeavesNone(w, listing, limit, now);
  }

  // ---- A sweep that stops between claiming and scheduling ----

  /** Claimed, and nothing has scheduled its delete. */
  predicate IsStranded(w: World, i: nat) {
    Exists(w, i) && w.rows[i].value.status == SnapshotDeleting && i !in w.scheduled
  }

  /** Something that schedules deletes reaches the row: an owner, the removal of the
    * box, the supersede pass. */
  predicate IsTakenUp(w: World, a: Action, i: nat) {
    (a.Schedule? && a.id == i) || (a.Supersede? && i in Superseded(w.rows, a.box))
  }

  ghost predicate NeverTakenUp(fleet: Fleet, w: World, more: seq<Action>, i: nat) {
    forall k :: 0 <= k < |more| ==> !IsTakenUp(Exec(fleet, w, more[..k]), more[k], i)
  }

  lemma StrandedStep(fleet: Fleet, w: World, a: Action, i: nat)
    requires IsStranded(w, i)
    ensures var w' := Apply(fleet, w, a);
            if IsTakenUp(w, a, i) then i in w'.scheduled else IsStranded(w', i)
  {
    if a.Begin? && a.box < |fleet| {
      SnapshotEviction.EvictionsAreOldest(w.rows, a.box, ResolveSnapshotSplit(fleet[a.box]), a.cls);
    } else if a.Sweep? && IsListing(a.listing, |w.rows|) {
      SnapshotEviction.AllDeletingRows(w.rows, ExpiryClaim(w.rows, a.listing, a.limit, a.now).ids);
    }
  }

  lemma ScheduledStays(fleet: Fleet, w: World, a: Action, i: nat)
    requires i in w.scheduled
    ensures i in Apply(fleet, w, a).scheduled
  {}

  lemma NeverTakenUpExtends(fleet: Fleet, w: World, init: seq<Action>, a: Action, i: nat)
    ensures NeverTakenUp(fleet, w, init + [a], i) <==>
            NeverTakenUp(fleet, w, init, i) && !IsTakenUp(Exec(fleet, w, init), a, i)
  {
    hide IsTakenUp, Exec;
    var all := init + [a];
    assert forall k :: 0 <= k <= |init| ==> all[..k] == init[..k];
    assert all[..|init|] == init && all[|init|] == a;
    if NeverTakenUp(fleet, w, all, i) {
      forall k | 0 <= k < |init| ensures !IsTakenUp(Exec(fleet, w, init[..k]), init[k], i) {
        assert all[..k] == init[..k] && all[k] == init[k];
      }
    }
  }

  /** A row claimed by a sweep that stopped before it scheduled the delete stays as it
    * is, through any number of further sweeps, if and only if nothing else that
    * schedules deletes reaches it. */
  lemma {:induction false} StrandedExactly(fleet: Fleet, w: World, more: seq<Action>, i: nat)
    requires IsStranded(w, i)
    ensures IsStranded(Exec(fleet, w, more), i) <==> NeverTakenUp(fleet, w, more, i)
    ensures !NeverTakenUp(fleet, w, more, i) ==> i in Exec(fleet, w, more).scheduled
  {
    if more != [] {
      hide NeverTakenUp, IsStranded, IsTakenUp, Apply;
      var init, a := more[..|more| - 1], more[|more| - 1];
      assert more == init + [a];
      StrandedExactly(fleet, w, init, i);
      NeverTakenUpExtends(fleet, w, init, a, i);
      if NeverTakenUp(fleet, w, init, i) {
        StrandedStep(fleet, Exec(fleet, w, init), a, i);
        NotBoth(Apply(fleet, Exec(fleet, w, init), a), i);
      } else {
        ScheduledStays(fleet, Exec(fleet, w, init), a, i);
        NotBoth(Exec(fleet, w, more), i);
      }
    }
  }

  ghost predicate OnlySweeps(more: seq<Action>) {
    forall k :: 0 <= k < |more| ==> more[k].Sweep?
  }

  lemma ClaimOfOne(row: Row, now: int)
    requires row.status == CapturePending && ExpiredBefore(row, now)
    ensures ExpiryClaim([Some(row)], [0], SNAPSHOT_RETENTION_SWEEP_BATCH, now).ids == [0]
  {
    var rows := [Some(row)];
    assert IsListing([0], 1) by { assert 0 in [0]; }
    ClaimIsExact(rows, [0], SNAPSHOT_RETENTION_SWEEP_BATCH, now);
    var ids := ExpiryClaim(rows, [0], SNAPSHOT_RETENTION_SWEEP_BATCH, now).ids;
    DistinctCount(ids);
    SubsetCount(IdSet(ids), {0});
    assert Claimable(now)(rows[0]);
    assert 0 in ids;
  }

  const ONE_BOX: Fleet := [Allotment(Air, None)]
  const STOPPED_SWEEP: seq<Action> := [Begin(0, Duplicate, 0)] + [Sweep([0], SNAPSHOT_RETENTION_SWEEP_BATCH, DAY_MS + 1)]

  lemma OneCapture()
    ensures Exec(ONE_BOX, EMPTY, [Begin(0, Duplicate, 0)]) == EMPTY.(rows := [Some(NewRow(0, Duplicate, 0))])
  {
    assert [Begin(0, Duplicate, 0)][..0] == [];
  }

  lemma StoppedSweep()
    ensures IsStranded(Exec(ONE_BOX, EMPTY, STOPPED_SWEEP), 0)
  {
    hide ExpiryClaim, BeginSnapshot;
    OneCapture();
    ClaimOfOne(NewRow(0, Duplicate, 0), DAY_MS + 1);
    assert IsListing([0], 1) by { assert 0 in [0]; }
    assert STOPPED_SWEEP[..1] == [Begin(0, Duplicate, 0)];
    SnapshotEviction.AllDeletingRows([Some(NewRow(0, Duplicate, 0))], [0]);
  }

  /** A capture expires unfinished, a sweep claims it and stops: no number of later
    * sweeps, of whatever size, schedules its delete. */
  lemma StoppedSweepStrands(more: seq<Action>)
    requires OnlySweeps(more)
    ensures IsStranded(Exec(ONE_BOX, Exec(ONE_BOX, EMPTY, STOPPED_SWEEP), more), 0)
  {
    hide Exec, IsStranded;
    StoppedSweep();
    StrandedExactly(ONE_BOX, Exec(ONE_BOX, EMPTY, STOPPED_SWEEP), more, 0);
  }

  lemma NotBoth(w: World, i: nat)
    ensures !(IsStranded(w, i) && i in w.scheduled)
  {}

  // ---- What every run keeps ----

  /** A row being deleted stays so until it is gone, and a row gone stays gone. */
  predicate Absorbed(row: Option<Row>, row': Option<Row>) {
    && (row.None? ==> row'.None?)
    && (row.Some? && row.value.status == SnapshotDeleting ==> row'.None? || row'.value.status == SnapshotDeleting)
  }

  lemma DeletingAbsorbs(fleet: Fleet, w: World, a: Action)
    ensures var w' := Apply(fleet, w, a);
            |w.rows| <= |w'.rows| && forall i :: 0 <= i < |w.rows| ==> Absorbed(w.rows[i], w'.rows[i])
  {
    if a.Sweep? && IsListing(a.listing, |w.rows|) {
      SnapshotEviction.AllDeletingRows(w.rows, ExpiryClaim(w.rows, a.listing, a.limit, a.now).ids);
    }
  }

  /** Completed snapshots of a class nothing expires have no expiry. */
  predicate KeptForGood(row: Option<Row>) {
    row.Some? && row.value.status == CaptureComplete && !Expires(row.value.cls) ==> row.value.expiresAt.None?
  }

  ghost predicate Swept(w: World) {
    && Distinct(w.claims)
    && (forall k :: 0 <= k < |w.claims| ==>
          w.claims[k] < |w.rows| && (w.rows[w.claims[k]].None? || w.rows[w.claims[k]].value.status == SnapshotDeleting))
    && (forall i :: 0 <= i < |w.rows| ==> KeptForGood(w.rows[i]))
  }

  lemma SweepKeepsSwept(w: World, listing: seq<nat>, limit: nat, now: int)
    requires Swept(w) && IsListing(listing, |w.rows|)
    ensures Swept(ClaimExpired(w, listing, limit, now))
  {
    var ids := ExpiryClaim(w.rows, listing, limit, now).ids;
    ClaimIsExact(w.rows, listing, limit, now);
    SnapshotEviction.AllDeletingRows(w.rows, ids);
    forall i: nat | i in w.claims ensures i !in ids {}
    DistinctConcat(w.claims, ids);
    var w' := ClaimExpired(w, listing, limit, now);
    forall k | 0 <= k < |w'.claims|
      ensures w'.claims[k] < |w'.rows|
      ensures w'.rows[w'.claims[k]].None? || w'.rows[w'.claims[k]].value.status == SnapshotDeleting
    {
      if k < |w.claims| {
        assert w'.claims[k] == w.claims[k];
      } else {
        assert w'.claims[k] == ids[k - |w.claims|] && ids[k - |w.claims|] in ids;
      }
    }
  }

  lemma StepKeepsSwept(fleet: Fleet, w: World, a: Action)
    requires Swept(w)
    ensures Swept(Apply(fleet, w, a))
  {
    DeletingAbsorbs(fleet, w, a);
    if a.Sweep? && IsListing(a.listing, |w.rows|) {
      SweepKeepsSwept(w, a.listing, a.limit, a.now);
    }
  }

  lemma {:induction false} RunsStaySwept(fleet: Fleet, actions: seq<Action>)
    ensures Swept(Exec(fleet, EMPTY, actions))
  {
    if actions != [] {
      RunsStaySwept(fleet, actions[..|actions| - 1]);
      StepKeepsSwept(fleet, Exec(fleet, EMPTY, actions[..|actions| - 1]), actions[|actions| - 1]);
    }
  }

  /** In every run the sweep claims each row at most once. */
  lemma ClaimedAtMostOnce(fleet: Fleet, actions: seq<Action>)
    ensures Distinct(Exec(fleet, EMPTY, actions).claims)
  {
    RunsStaySwept(fleet, actions);
  }

  /** In every run, a sweep claims only rows past a set expiry, and never a completed
    * snapshot of a class that does not expire. */
  lemma KeptForGoodIsNeverClaimed(fleet: Fleet, actions: seq<Action>, listing: seq<nat>, limit: nat, now: int, i: nat)
    requires var w := Exec(fleet, EMPTY, actions);
             IsListing(listing, |w.rows|) && i in ExpiryClaim(w.rows, listing, limit, now).ids
    ensures var w := Exec(fleet, EMPTY, actions);
            && Exists(w, i)
            && ExpiredBefore(w.rows[i].value, now)
            && (w.rows[i].value.status == CaptureComplete ==> Expires(w.rows[i].value.cls))
  {
    var w := Exec(fleet, EMPTY, actions);
    RunsStaySwept(fleet, actions);
    ClaimIsExact(w.rows, listing, limit, now);
    assert KeptForGood(w.rows[i]);
  }

  /** A capture just completed is kept until its class's retention is over, one just
    * failed for a day. */
  lemma KeptForItsTime(w: World, id: nat, days: int, listing: seq<nat>, limit: nat, now: int)
    requires IsListing(listing, |w.rows|) && IsOpenCapture(w, id)
    ensures var w' := CompleteSnapshot(w, id, days);
            id in ExpiryClaim(w'.rows, listing, limit, now).ids ==>
              Expires(w.rows[id].value.cls) && now > w.rows[id].value.createdAt + days * DAY_MS
    ensures forall at: int :: id in ExpiryClaim(FailSnapshot(w, id, at).rows, listing, limit, now).ids ==> now > at + DAY_MS
  {
    ClaimIsExact(CompleteSnapshot(w, id, days).rows, listing, limit, now);
    forall at: int | id in ExpiryClaim(FailSnapshot(w, id, at).rows, listing, limit, now).ids ensures now > at + DAY_MS {
      ClaimIsExact(FailSnapshot(w, id, at).rows, listing, limit, now);
    }
  }

  /** Whatever comes late for a row being deleted, it is never a snapshot again. */
  lemma {:induction false} DeletingIsFinal(fleet: Fleet, w: World, more: seq<Action>, i: nat)
    requires i < |w.rows|
    ensures i < |Exec(fleet, w, more).rows| && Absorbed(w.rows[i], Exec(fleet, w, more).rows[i])
  {
    if more != [] {
      DeletingIsFinal(fleet, w, more[..|more| - 1], i);
      DeletingAbsorbs(fleet, Exec(fleet, w, more[..|more| - 1]), more[|more| - 1]);
    }
  }
}
