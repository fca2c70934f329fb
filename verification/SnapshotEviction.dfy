/** Rolling eviction under deferred deletes: what gives way to a daily snapshot, and
  * how many can stand at once whatever the pending deletes do. */
module SnapshotEviction {
  import opened Tables
  import opened Vocabulary
  import opened Store
  import opened Snapshots

  // ---- One admission ----

  lemma {:induction false} CompleteAreActive(rows: Rows, box: nat, cls: SnapshotClass)
    ensures |Select(rows, CompleteOf(box, cls))| <= |Select(rows, ActiveOf(box, cls))|
  {
    if rows != [] {
      CompleteAreActive(rows[..|rows| - 1], box, cls);
    }
  }

  /** Exactly when a daily snapshot is admitted, and what goes for it: at most twice
    * the cap are active, and enough of them are complete. The bound the plan states
    * on its own evictions never decides. */
  lemma AutomaticAdmission(rows: Rows, box: nat, split: Split)
    ensures var plan := SnapshotCapacityPlan(rows, box, split, Scheduled);
            var active, complete := |Select(rows, ActiveOf(box, Scheduled))|, Select(rows, CompleteOf(box, Scheduled));
            var required := SnapshotEvictionCount(active, split.automatic);
            && (plan.canInsert <==> active <= 2 * split.automatic && required <= |complete|)
            && (plan.canInsert ==> plan.evictions == complete[..required])
            && (active <= 2 * split.automatic ==> required <= split.automatic + 1 && plan.requiredEvictions == required)
            && (required > 0 ==> active - required == split.automatic - 1)
            && (required == 0 <==> active < split.automatic)
  {}

  /** A box with no automatic slots takes no daily snapshot. */
  lemma NoSlotsNoSnapshot(rows: Rows, box: nat, split: Split)
    requires split.automatic == 0
    ensures !SnapshotCapacityPlan(rows, box, split, Scheduled).canInsert
  {
    AutomaticAdmission(rows, box, split);
    CompleteAreActive(rows, box, Scheduled);
  }

  /** Manual admission refuses at the cap and evicts nothing. */
  lemma ManualAdmission(rows: Rows, box: nat, split: Split)
    ensures var plan := SnapshotCapacityPlan(rows, box, split, Manual);
            && (plan.canInsert <==> |Select(rows, ActiveOf(box, Manual))| < split.manual)
            && plan.evictions == []
  {}

  /** What gives way is complete, of the box and the class inserted, and older than
    * every complete one that stays. */
  lemma EvictionsAreOldest(rows: Rows, box: nat, split: Split, cls: SnapshotClass)
    ensures var evictions := SnapshotCapacityPlan(rows, box, split, cls).evictions;
            && Ascending(evictions)
            && (forall i: nat :: i in evictions ==> i < |rows| && CompleteOf(box, cls)(rows[i]))
            && (forall i: nat, j: nat ::
                  i in evictions && j < |rows| && CompleteOf(box, cls)(rows[j]) && j !in evictions ==> i < j)
  {
    var complete := Select(rows, CompleteOf(box, cls));
    var evictions := SnapshotCapacityPlan(rows, box, split, cls).evictions;
    if evictions != [] {
      assert evictions == complete[..|evictions|];
      forall i: nat | i in evictions ensures i in complete {}
      forall i: nat, j: nat | i in evictions && j in complete && j !in evictions ensures i < j {
        var a :| 0 <= a < |evictions| && evictions[a] == i;
        var b :| 0 <= b < |complete| && complete[b] == j;
        assert b >= |evictions|;
      }
    }
  }

  /** What an owner may store as their manual cap. */
  predicate IsValidManualSnapshotCap(plan: BoxPlan, manualCap: int) {
    manualCap >= 0 && if !AllowsManualSnapshots(plan) then manualCap == 0 else manualCap <= SnapshotCap(plan)
  }

  /** The caps an owner may store are exactly the ones the split follows. */
  lemma ValidCapsAreFollowed(plan: BoxPlan, manualCap: int)
    ensures IsValidManualSnapshotCap(plan, manualCap) <==>
            ResolveSnapshotSplit(Allotment(plan, Some(manualCap))).manual == manualCap
  {}

  // ---- Standing snapshots ----

  /** A box's active daily snapshots that nothing has scheduled for deletion. */
  function Standing(w: World, box: nat): set<nat> {
    set i: nat | i < |w.rows| && ActiveOf(box, Scheduled)(w.rows[i]) && i !in w.scheduled
  }

  /** What is left of the active rows when the evictions go, and the new row. */
  function Kept(rows: Rows, box: nat, evictions: seq<nat>): set<nat> {
    (IdSet(Select(rows, ActiveOf(box, Scheduled))) - IdSet(evictions)) + {|rows|}
  }

  lemma EvictionsAreActive(rows: Rows, box: nat, split: Split)
    ensures var plan := SnapshotCapacityPlan(rows, box, split, Scheduled);
            IdSet(plan.evictions) <= IdSet(Select(rows, ActiveOf(box, Scheduled))) && Ascending(plan.evictions)
  {
    hide SnapshotCapacityPlan, Select;
    EvictionsAreOldest(rows, box, split, Scheduled);
    var evictions := SnapshotCapacityPlan(rows, box, split, Scheduled).evictions;
    forall i | i in IdSet(evictions) ensures i in IdSet(Select(rows, ActiveOf(box, Scheduled))) {
      assert CompleteOf(box, Scheduled)(rows[i]);
    }
  }

  lemma KeptCount(rows: Rows, box: nat, split: Split)
    requires SnapshotCapacityPlan(rows, box, split, Scheduled).canInsert
    ensures |Kept(rows, box, SnapshotCapacityPlan(rows, box, split, Scheduled).evictions)| <= split.automatic
  {
    AutomaticAdmission(rows, box, split);
    CompleteAreActive(rows, box, Scheduled);
    EvictionsAreActive(rows, box, split);
    hide SnapshotCapacityPlan, Select;
    var active, evictions := Select(rows, ActiveOf(box, Scheduled)), SnapshotCapacityPlan(rows, box, split, Scheduled).evictions;
    AscendingCount(active);
    AscendingCount(evictions);
    DifferenceCount(IdSet(active), IdSet(evictions));
  }

  lemma StandingIsKept(w: World, box: nat, split: Split, now: int, i: nat)
    requires SnapshotCapacityPlan(w.rows, box, split, Scheduled).canInsert
    requires i in Standing(BeginSnapshot(w, box, split, Scheduled, now), box)
    ensures i in Kept(w.rows, box, SnapshotCapacityPlan(w.rows, box, split, Scheduled).evictions)
  {
    hide SnapshotCapacityPlan, Select;
    if i < |w.rows| {
      assert BeginSnapshot(w, box, split, Scheduled, now).rows[i] == w.rows[i];
    }
  }

  /** However the deletes already scheduled stand, one admission leaves at most the
    * cap standing. */
  lemma BeginLeavesTheCap(w: World, box: nat, split: Split, now: int)
    requires SnapshotCapacityPlan(w.rows, box, split, Scheduled).canInsert
    ensures |Standing(BeginSnapshot(w, box, split, Scheduled, now), box)| <= split.automatic
  {
    hide SnapshotCapacityPlan, Select, Kept, Standing, BeginSnapshot;
    KeptCount(w.rows, box, split);
    var after := Standing(BeginSnapshot(w, box, split, Scheduled, now), box);
    var kept := Kept(w.rows, box, SnapshotCapacityPlan(w.rows, box, split, Scheduled).evictions);
    forall i | i in after ensures i in kept {
      StandingIsKept(w, box, split, now, i);
    }
    SubsetCount(after, kept);
  }

  /** An admission of another box or class only takes away. */
  lemma OtherBeginsKeepStanding(w: World, other: nat, split: Split, cls: SnapshotClass, now: int, box: nat)
    requires other != box || cls != Scheduled
    ensures Standing(BeginSnapshot(w, other, split, cls, now), box) <= Standing(w, box)
  {}

  // ---- Captures ----

  /** Going on with a failed capture is the one way a row stands again. */
  predicate Revives(w: World, id: nat, box: nat) {
    Exists(w, id) && w.rows[id].value.status == CaptureFailed && w.rows[id].value.cls == Scheduled && w.rows[id].value.box == box
  }

  lemma CaptureStepsKeepStanding(w: World, w': World, id: nat, box: nat)
    requires Exists(w, id) && w'.scheduled == w.scheduled && w'.revivals == CountRevival(w, id)
    requires |w'.rows| == |w.rows| && w'.rows == w.rows[id := w'.rows[id]] && w'.rows[id].Some?
    requires w.rows[id].value.status != SnapshotDeleting
    requires w'.rows[id].value.box == w.rows[id].value.box && w'.rows[id].value.cls == w.rows[id].value.cls
    ensures |Standing(w', box)| - Revivals(w', box) <= |Standing(w, box)| - Revivals(w, box)
    ensures Revives(w, id, box) && id !in w.scheduled && w'.rows[id].value.status in ACTIVE_SNAPSHOT_STATUSES ==>
              |Standing(w', box)| == |Standing(w, box)| + 1
  {
    if Revives(w, id, box) {
      assert id !in Standing(w, box);
      assert Standing(w', box) <= Standing(w, box) + {id};
      SubsetCount(Standing(w', box), Standing(w, box) + {id});
      if id !in w.scheduled && w'.rows[id].value.status in ACTIVE_SNAPSHOT_STATUSES {
        assert Standing(w', box) == Standing(w, box) + {id};
      }
    } else {
      assert Standing(w', box) <= Standing(w, box);
      SubsetCount(Standing(w', box), Standing(w, box));
    }
  }

  /** A capture that goes on after it failed adds exactly one standing snapshot that
    * no admission made room for. */
  lemma RevivalAddsOne(w: World, id: nat, image: nat, days: int, box: nat)
    requires Revives(w, id, box) && id !in w.scheduled
    ensures |Standing(MarkCreating(w, id, image), box)| == |Standing(w, box)| + 1
    ensures |Standing(CompleteSnapshot(w, id, days), box)| == |Standing(w, box)| + 1
  {
    CaptureStepsKeepStanding(w, MarkCreating(w, id, image), id, box);
    CaptureStepsKeepStanding(w, CompleteSnapshot(w, id, days), id, box);
  }

  /** One of which something has scheduled the delete adds none, nor does going on with
    * a capture that had not failed. */
  lemma OtherStepsAddNone(w: World, id: nat, image: nat, days: int, box: nat)
    requires !(Revives(w, id, box) && id !in w.scheduled)
    ensures |Standing(MarkCreating(w, id, image), box)| <= |Standing(w, box)|
    ensures |Standing(CompleteSnapshot(w, id, days), box)| <= |Standing(w, box)|
  {
    assert Standing(MarkCreating(w, id, image), box) <= Standing(w, box);
    assert Standing(CompleteSnapshot(w, id, days), box) <= Standing(w, box);
    SubsetCount(Standing(MarkCreating(w, id, image), box), Standing(w, box));
    SubsetCount(Standing(CompleteSnapshot(w, id, days), box), Standing(w, box));
  }

  // ---- Deletes ----

  /** Rows only leave the active statuses, deletes are only added. */
  predicate OnlyTakesAway(w: World, w': World) {
    && |w'.rows| == |w.rows|
    && w.scheduled <= w'.scheduled
    && w'.revivals == w.revivals
    && forall i :: 0 <= i < |w.rows| && w'.rows[i] != w.rows[i] ==>
         w'.rows[i].None? || w'.rows[i].value.status in {CaptureFailed, SnapshotDeleting}
  }

  lemma TakingAwayKeepsStanding(w: World, w': World, box: nat)
    requires OnlyTakesAway(w, w')
    ensures |Standing(w', box)| - Revivals(w', box) <= |Standing(w, box)| - Revivals(w, box)
  {
    assert Standing(w', box) <= Standing(w, box);
    SubsetCount(Standing(w', box), Standing(w, box));
  }

  lemma {:induction false} AllDeletingRows(rows: Rows, ids: seq<nat>)
    ensures forall i :: 0 <= i < |rows| ==>
              AllDeleting(rows, ids)[i] ==
              if i in ids && rows[i].Some? then Some(rows[i].value.(status := SnapshotDeleting)) else rows[i]
  {
    if ids != [] {
      var last := |ids| - 1;
      AllDeletingRows(rows, ids[..last]);
      assert ids == ids[..last] + [ids[last]];
    }
  }

  // ---- Runs ----

  ghost predicate WithinTheCaps(fleet: Fleet, w: World) {
    forall box: nat ::
      |Standing(w, box)| <= (if box < |fleet| then ResolveSnapshotSplit(fleet[box]).automatic else 0) + Revivals(w, box)
  }

  lemma StepKeepsWithin(fleet: Fleet, w: World, a: Action, box: nat)
    ensures var w' := Apply(fleet, w, a);
            || |Standing(w', box)| - Revivals(w', box) <= |Standing(w, box)| - Revivals(w, box)
            || (box < |fleet| && |Standing(w', box)| <= ResolveSnapshotSplit(fleet[box]).automatic)
  {
    var w' := Apply(fleet, w, a);
    match a
    case Begin(b, cls, now) =>
      if b < |fleet| {
        var split := ResolveSnapshotSplit(fleet[b]);
        if b == box && cls == Scheduled {
          if SnapshotCapacityPlan(w.rows, b, split, cls).canInsert {
            BeginLeavesTheCap(w, b, split, now);
          }
        } else {
          OtherBeginsKeepStanding(w, b, split, cls, now, box);
          SubsetCount(Standing(w', box), Standing(w, box));
        }
      }
    case Progress(id, image) => if IsOpenCapture(w, id) { CaptureStepsKeepStanding(w, w', id, box); }
    case Complete(id, days) => if IsOpenCapture(w, id) { CaptureStepsKeepStanding(w, w', id, box); }
    case Fail(id, now) => TakingAwayKeepsStanding(w, w', box);
    case Schedule(id) => TakingAwayKeepsStanding(w, w', box);
    case ClaimDelete(id) => TakingAwayKeepsStanding(w, w', box);
    case Remove(id) => TakingAwayKeepsStanding(w, w', box);
    case Sweep(listing, limit, now) =>
      AllDeletingRows(w.rows, ExpiryClaim(w.rows, listing, limit, now).ids);
      TakingAwayKeepsStanding(w, w', box);
    case Supersede(b) => TakingAwayKeepsStanding(w, w', box);
  }

  /** In every run, however begins interleave with scheduled and claimed deletes,
    * what stands of a box's daily snapshots is within its automatic cap, plus one for
    * each failed capture that went on. */
  lemma {:induction false} StandingWithinTheCap(fleet: Fleet, actions: seq<Action>)
    ensures WithinTheCaps(fleet, Exec(fleet, EMPTY, actions))
  {
    if actions == [] {
      forall box: nat ensures Standing(EMPTY, box) == {} {}
    } else {
      var before := Exec(fleet, EMPTY, actions[..|actions| - 1]);
      StandingWithinTheCap(fleet, actions[..|actions| - 1]);
      forall box: nat
        ensures |Standing(Exec(fleet, EMPTY, actions), box)| <=
                (if box < |fleet| then ResolveSnapshotSplit(fleet[box]).automatic else 0)
                + Revivals(Exec(fleet, EMPTY, actions), box)
      {
        StepKeepsWithin(fleet, before, actions[|actions| - 1], box);
      }
    }
  }

  /** No capture goes on after it failed. */
  ghost predicate SettlesOnce(fleet: Fleet, actions: seq<Action>) {
    forall k :: 0 <= k < |actions| ==>
      var w, a := Exec(fleet, EMPTY, actions[..k]), actions[k];
      (a.Progress? || a.Complete?) ==> !Exists(w, a.id) || w.rows[a.id].value.status != CaptureFailed
  }

  lemma {:induction false} NoRevivals(fleet: Fleet, actions: seq<Action>)
    requires SettlesOnce(fleet, actions)
    ensures Exec(fleet, EMPTY, actions).revivals == map[]
  {
    if actions != [] {
      var k := |actions| - 1;
      forall j | 0 <= j < k ensures actions[..k][..j] == actions[..j] {}
      NoRevivals(fleet, actions[..k]);
    }
  }

  /** With each capture settling once, the cap itself holds. */
  lemma RollingEvictionHolds(fleet: Fleet, actions: seq<Action>, box: nat)
    requires SettlesOnce(fleet, actions) && box < |fleet|
    ensures |Standing(Exec(fleet, EMPTY, actions), box)| <= ResolveSnapshotSplit(fleet[box]).automatic
  {
    StandingWithinTheCap(fleet, actions);
    NoRevivals(fleet, actions);
  }

  // ---- Exactly when the cap holds ----

  function Cap(fleet: Fleet, box: nat): nat
    requires box < |fleet|
  {
    ResolveSnapshotSplit(fleet[box]).automatic
  }

  /** The step goes on with a failed capture, nothing having scheduled its delete, of a
    * box that has as many standing as its cap. */
  predicate RevivesAtTheCap(fleet: Fleet, w: World, a: Action, box: nat)
    requires box < |fleet|
  {
    (a.Progress? || a.Complete?) && Revives(w, a.id, box) && a.id !in w.scheduled && |Standing(w, box)| == Cap(fleet, box)
  }

  /** From within the cap, a step leaves it if and only if it is such a revival. */
  lemma StepLeavesTheCapExactly(fleet: Fleet, w: World, a: Action, box: nat)
    requires box < |fleet| && |Standing(w, box)| <= Cap(fleet, box)
    ensures |Standing(Apply(fleet, w, a), box)| > Cap(fleet, box) <==> RevivesAtTheCap(fleet, w, a, box)
  {
    hide ResolveSnapshotSplit, BeginSnapshot, Standing, MarkCreating, CompleteSnapshot;
    if a.Progress? || a.Complete? {
      var image, days := if a.Progress? then a.image else 0, if a.Complete? then a.retentionDays else 0;
      if Revives(w, a.id, box) && a.id !in w.scheduled {
        RevivalAddsOne(w, a.id, image, days, box);
      } else {
        OtherStepsAddNone(w, a.id, image, days, box);
      }
    } else {
      StepKeepsWithin(fleet, w, a, box);
      NoRevivalCounted(fleet, w, a, box);
    }
  }

  lemma NoRevivalCounted(fleet: Fleet, w: World, a: Action, box: nat)
    requires !a.Progress? && !a.Complete?
    ensures Revivals(Apply(fleet, w, a), box) == Revivals(w, box)
  {}

  predicate EndsWithin(fleet: Fleet, actions: seq<Action>, box: nat)
    requires box < |fleet|
  {
    |Standing(Exec(fleet, EMPTY, actions), box)| <= Cap(fleet, box)
  }

  /** Within the cap at the start, at the end and after every step between. */
  predicate StaysWithin(fleet: Fleet, actions: seq<Action>, box: nat)
    requires box < |fleet|
  {
    forall k :: 0 <= k <= |actions| ==> EndsWithin(fleet, actions[..k], box)
  }

  predicate NeverRevives(fleet: Fleet, actions: seq<Action>, box: nat)
    requires box < |fleet|
  {
    forall k :: 0 <= k < |actions| ==> !RevivesAtTheCap(fleet, Exec(fleet, EMPTY, actions[..k]), actions[k], box)
  }

  lemma StaysWithinExtends(fleet: Fleet, init: seq<Action>, a: Action, box: nat)
    requires box < |fleet|
    ensures StaysWithin(fleet, init + [a], box) <==> StaysWithin(fleet, init, box) && EndsWithin(fleet, init + [a], box)
  {
    hide EndsWithin;
    var all := init + [a];
    assert all[..|all|] == all;
    forall k | 0 <= k <= |init| ensures all[..k] == init[..k] {}
    if StaysWithin(fleet, all, box) {
      forall k | 0 <= k <= |init| ensures EndsWithin(fleet, init[..k], box) {
        assert all[..k] == init[..k];
      }
    }
  }

  lemma NeverRevivesExtends(fleet: Fleet, init: seq<Action>, a: Action, box: nat)
    requires box < |fleet|
    ensures NeverRevives(fleet, init + [a], box) <==>
            NeverRevives(fleet, init, box) && !RevivesAtTheCap(fleet, Exec(fleet, EMPTY, init), a, box)
  {
    hide RevivesAtTheCap, Exec;
    var all := init + [a];
    assert forall k :: 0 <= k <= |init| ==> all[..k] == init[..k];
    assert all[..|init|] == init;
    if NeverRevives(fleet, all, box) {
      forall k | 0 <= k < |init| ensures !RevivesAtTheCap(fleet, Exec(fleet, EMPTY, init[..k]), init[k], box) {
        assert all[..k] == init[..k] && all[k] == init[k];
      }
      assert all[|init|] == a;
    }
  }

  /** A box stays within its cap all through a run if and only if no step of the run
    * revives a failed capture at the cap. */
  lemma {:induction false} CapHoldsExactly(fleet: Fleet, actions: seq<Action>, box: nat)
    requires box < |fleet|
    ensures StaysWithin(fleet, actions, box) <==> NeverRevives(fleet, actions, box)
  {
    if actions == [] {
      assert Standing(EMPTY, box) == {};
    } else {
      hide StaysWithin, NeverRevives, RevivesAtTheCap, Standing, Apply;
      var init, a := actions[..|actions| - 1], actions[|actions| - 1];
      assert actions == init + [a] && actions[..|init|] == init;
      CapHoldsExactly(fleet, init, box);
      StaysWithinExtends(fleet, init, a, box);
      NeverRevivesExtends(fleet, init, a, box);
      if StaysWithin(fleet, init, box) {
        StaysWithinNow(fleet, init, box);
        StepLeavesTheCapExactly(fleet, Exec(fleet, EMPTY, init), a, box);
      }
    }
  }

  lemma StaysWithinNow(fleet: Fleet, actions: seq<Action>, box: nat)
    requires box < |fleet| && StaysWithin(fleet, actions, box)
    ensures EndsWithin(fleet, actions, box)
  {
    assert actions[..|actions|] == actions;
  }

  // ---- Where the hypothesis is needed ----

  const ONE_SLOT := Allotment(Pro, Some(4))

  lemma BeginInRoom(w: World, box: nat, split: Split, now: int)
    requires |Select(w.rows, ActiveOf(box, Scheduled))| < split.automatic
    ensures BeginSnapshot(w, box, split, Scheduled, now) == w.(rows := w.rows + [Some(NewRow(box, Scheduled, now))])
  {}

  function FailedOnce(): World {
    World([Some(NewRow(0, Scheduled, 0).(status := CaptureFailed))], {}, [], map[])
  }

  lemma FailedOnceIsReachable()
    ensures Exec([ONE_SLOT], EMPTY, [Begin(0, Scheduled, 0), Fail(0, 0)]) == FailedOnce()
  {
    var a1, a2 := Begin(0, Scheduled, 0), Fail(0, 0);
    assert [a1, a2][..1] == [a1] && [a1][..0] == [];
    BeginInRoom(EMPTY, 0, ResolveSnapshotSplit(ONE_SLOT), 0);
    assert Exec([ONE_SLOT], EMPTY, [a1]) == World([Some(NewRow(0, Scheduled, 0))], {}, [], map[]);
  }

  function FailedThenBegun(): World {
    World(FailedOnce().rows + [Some(NewRow(0, Scheduled, 0))], {}, [], map[])
  }

  lemma FailedThenBegunIsReachable()
    ensures Exec([ONE_SLOT], EMPTY, [Begin(0, Scheduled, 0), Fail(0, 0)] + [Begin(0, Scheduled, 0)]) == FailedThenBegun()
  {
    var run := [Begin(0, Scheduled, 0), Fail(0, 0)];
    FailedOnceIsReachable();
    assert (run + [Begin(0, Scheduled, 0)])[..2] == run;
    var w := FailedOnce();
    assert Select(w.rows[..0], ActiveOf(0, Scheduled)) == [];
    BeginInRoom(w, 0, ResolveSnapshotSplit(ONE_SLOT), 0);
  }

  /** A box with one automatic slot: its capture fails, a second begins in its place,
    * and the first goes on after all. Two stand. */
  lemma RevivedCaptureBreaksTheCap()
    ensures var run := [Begin(0, Scheduled, 0), Fail(0, 0)] + [Begin(0, Scheduled, 0)] + [Progress(0, 9)];
            |Standing(Exec([ONE_SLOT], EMPTY, run), 0)| == 2 > ResolveSnapshotSplit(ONE_SLOT).automatic
  {
    hide BeginSnapshot, SnapshotCapacityPlan;
    var run := [Begin(0, Scheduled, 0), Fail(0, 0)] + [Begin(0, Scheduled, 0)];
    FailedThenBegunIsReachable();
    assert (run + [Progress(0, 9)])[..3] == run;
    assert Standing(FailedThenBegun(), 0) == {1};
    RevivalAddsOne(FailedThenBegun(), 0, 9, 0, 0);
  }
}
