/** Removing what a deleted box leaves behind, a batch of each table at a time, and
  * the box row last. */
module BoxCleanup {
  import opened Tables
  import Drains

  const DELETE_BATCH_SIZE: nat := 100

  /** The tables whose rows go with the box. */
  datatype Owned =
    | AuthCodes | AuthGrants | Operations | Events | Metrics | HourlyMetrics | Flags | Health | Usage

  const PURGED: seq<Owned> := [AuthCodes, AuthGrants, Operations, Events, Metrics, HourlyMetrics, Flags, Health, Usage]

  /** What goes at once when the box stops running. */
  const RUNTIME: seq<Owned> := [AuthCodes, AuthGrants, Metrics, HourlyMetrics, Health, Usage]

  /** A table as the box each of its rows belongs to; a deleted row leaves a hole. */
  type Table = seq<Option<nat>>

  datatype BoxRow = BoxRow(isDeleted: bool, purgeAt: Option<int>)

  /** What is kept of a sale when its box is gone. */
  datatype Evidence = Evidence(
    user: nat, customer: Option<nat>, order: Option<nat>, subscription: Option<nat>, reason: Option<nat>,
    termsAcceptedAt: Option<int>)

  datatype Intent = Intent(box: Option<nat>, slugScrubbed: bool, evidence: Evidence)

  datatype World = World(
    boxes: seq<Option<BoxRow>>, owned: map<Owned, Table>, intents: seq<Intent>, snapshots: Table, scheduled: set<nat>)

  predicate WellFormed(w: World) {
    forall t :: t in PURGED ==> t in w.owned
  }

  function OfBox(box: nat): Option<nat> -> bool {
    (row: Option<nat>) => row == Some(box)
  }

  function IntentOf(box: nat): Intent -> bool {
    (row: Intent) => row.box == Some(box)
  }

  function Batch(table: Table, box: nat): seq<nat> {
    Take(Select(table, OfBox(box)), DELETE_BATCH_SIZE)
  }

  function IntentBatch(intents: seq<Intent>, box: nat): seq<nat> {
    Take(Select(intents, IntentOf(box)), DELETE_BATCH_SIZE)
  }

  /** A batch gone from each of the listed tables. */
  function DeleteBatches(owned: map<Owned, Table>, tables: seq<Owned>, box: nat): (r: map<Owned, Table>)
    ensures r.Keys == owned.Keys
    ensures forall t :: t in owned ==> r[t] == if t in tables then Removed(owned[t], Batch(owned[t], box)) else owned[t]
  {
    map t | t in owned :: if t in tables then Removed(owned[t], Batch(owned[t], box)) else owned[t]
  }

  /** A purge takes the link to the box and the slug. */
  function Scrubbed(row: Intent): Intent {
    row.(box := None, slugScrubbed := true)
  }

  function ReleaseIntents(intents: seq<Intent>, ids: seq<nat>): (r: seq<Intent>)
    ensures |r| == |intents|
    ensures forall i :: 0 <= i < |r| ==> r[i] == if i in ids then Scrubbed(intents[i]) else intents[i]
  {
    seq(|intents|, i requires 0 <= i < |intents| => if i in ids then Scrubbed(intents[i]) else intents[i])
  }

  predicate IsPurgeable(w: World, box: nat, now: int) {
    && box < |w.boxes| && w.boxes[box].Some?
    && w.boxes[box].value.isDeleted
    && w.boxes[box].value.purgeAt.Some? && w.boxes[box].value.purgeAt.value <= now
  }

  predicate NothingRead(w: World, box: nat)
    requires WellFormed(w)
  {
    && (forall t :: t in PURGED ==> Batch(w.owned[t], box) == [])
    && IntentBatch(w.intents, box) == []
    && Batch(w.snapshots, box) == []
  }

  /** Delete a batch of the nine tables, let go of a batch of reservations, schedule a
    * batch of snapshot deletes. */
  function PurgeBatches(w: World, box: nat): World {
    w.(owned := DeleteBatches(w.owned, PURGED, box),
       intents := ReleaseIntents(w.intents, IntentBatch(w.intents, box)),
       scheduled := w.scheduled + IdSet(Batch(w.snapshots, box)))
  }

  /** A batch of everything - or, when there was nothing to do, the box itself. */
  function PurgeBox(w: World, box: nat, now: int): World
    requires WellFormed(w)
  {
    if !IsPurgeable(w, box, now) then w
    else if NothingRead(w, box) then w.(boxes := w.boxes[box := None])
    else PurgeBatches(w, box)
  }

  /** A scheduled snapshot delete that has come to its end. */
  function FinishSnapshotDelete(w: World, id: nat): World {
    if id !in w.scheduled || id >= |w.snapshots| then w else w.(snapshots := w.snapshots[id := None])
  }

  /** The first purge of a deleted box: what it ran on. */
  function DeleteRuntimeData(w: World, box: nat): World {
    w.(owned := DeleteBatches(w.owned, RUNTIME, box))
  }

  // ---- Runs ----

  datatype Action =
    | NewBox
    | Tombstone(box: nat, purgeAt: int)
    | Purge(box: nat, now: int)
    | DeleteRuntime(box: nat)
    | SnapshotGone(id: nat)
    | Insert(table: Owned, box: nat)
    | InsertSnapshot(box: nat)
    | BindIntent(intent: nat, box: nat, evidence: Evidence)

  predicate BoxExists(w: World, box: nat) {
    box < |w.boxes| && w.boxes[box].Some?
  }

  function Apply(w: World, a: Action): (w': World)
    requires WellFormed(w)
    ensures WellFormed(w')
  {
    match a
    case NewBox => w.(boxes := w.boxes + [Some(BoxRow(false, None))])
    case Tombstone(box, purgeAt) =>
      if BoxExists(w, box) then w.(boxes := w.boxes[box := Some(BoxRow(true, Some(purgeAt)))]) else w
    case Purge(box, now) => PurgeBox(w, box, now)
    case DeleteRuntime(box) => DeleteRuntimeData(w, box)
    case SnapshotGone(id) => FinishSnapshotDelete(w, id)
    case Insert(table, box) =>
      if table in w.owned then w.(owned := w.owned[table := w.owned[table] + [Some(box)]]) else w
    case InsertSnapshot(box) => w.(snapshots := w.snapshots + [Some(box)])
    case BindIntent(intent, box, evidence) =>
      if intent < |w.intents| then w.(intents := w.intents[intent := Intent(Some(box), false, evidence)]) else w
  }

  function Exec(w: World, actions: seq<Action>): (w': World)
    requires WellFormed(w)
    ensures WellFormed(w')
  {
    if actions == [] then w else Apply(Exec(w, actions[..|actions| - 1]), actions[|actions| - 1])
  }

  predicate RowsRefer(w: World, table: Table) {
    forall i :: 0 <= i < |table| && table[i].Some? ==> BoxExists(w, table[i].value)
  }

  /** No row of the eleven tables refers to a box that is gone. */
  predicate NoneDangles(w: World)
    requires WellFormed(w)
  {
    && (forall t :: t in PURGED ==> RowsRefer(w, w.owned[t]))
    && RowsRefer(w, w.snapshots)
    && (forall i :: 0 <= i < |w.intents| && w.intents[i].box.Some? ==> BoxExists(w, w.intents[i].box.value))
  }

  /** The box row goes only when none of the eleven tables refers to it. */
  lemma PurgedBoxIsUnreferenced(w: World, box: nat, now: int)
    requires WellFormed(w) && BoxExists(w, box) && !BoxExists(PurgeBox(w, box, now), box)
    ensures forall t, i :: t in PURGED && 0 <= i < |w.owned[t]| ==> w.owned[t][i] != Some(box)
    ensures forall i :: 0 <= i < |w.snapshots| ==> w.snapshots[i] != Some(box)
    ensures forall i :: 0 <= i < |w.intents| ==> w.intents[i].box != Some(box)
    ensures IsPurgeable(w, box, now)
  {}

  /** The rows of the box a batch takes from a table: the oldest hundred. */
  lemma BatchIsAHundred(table: Table, box: nat)
    ensures |Batch(table, box)| == if |Select(table, OfBox(box))| < 100 then |Select(table, OfBox(box))| else 100
    ensures forall i :: i in Batch(table, box) ==> i < |table| && table[i] == Some(box)
    ensures forall i, j :: i in Batch(table, box) && 0 <= j < i && table[j] == Some(box) ==> j in Batch(table, box)
  {
    var ids, batch := Select(table, OfBox(box)), Batch(table, box);
    assert forall i :: i in batch ==> i in ids;
    forall i, j | i in batch && 0 <= j < i && table[j] == Some(box) ensures j in batch {
      assert j in ids;
      var a :| 0 <= a < |batch| && batch[a] == i;
      var b :| 0 <= b < |ids| && ids[b] == j;
      assert ids[a] == i && b < a;
      assert batch[b] == j;
    }
  }

  /** Deleted, and its time has come. */
  predicate IsDueForPurge(w: World, box: nat, now: int) {
    && box < |w.boxes| && w.boxes[box].Some? && w.boxes[box].value.isDeleted
    && w.boxes[box].value.purgeAt.Some? && w.boxes[box].value.purgeAt.value <= now
  }

  /** A box just deleted is due for its purge from the time its tombstone names, and not
    * before; a reservation bound to a box takes the evidence of its sale with the link. */
  lemma DeletedThenDue(w: World, box: nat, purgeAt: int, now: int, i: nat, evidence: Evidence)
    requires WellFormed(w) && BoxExists(w, box) && i < |w.intents|
    ensures IsDueForPurge(Apply(w, Tombstone(box, purgeAt)), box, now) <==> purgeAt <= now
    ensures Apply(w, BindIntent(i, box, evidence)).intents == w.intents[i := Intent(Some(box), false, evidence)]
  {}

  /** What one purge does: nothing to a box that is not due; else it takes the batches of
    * the box from all nine tables, scrubs the batch of its reservations and schedules
    * the batch of its snapshots, which stay until their deletes run; and the box row
    * goes exactly when there was nothing to take. */
  lemma PurgeExactly(w: World, box: nat, now: int)
    requires WellFormed(w)
    ensures var w' := PurgeBox(w, box, now);
            && w'.snapshots == w.snapshots && |w'.intents| == |w.intents|
            && (!IsDueForPurge(w, box, now) ==> w' == w)
            && (IsDueForPurge(w, box, now) ==>
                  && (forall t: Owned :: t in w'.owned && w'.owned[t] == Removed(w.owned[t], Batch(w.owned[t], box)))
                  && (forall i :: 0 <= i < |w.intents| ==>
                        w'.intents[i] == if i in IntentBatch(w.intents, box)
                                         then w.intents[i].(box := None, slugScrubbed := true) else w.intents[i])
                  && (forall s: nat :: s in w'.scheduled <==> s in w.scheduled || s in Batch(w.snapshots, box))
                  && (!BoxExists(w', box) <==> Remaining(w, box) == 0)
                  && (BoxExists(w', box) ==> w'.boxes == w.boxes))
  {
    hide Batch, IntentBatch, Remaining;
    forall t: Owned ensures t in PURGED && t in w.owned { AllOwnedListed(t); }
    if NothingRead(w, box) {
      NothingReadIsNone(w, box);
      forall t: Owned ensures Removed(w.owned[t], Batch(w.owned[t], box)) == w.owned[t] {}
    } else {
      SomethingReadIsSome(w, box);
    }
  }

  /** A scheduled snapshot delete takes its row; one nothing scheduled takes none. */
  lemma SnapshotDeleteRuns(w: World, id: nat)
    requires id < |w.snapshots|
    ensures var w' := FinishSnapshotDelete(w, id);
            && |w'.snapshots| == |w.snapshots| && w' == w.(snapshots := w'.snapshots)
            && (forall i :: 0 <= i < |w.snapshots| && i != id ==> w'.snapshots[i] == w.snapshots[i])
            && w'.snapshots[id] == if id in w.scheduled then None else w.snapshots[id]
  {}

  /** What goes with the runtime: codes, grants, both kinds of metrics, health and usage -
    * a batch of each; operations, events and flags stay for the purge. */
  lemma RuntimeExactly(w: World, box: nat)
    requires WellFormed(w)
    ensures var w' := DeleteRuntimeData(w, box);
            && w' == w.(owned := w'.owned)
            && (forall t: Owned :: t in w'.owned && t in w.owned)
            && (forall t: Owned :: !t.Operations? && !t.Events? && !t.Flags? ==>
                  w'.owned[t] == Removed(w.owned[t], Batch(w.owned[t], box)))
            && w'.owned[Operations] == w.owned[Operations] && w'.owned[Events] == w.owned[Events]
            && w'.owned[Flags] == w.owned[Flags]
  {
    hide Batch;
    forall t: Owned ensures t in w.owned { AllOwnedListed(t); }
    forall t: Owned ensures t in RUNTIME <==> !t.Operations? && !t.Events? && !t.Flags? {}
  }

  lemma AllOwnedListed(t: Owned)
    ensures t in PURGED
  {}

  lemma PurgeKeepsReferences(w: World, box: nat, now: int)
    requires WellFormed(w) && NoneDangles(w)
    ensures NoneDangles(PurgeBox(w, box, now))
  {
    var w' := PurgeBox(w, box, now);
    if IsPurgeable(w, box, now) && NothingRead(w, box) {
      PurgedBoxIsUnreferenced(w, box, now);
      forall t | t in PURGED ensures RowsRefer(w', w'.owned[t]) {
        assert RowsRefer(w, w.owned[t]);
      }
    } else {
      forall t | t in PURGED ensures RowsRefer(w', w'.owned[t]) {
        assert RowsRefer(w, w.owned[t]);
      }
    }
  }

  /** A row is written for a box that is not there. */
  predicate Misses(w: World, a: Action) {
    match a
    case Insert(table, box) => !BoxExists(w, box)
    case InsertSnapshot(box) => !BoxExists(w, box)
    case BindIntent(intent, box, evidence) => intent < |w.intents| && !BoxExists(w, box)
    case _ => false
  }

  lemma MissDangles(w: World, a: Action)
    requires WellFormed(w) && Misses(w, a)
    ensures !NoneDangles(Apply(w, a))
  {
    var w' := Apply(w, a);
    match a
    case Insert(table, box) =>
      AllOwnedListed(table);
      assert w'.owned[table][|w.owned[table]|] == Some(box);
    case InsertSnapshot(box) => assert w'.snapshots[|w.snapshots|] == Some(box);
    case BindIntent(intent, box, evidence) => assert w'.intents[intent].box == Some(box);
    case _ =>
  }

  lemma HitKeepsReferences(w: World, a: Action)
    requires WellFormed(w) && NoneDangles(w) && !Misses(w, a)
    ensures NoneDangles(Apply(w, a))
  {
    var w' := Apply(w, a);
    if a.Purge? {
      PurgeKeepsReferences(w, a.box, a.now);
    } else {
      if a.SnapshotGone? && a.id < |w.snapshots| {
        SnapshotDeleteRuns(w, a.id);
      }
      forall t | t in PURGED ensures RowsRefer(w', w'.owned[t]) {
        assert RowsRefer(w, w.owned[t]);
      }
    }
  }

  predicate EndsSound(w: World, actions: seq<Action>)
    requires WellFormed(w)
  {
    NoneDangles(Exec(w, actions))
  }

  /** No row dangles at the start, at the end or after any step between. */
  predicate NeverDangles(w: World, actions: seq<Action>)
    requires WellFormed(w)
  {
    forall k :: 0 <= k <= |actions| ==> EndsSound(w, actions[..k])
  }

  predicate NeverMisses(w: World, actions: seq<Action>)
    requires WellFormed(w)
  {
    forall k :: 0 <= k < |actions| ==> !Misses(Exec(w, actions[..k]), actions[k])
  }

  lemma NeverDanglesExtends(w: World, init: seq<Action>, a: Action)
    requires WellFormed(w)
    ensures NeverDangles(w, init + [a]) <==> NeverDangles(w, init) && EndsSound(w, init + [a])
    ensures NeverDangles(w, init) ==> EndsSound(w, init)
  {
    hide EndsSound;
    var all := init + [a];
    assert all[..|all|] == all && init[..|init|] == init;
    forall k | 0 <= k <= |init| ensures all[..k] == init[..k] {}
    if NeverDangles(w, all) {
      forall k | 0 <= k <= |init| ensures EndsSound(w, init[..k]) {
        assert all[..k] == init[..k];
      }
    }
  }

  lemma NeverMissesExtends(w: World, init: seq<Action>, a: Action)
    requires WellFormed(w)
    ensures NeverMisses(w, init + [a]) <==> NeverMisses(w, init) && !Misses(Exec(w, init), a)
  {
    hide Misses, Exec;
    var all := init + [a];
    assert forall k :: 0 <= k <= |init| ==> all[..k] == init[..k];
    assert all[..|init|] == init && all[|init|] == a;
    if NeverMisses(w, all) {
      forall k | 0 <= k < |init| ensures !Misses(Exec(w, init[..k]), init[k]) {
        assert all[..k] == init[..k] && all[k] == init[k];
      }
    }
  }

  /** Over any run, with any number of boxes made, deleted and purged: no row ever
    * refers to a box that is gone if and only if no step writes one for such a box. No
    * purge, and nothing a purge schedules, leaves one behind. */
  lemma {:induction false} NothingEverDangles(w: World, actions: seq<Action>)
    requires WellFormed(w) && NoneDangles(w)
    ensures NeverDangles(w, actions) <==> NeverMisses(w, actions)
  {
    if actions != [] {
      hide NeverDangles, NeverMisses, NoneDangles, Misses, Apply;
      var init, a := actions[..|actions| - 1], actions[|actions| - 1];
      assert actions == init + [a] && actions[..|init|] == init;
      NothingEverDangles(w, init);
      NeverDanglesExtends(w, init, a);
      NeverMissesExtends(w, init, a);
      if NeverDangles(w, init) {
        if Misses(Exec(w, init), a) {
          MissDangles(Exec(w, init), a);
        } else {
          HitKeepsReferences(Exec(w, init), a);
        }
      }
    }
  }

  ghost predicate NeverBound(actions: seq<Action>, i: nat) {
    forall k :: 0 <= k < |actions| && actions[k].BindIntent? ==> actions[k].intent != i
  }

  /** Over any run, a reservation that is not bound to a box again keeps its account,
    * its order, its subscription, its reason and its terms; a purge takes its link and
    * its slug, together, and nothing else of it. */
  lemma {:induction false} IntentsAreKept(w: World, actions: seq<Action>, i: nat)
    requires WellFormed(w) && i < |w.intents| && NeverBound(actions, i)
    ensures var w' := Exec(w, actions);
            && |w'.intents| == |w.intents|
            && w'.intents[i].evidence == w.intents[i].evidence
            && (w'.intents[i] == w.intents[i]
                || (w.intents[i].box.Some? && w'.intents[i] == w.intents[i].(box := None, slugScrubbed := true)))
  {
    hide NothingRead, IsPurgeable, DeleteBatches;
    if actions != [] {
      var w1, a := Exec(w, actions[..|actions| - 1]), actions[|actions| - 1];
      IntentsAreKept(w, actions[..|actions| - 1], i);
      if a.Purge? {
        IntentBatchIsOf(w1.intents, a.box);
      }
    }
  }

  // ---- Termination ----

  function RowsLeft(table: Table, box: nat): nat {
    |Select(table, OfBox(box))|
  }

  function LeftIn(owned: map<Owned, Table>, tables: seq<Owned>, box: nat): nat
    requires forall t :: t in tables ==> t in owned
  {
    if tables == [] then 0 else RowsLeft(owned[tables[0]], box) + LeftIn(owned, tables[1..], box)
  }

  function IntentsLeft(intents: seq<Intent>, box: nat): nat {
    |Select(intents, IntentOf(box))|
  }

  /** Every row that still refers to the box. */
  function Remaining(w: World, box: nat): nat
    requires WellFormed(w)
  {
    LeftIn(w.owned, PURGED, box) + IntentsLeft(w.intents, box) + RowsLeft(w.snapshots, box)
  }

  lemma DeletingABatch(table: Table, box: nat)
    ensures RowsLeft(Removed(table, Batch(table, box)), box) == RowsLeft(table, box) - |Batch(table, box)|
    ensures |Batch(table, box)| < DELETE_BATCH_SIZE ==> |Batch(table, box)| == RowsLeft(table, box)
  {
    var ids, batch := Select(table, OfBox(box)), Batch(table, box);
    var after, rest := Select(Removed(table, batch), OfBox(box)), ids[|batch|..];
    assert ids == batch + rest;
    forall i: nat ensures i in after <==> i in rest {
      assert i in ids <==> i in batch || i in rest;
      assert i in batch ==> i !in rest;
    }
    AscendingUnique(after, rest);
  }

  lemma ReleasingABatch(intents: seq<Intent>, box: nat)
    ensures IntentsLeft(ReleaseIntents(intents, IntentBatch(intents, box)), box) ==
            IntentsLeft(intents, box) - |IntentBatch(intents, box)|
  {
    var ids, batch := Select(intents, IntentOf(box)), IntentBatch(intents, box);
    var after, rest := Select(ReleaseIntents(intents, batch), IntentOf(box)), ids[|batch|..];
    assert ids == batch + rest;
    forall i: nat ensures i in after <==> i in rest {
      assert i in ids <==> i in batch || i in rest;
      assert i in batch ==> i !in rest;
    }
    AscendingUnique(after, rest);
  }

  lemma {:induction false} BatchesShrink(owned: map<Owned, Table>, tables: seq<Owned>, all: seq<Owned>, box: nat)
    requires forall t :: t in tables ==> t in owned && t in all
    ensures var owned' := DeleteBatches(owned, all, box);
            && LeftIn(owned', tables, box) <= LeftIn(owned, tables, box)
            && ((exists t :: t in tables && Batch(owned[t], box) != []) ==> LeftIn(owned', tables, box) < LeftIn(owned, tables, box))
            && ((forall t :: t in tables ==> |Batch(owned[t], box)| < DELETE_BATCH_SIZE) ==> LeftIn(owned', tables, box) == 0)
  {
    hide Batch, RowsLeft, DeleteBatches, Removed;
    if tables != [] {
      DeletingABatch(owned[tables[0]], box);
      BatchesShrink(owned, tables[1..], all, box);
      assert tables == [tables[0]] + tables[1..];
    }
  }

  /** The scheduled snapshot deletes of a batch, all come to their end. */
  function SnapshotsGone(w: World, ids: seq<nat>): World {
    w.(snapshots := Removed(w.snapshots, ids))
  }

  /** One re-drive: the purge, and the snapshot deletes it scheduled. */
  function Redrive(w: World, box: nat, now: int): (w': World)
    requires WellFormed(w)
    ensures WellFormed(w')
  {
    SnapshotsGone(PurgeBox(w, box, now), Batch(w.snapshots, box))
  }

  /** The rows that remain are a termination measure: every re-drive leaves fewer, and
    * with none left it deletes the box. */
  lemma RedrivesShrink(w: World, box: nat, now: int)
    requires WellFormed(w) && IsPurgeable(w, box, now)
    ensures var w' := Redrive(w, box, now);
            && (Remaining(w, box) > 0 ==> Remaining(w', box) < Remaining(w, box) && w'.boxes == w.boxes)
            && (Remaining(w, box) == 0 ==> !BoxExists(w', box))
  {
    BatchesShrink(w.owned, PURGED, PURGED, box);
    ReleasingABatch(w.intents, box);
    DeletingABatch(w.snapshots, box);
    if NothingRead(w, box) {
      NothingReadIsNone(w, box);
    } else {
      SomethingReadIsSome(w, box);
    }
  }

  lemma {:induction false} EmptyBatchesAreNone(owned: map<Owned, Table>, tables: seq<Owned>, box: nat)
    requires forall t :: t in tables ==> t in owned && Batch(owned[t], box) == []
    ensures LeftIn(owned, tables, box) == 0
  {
    if tables != [] {
      EmptyBatchesAreNone(owned, tables[1..], box);
    }
  }

  lemma NothingReadIsNone(w: World, box: nat)
    requires WellFormed(w) && NothingRead(w, box)
    ensures Remaining(w, box) == 0
  {
    EmptyBatchesAreNone(w.owned, PURGED, box);
  }

  lemma {:induction false} RowsCount(owned: map<Owned, Table>, tables: seq<Owned>, box: nat, t: Owned)
    requires t in tables && forall u :: u in tables ==> u in owned
    ensures RowsLeft(owned[t], box) <= LeftIn(owned, tables, box)
  {
    if tables[0] != t {
      RowsCount(owned, tables[1..], box, t);
    }
  }

  lemma SomethingReadIsSome(w: World, box: nat)
    requires WellFormed(w) && !NothingRead(w, box)
    ensures Remaining(w, box) > 0
  {
    if t :| t in PURGED && Batch(w.owned[t], box) != [] {
      RowsCount(w.owned, PURGED, box, t);
    }
  }

  /** The purge as it schedules itself again until the box is gone. */
  function PurgeDrive(w: World, box: nat, now: int): World
    requires WellFormed(w) && IsPurgeable(w, box, now)
    decreases Remaining(w, box)
  {
    RedrivesShrink(w, box, now);
    var w' := Redrive(w, box, now);
    if Remaining(w, box) == 0 then w' else PurgeDrive(w', box, now)
  }

  /** What a purge may change: this box's row, rows of the nine tables and of the
    * snapshots that were its own, and its reservations' link and slug. */
  predicate RowsOnlyOf(box: nat, table: Table, table': Table) {
    |table'| == |table| && forall i :: 0 <= i < |table| && table[i] != Some(box) ==> table'[i] == table[i]
  }

  predicate OnlyOf(box: nat, w: World, w': World)
    requires WellFormed(w) && WellFormed(w')
  {
    && |w'.boxes| == |w.boxes| && (forall b :: 0 <= b < |w.boxes| && b != box ==> w'.boxes[b] == w.boxes[b])
    && (forall t :: t in PURGED ==> RowsOnlyOf(box, w.owned[t], w'.owned[t]))
    && RowsOnlyOf(box, w.snapshots, w'.snapshots)
    && |w'.intents| == |w.intents|
    && (forall i :: 0 <= i < |w.intents| ==>
          if w.intents[i].box == Some(box) then w'.intents[i] in {w.intents[i], Scrubbed(w.intents[i])}
          else w'.intents[i] == w.intents[i])
  }

  lemma BatchIsOf(table: Table, box: nat)
    ensures forall i :: i in Batch(table, box) ==> i < |table| && table[i] == Some(box)
  {
    var ids := Select(table, OfBox(box));
    assert forall i :: i in Batch(table, box) ==> i in ids;
  }

  lemma IntentBatchIsOf(intents: seq<Intent>, box: nat)
    ensures forall i :: i in IntentBatch(intents, box) ==> i < |intents| && intents[i].box == Some(box)
  {
    var ids := Select(intents, IntentOf(box));
    assert forall i :: i in IntentBatch(intents, box) ==> i in ids;
  }

  lemma RedriveIsOnlyOf(w: World, box: nat, now: int)
    requires WellFormed(w)
    ensures OnlyOf(box, w, Redrive(w, box, now))
  {}

  lemma OnlyOfComposes(box: nat, a: World, b: World, c: World)
    requires WellFormed(a) && WellFormed(b) && WellFormed(c) && OnlyOf(box, a, b) && OnlyOf(box, b, c)
    ensures OnlyOf(box, a, c)
  {}

  /** Driven on, the purge ends with the box gone, nothing left that refers to it, and
    * everything else as it was. */
  lemma {:induction false} PurgeDriveEnds(w: World, box: nat, now: int)
    requires WellFormed(w) && IsPurgeable(w, box, now)
    ensures var w' := PurgeDrive(w, box, now);
            && WellFormed(w')
            && !BoxExists(w', box)
            && Remaining(w', box) == 0
            && OnlyOf(box, w, w')
    decreases Remaining(w, box)
  {
    var w' := Redrive(w, box, now);
    RedrivesShrink(w, box, now);
    RedriveIsOnlyOf(w, box, now);
    if Remaining(w, box) == 0 {
      BatchesShrink(w.owned, PURGED, PURGED, box);
      ReleasingABatch(w.intents, box);
      DeletingABatch(w.snapshots, box);
    } else {
      PurgeDriveEnds(w', box, now);
      OnlyOfComposes(box, w, w', PurgeDrive(w', box, now));
    }
  }

  /** The purge with anything between its re-drives. `at(k)` is what re-drive `k` finds:
    * the others leave the box and its time alone, and add at most `added` rows. */
  ghost predicate PurgesAmidOthers(at: nat -> World, box: nat, clock: nat -> int, added: nat -> nat) {
    && (forall k: nat :: WellFormed(at(k)))
    && IsPurgeable(at(0), box, clock(0))
    && (forall k: nat ::
          var w' := Redrive(at(k), box, clock(k));
          && (BoxExists(w', box) && IsPurgeable(at(k), box, clock(k)) ==> IsPurgeable(at(k + 1), box, clock(k + 1)))
          && Remaining(at(k + 1), box) <= Remaining(w', box) + added(k))
  }

  function LeftAt(w: World, box: nat): nat {
    if WellFormed(w) then Remaining(w, box) else 0
  }

  predicate FindsWork(w: World, box: nat, now: int) {
    WellFormed(w) && IsPurgeable(w, box, now) && Remaining(w, box) > 0
  }

  lemma WorkIsTakenAway(w: World, box: nat, now: int)
    requires FindsWork(w, box, now)
    ensures Remaining(Redrive(w, box, now), box) < Remaining(w, box) && BoxExists(Redrive(w, box, now), box)
  {
    RedrivesShrink(w, box, now);
  }

  /** If the others only add so many, some re-drive finds nothing left, and that is the
    * one that deletes the box. */
  lemma PurgeEndsAmidOthers(at: nat -> World, box: nat, clock: nat -> int, added: nat -> nat, bound: nat) returns (last: nat)
    requires PurgesAmidOthers(at, box, clock, added)
    requires forall n: nat :: Drains.Total(added, n) <= bound
    ensures last <= Remaining(at(0), box) + bound
    ensures !BoxExists(Redrive(at(last), box, clock(last)), box)
    ensures forall k: nat :: k < last ==> BoxExists(Redrive(at(k), box, clock(k)), box)
  {
    hide Remaining, Redrive, WellFormed, IsPurgeable, BoxExists, FindsWork;
    var left: nat -> nat := (k: nat) => LeftAt(at(k), box);
    var works: nat -> bool := (k: nat) => FindsWork(at(k), box, clock(k));
    forall k: nat | works(k)
      ensures left(k + 1) + 1 <= left(k) + added(k) && BoxExists(Redrive(at(k), box, clock(k)), box)
    {
      WorkIsTakenAway(at(k), box, clock(k));
    }
    last := Drains.SomeRoundIsShort(left, added, works, 1, bound);
    forall k: nat | k < last ensures FindsWork(at(k), box, clock(k)) {
      assert works(k);
    }
    LastFindsNothing(at, box, clock, added, last);
  }

  lemma LastFindsNothing(at: nat -> World, box: nat, clock: nat -> int, added: nat -> nat, last: nat)
    requires PurgesAmidOthers(at, box, clock, added)
    requires forall k: nat :: k < last ==> FindsWork(at(k), box, clock(k))
    requires !FindsWork(at(last), box, clock(last))
    ensures !BoxExists(Redrive(at(last), box, clock(last)), box)
  {
    hide Remaining, Redrive, WellFormed, IsPurgeable, BoxExists;
    if last > 0 {
      WorkIsTakenAway(at(last - 1), box, clock(last - 1));
      assert at(last - 1 + 1) == at(last) && FindsWork(at(last - 1), box, clock(last - 1));
    }
    RedrivesShrink(at(last), box, clock(last));
  }

  // ---- Runtime data ----

  predicate AnyFull(w: World, box: nat)
    requires WellFormed(w)
  {
    exists t :: t in RUNTIME && |Batch(w.owned[t], box)| == DELETE_BATCH_SIZE
  }

  lemma RuntimeIsOwned(w: World)
    requires WellFormed(w)
    ensures forall t :: t in RUNTIME ==> t in w.owned
  {}

  /** The mutation as it schedules itself again after a full batch. */
  function RuntimeDrive(w: World, box: nat): (w': World)
    requires WellFormed(w)
    ensures WellFormed(w')
    decreases (RuntimeIsOwned(w); LeftIn(w.owned, RUNTIME, box))
  {
    RuntimeIsOwned(w);
    BatchesShrink(w.owned, RUNTIME, RUNTIME, box);
    var w' := DeleteRuntimeData(w, box);
    if AnyFull(w, box) then RuntimeDrive(w', box) else w'
  }

  /** Only the six runtime tables changed, and only by rows of the box. */
  predicate RuntimeOnly(box: nat, w: World, w': World)
    requires WellFormed(w) && WellFormed(w')
  {
    && OnlyOf(box, w, w')
    && w'.boxes == w.boxes && w'.intents == w.intents && w'.snapshots == w.snapshots
    && forall t :: t in PURGED && t !in RUNTIME ==> w'.owned[t] == w.owned[t]
  }

  lemma RuntimeStep(w: World, box: nat)
    requires WellFormed(w)
    ensures RuntimeOnly(box, w, DeleteRuntimeData(w, box))
  {}

  lemma RuntimeComposes(box: nat, a: World, b: World, c: World)
    requires WellFormed(a) && WellFormed(b) && WellFormed(c) && RuntimeOnly(box, a, b) && RuntimeOnly(box, b, c)
    ensures RuntimeOnly(box, a, c)
  {}

  lemma BatchesAreSmall(owned: map<Owned, Table>, box: nat)
    ensures forall t :: t in owned ==> |Batch(owned[t], box)| <= DELETE_BATCH_SIZE
  {}

  lemma NoneFullIsNone(w: World, box: nat)
    requires WellFormed(w) && !AnyFull(w, box)
    ensures forall t :: t in RUNTIME ==> t in w.owned && RowsLeft(DeleteRuntimeData(w, box).owned[t], box) == 0
  {
    RuntimeIsOwned(w);
    BatchesAreSmall(w.owned, box);
    BatchesShrink(w.owned, RUNTIME, RUNTIME, box);
    hide Batch, RowsLeft, DeleteBatches, AnyFull;
    forall t | t in RUNTIME ensures RowsLeft(DeleteRuntimeData(w, box).owned[t], box) == 0 {
      RowsCount(DeleteRuntimeData(w, box).owned, RUNTIME, box, t);
    }
  }

  /** It ends with none of the six runtime tables referring to the box, and nothing
    * else changed. */
  lemma {:induction false} RuntimeDriveEnds(w: World, box: nat)
    requires WellFormed(w)
    ensures RuntimeOnly(box, w, RuntimeDrive(w, box))
    ensures forall t :: t in RUNTIME ==> t in RuntimeDrive(w, box).owned && RowsLeft(RuntimeDrive(w, box).owned[t], box) == 0
    decreases (RuntimeIsOwned(w); LeftIn(w.owned, RUNTIME, box))
  {
    RuntimeIsOwned(w);
    var w' := DeleteRuntimeData(w, box);
    RuntimeStep(w, box);
    BatchesShrink(w.owned, RUNTIME, RUNTIME, box);
    if AnyFull(w, box) {
      RuntimeDriveEnds(w', box);
      RuntimeComposes(box, w, w', RuntimeDrive(w', box));
    } else {
      NoneFullIsNone(w, box);
    }
  }

  /** The runtime cleanup with anything between its rounds. */
  ghost predicate CleansAmidOthers(at: nat -> World, box: nat, added: nat -> nat) {
    && (forall k: nat :: WellFormed(at(k)))
    && (forall k: nat :: RuntimeLeft(at(k + 1), box) <= RuntimeLeft(DeleteRuntimeData(at(k), box), box) + added(k))
  }

  function RuntimeLeft(w: World, box: nat): nat {
    if WellFormed(w) then RuntimeIsOwned(w); LeftIn(w.owned, RUNTIME, box) else 0
  }

  predicate IsFullRound(w: World, box: nat) {
    WellFormed(w) && AnyFull(w, box)
  }

  lemma FullRoundTakesAway(w: World, box: nat)
    requires IsFullRound(w, box)
    ensures RuntimeLeft(DeleteRuntimeData(w, box), box) < RuntimeLeft(w, box)
  {
    RuntimeIsOwned(w);
    BatchesShrink(w.owned, RUNTIME, RUNTIME, box);
  }

  /** If the others only add so many rows, some round is the last, and leaves none. */
  lemma RuntimeEndsAmidOthers(at: nat -> World, box: nat, added: nat -> nat, bound: nat) returns (last: nat)
    requires CleansAmidOthers(at, box, added)
    requires forall n: nat :: Drains.Total(added, n) <= bound
    ensures last <= RuntimeLeft(at(0), box) + bound
    ensures forall t :: t in RUNTIME ==>
              t in at(last).owned && RowsLeft(DeleteRuntimeData(at(last), box).owned[t], box) == 0
  {
    hide RuntimeLeft, DeleteRuntimeData, WellFormed, IsFullRound;
    var left: nat -> nat := (k: nat) => RuntimeLeft(at(k), box);
    var full: nat -> bool := (k: nat) => IsFullRound(at(k), box);
    forall k: nat | full(k) ensures left(k + 1) + 1 <= left(k) + added(k) {
      FullRoundTakesAway(at(k), box);
    }
    last := Drains.SomeRoundIsShort(left, added, full, 1, bound);
    LastRoundLeavesNone(at(last), box);
  }

  lemma LastRoundLeavesNone(w: World, box: nat)
    requires WellFormed(w) && !IsFullRound(w, box)
    ensures forall t :: t in RUNTIME ==> t in w.owned && RowsLeft(DeleteRuntimeData(w, box).owned[t], box) == 0
  {
    NoneFullIsNone(w, box);
  }
}

/** The cleanup mutations as the program performs them, row by row. */
module BoxCleanupTables {
  import opened Tables
  import opened BoxCleanup

  method DeleteEach(table: Table, ids: seq<nat>) returns (r: Table)
    requires forall k :: 0 <= k < |ids| ==> ids[k] < |table|
    ensures r == Removed(table, ids)
  {
    r := table;
    for k := 0 to |ids|
      invariant |r| == |table|
      invariant r == Removed(table, ids[..k])
    {
      assert ids[..k + 1] == ids[..k] + [ids[k]];
      r := r[ids[k] := None];
    }
    assert ids[..|ids|] == ids;
  }

  lemma DeletedFromNone(owned: map<Owned, Table>, box: nat)
    ensures DeleteBatches(owned, [], box) == owned
  {}

  lemma DeletedFromOneMore(owned: map<Owned, Table>, tables: seq<Owned>, k: nat, box: nat)
    requires k < |tables| && tables[k] in owned && tables[k] !in tables[..k]
    ensures var done := DeleteBatches(owned, tables[..k], box);
            && done[tables[k]] == owned[tables[k]]
            && DeleteBatches(owned, tables[..k + 1], box) ==
               done[tables[k] := Removed(owned[tables[k]], Batch(owned[tables[k]], box))]
  {
    assert tables[..k + 1] == tables[..k] + [tables[k]];
  }

  predicate AnyIn(owned: map<Owned, Table>, tables: seq<Owned>, box: nat)
    requires forall k :: 0 <= k < |tables| ==> tables[k] in owned
  {
    exists k :: 0 <= k < |tables| && Batch(owned[tables[k]], box) != []
  }

  predicate FullIn(owned: map<Owned, Table>, tables: seq<Owned>, box: nat)
    requires forall k :: 0 <= k < |tables| ==> tables[k] in owned
  {
    exists k :: 0 <= k < |tables| && |Batch(owned[tables[k]], box)| == DELETE_BATCH_SIZE
  }

  lemma SeenInOneMore(owned: map<Owned, Table>, tables: seq<Owned>, k: nat, box: nat)
    requires k < |tables| && forall j :: 0 <= j < |tables| ==> tables[j] in owned
    ensures AnyIn(owned, tables[..k + 1], box) <==> AnyIn(owned, tables[..k], box) || Batch(owned[tables[k]], box) != []
    ensures FullIn(owned, tables[..k + 1], box) <==>
              FullIn(owned, tables[..k], box) || |Batch(owned[tables[k]], box)| == DELETE_BATCH_SIZE
  {}

  lemma SomethingIsListed(w: World, box: nat)
    requires WellFormed(w)
    ensures forall k :: 0 <= k < |PURGED| ==> PURGED[k] in w.owned
    ensures NothingRead(w, box) <==>
              !AnyIn(w.owned, PURGED, box)
              && IntentBatch(w.intents, box) == [] && Batch(w.snapshots, box) == []
  {}

  lemma RuntimeIsListed(w: World, box: nat)
    requires WellFormed(w)
    ensures forall k :: 0 <= k < |RUNTIME| ==> RUNTIME[k] in w.owned
    ensures AnyFull(w, box) <==> FullIn(w.owned, RUNTIME, box)
  {}

  class CleanupTables {
    var boxes: seq<Option<BoxRow>>
    var owned: map<Owned, Table>
    var intents: seq<Intent>
    var snapshots: Table
    var scheduled: set<nat>

    constructor ()
      ensures WellFormed(State()) && NoneDangles(State())
    {
      boxes, intents, snapshots, scheduled := [], [], [], {};
      owned := map t | t in PURGED :: [];
    }

    function State(): World
      reads this
    {
      World(boxes, owned, intents, snapshots, scheduled)
    }

    method DeleteBatchOf(t: Owned, box: nat) returns (count: nat)
      requires t in owned
      modifies `owned
      ensures owned == old(owned)[t := Removed(old(owned)[t], Batch(old(owned)[t], box))]
      ensures count == |Batch(old(owned)[t], box)|
    {
      var batch := Batch(owned[t], box);
      BatchIsOf(owned[t], box);
      assert forall j :: 0 <= j < |batch| ==> batch[j] in batch;
      var table := DeleteEach(owned[t], batch);
      owned := owned[t := table];
      count := |batch|;
    }

    /** A batch of each listed table, row by row. `any` says whether there was one,
      * `full` whether a table may hold more. */
    method DeleteFrom(tables: seq<Owned>, box: nat) returns (any: bool, full: bool)
      requires forall k :: 0 <= k < |tables| ==> tables[k] in owned
      requires forall j, k :: 0 <= j < k < |tables| ==> tables[j] != tables[k]
      modifies `owned
      ensures owned == DeleteBatches(old(owned), tables, box)
      ensures any <==> AnyIn(old(owned), tables, box)
      ensures full <==> FullIn(old(owned), tables, box)
    {
      hide DeleteBatches, Removed;
      assert !AnyIn(owned, tables[..0], box) && !FullIn(owned, tables[..0], box);
      hide Batch, AnyIn, FullIn;
      any, full := false, false;
      DeletedFromNone(owned, box);
      for k := 0 to |tables|
        invariant owned == DeleteBatches(old(owned), tables[..k], box)
        invariant any <==> AnyIn(old(owned), tables[..k], box)
        invariant full <==> FullIn(old(owned), tables[..k], box)
      {
        SeenInOneMore(old(owned), tables, k, box);
        DeletedFromOneMore(old(owned), tables, k, box);
        var count := DeleteBatchOf(tables[k], box);
        any := any || count > 0;
        full := full || count == DELETE_BATCH_SIZE;
      }
      assert tables[..|tables|] == tables;
    }

    method DeleteRuntimeData(box: nat) returns (again: bool)
      requires WellFormed(State())
      modifies `owned
      ensures State() == BoxCleanup.DeleteRuntimeData(old(State()), box)
      ensures again <==> AnyFull(old(State()), box)
    {
      RuntimeIsListed(State(), box);
      var any: bool;
      any, again := DeleteFrom(RUNTIME, box);
    }

    method ReleaseEach(ids: seq<nat>)
      requires forall k :: 0 <= k < |ids| ==> ids[k] < |intents|
      modifies `intents
      ensures intents == ReleaseIntents(old(intents), ids)
    {
      for k := 0 to |ids|
        invariant |intents| == |old(intents)|
        invariant intents == ReleaseIntents(old(intents), ids[..k])
      {
        assert ids[..k + 1] == ids[..k] + [ids[k]];
        intents := intents[ids[k] := Scrubbed(intents[ids[k]])];
      }
      assert ids[..|ids|] == ids;
    }

    method DeleteOwned(box: nat) returns (any: bool)
      requires forall k :: 0 <= k < |PURGED| ==> PURGED[k] in owned
      modifies `owned
      ensures owned == DeleteBatches(old(owned), PURGED, box)
      ensures any <==> AnyIn(old(owned), PURGED, box)
    {
      var full: bool;
      any, full := DeleteFrom(PURGED, box);
    }

    method PurgeEach(box: nat) returns (any: bool)
      requires WellFormed(State())
      modifies `owned, `intents, `scheduled
      ensures State() == PurgeBatches(old(State()), box)
      ensures any <==> !NothingRead(old(State()), box)
    {
      var intentBatch, snapshotBatch := IntentBatch(intents, box), Batch(snapshots, box);
      IntentBatchIsOf(intents, box);
      assert forall k :: 0 <= k < |intentBatch| ==> intentBatch[k] in intentBatch;
      hide Batch, IntentBatch, NothingRead, DeleteBatches, ReleaseIntents, AnyIn, FullIn;
      SomethingIsListed(State(), box);
      any := DeleteOwned(box);
      ReleaseEach(intentBatch);
      scheduled := scheduled + IdSet(snapshotBatch);
      any := any || intentBatch != [] || snapshotBatch != [];
    }

    method PurgeBox(box: nat, now: int) returns (again: bool)
      requires WellFormed(State()) && NoneDangles(State())
      modifies this
      ensures State() == BoxCleanup.PurgeBox(old(State()), box, now)
      ensures again <==> IsPurgeable(old(State()), box, now) && !NothingRead(old(State()), box)
      ensures WellFormed(State()) && NoneDangles(State()) && |intents| == |old(intents)|
    {
      hide NothingRead, PurgeBatches, NoneDangles;
      PurgeKeepsReferences(State(), box, now);
      PurgeKeepsCounts(State(), box, now);
      if !IsPurgeable(State(), box, now) {
        return false;
      }
      again := PurgeEach(box);
      if again {
        return;
      }
      NothingWritten(old(State()), box);
      boxes := boxes[box := None];
    }
  }

  lemma PurgeKeepsCounts(w: World, box: nat, now: int)
    requires WellFormed(w)
    ensures WellFormed(BoxCleanup.PurgeBox(w, box, now)) && |BoxCleanup.PurgeBox(w, box, now).intents| == |w.intents|
  {}

  /** Batches of nothing change nothing. */
  lemma NothingWritten(w: World, box: nat)
    requires WellFormed(w) && NothingRead(w, box)
    ensures PurgeBatches(w, box) == w
  {
    forall t | t in w.owned ensures DeleteBatches(w.owned, PURGED, box)[t] == w.owned[t] {
      AllOwnedListed(t);
    }
    assert DeleteBatches(w.owned, PURGED, box) == w.owned;
    assert ReleaseIntents(w.intents, IntentBatch(w.intents, box)) == w.intents;
    assert w.scheduled + IdSet(Batch(w.snapshots, box)) == w.scheduled;
  }
}
