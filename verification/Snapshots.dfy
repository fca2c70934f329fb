/** Snapshot rows: what admits one more, what gives way to it, when one expires, and
  * every transaction that moves a row. Ids are creation order; a removed row leaves
  * a hole. */
module Snapshots {
  import opened Tables
  import opened Vocabulary
  import opened Store

  const DAY_MS: int := 86_400_000
  const SNAPSHOT_INCOMPLETE_RETENTION_MS: int := DAY_MS
  const SNAPSHOT_RETENTION_SWEEP_BATCH: nat := 200
  const SNAPSHOT_SUPERSEDE_PAGE_SIZE: nat := 50
  const SNAPSHOT_MANUAL_DEFAULT: nat := 2

  datatype SnapshotClass = Manual | Scheduled | Rollback | Duplicate
  datatype Allowance = FromManual | FromAutomatic | Reserved

  function AllowanceOf(cls: SnapshotClass): Allowance {
    match cls case Manual => FromManual case Scheduled => FromAutomatic case Rollback => Reserved case Duplicate => Reserved
  }

  predicate Expires(cls: SnapshotClass) {
    !cls.Manual?
  }

  datatype Row = Row(
    box: nat, cls: SnapshotClass, status: SnapshotStatus, image: Option<nat>, createdAt: int, expiresAt: Option<int>)
  type Rows = seq<Option<Row>>

  /** A box's plan and the manual cap stored on it, `None` where the stored number is
    * not an integer. */
  datatype Allotment = Allotment(plan: BoxPlan, storedManualCap: Option<int>)
  datatype Split = Split(automatic: nat, manual: nat)

  function Clamp(n: int, hi: nat): nat {
    if n < 0 then 0 else if n > hi then hi else n
  }

  function ResolveSnapshotSplit(box: Allotment): (split: Split)
    ensures split.automatic + split.manual == SnapshotCap(box.plan)
  {
    if !AllowsManualSnapshots(box.plan) then Split(SnapshotCap(box.plan), 0)
    else
      var cap := SnapshotCap(box.plan);
      var manual := if box.storedManualCap.Some? then Clamp(box.storedManualCap.value, cap) else SNAPSHOT_MANUAL_DEFAULT;
      Split(cap - manual, manual)
  }

  // ---- Index keys ----

  const ACTIVE_SNAPSHOT_STATUSES: seq<SnapshotStatus> := [CapturePending, CaptureCreating, CaptureComplete]
  const DELETABLE_SNAPSHOT_STATUSES: seq<SnapshotStatus> := [CapturePending, CaptureCreating, CaptureComplete, CaptureFailed]

  function ClassInStatus(box: nat, cls: SnapshotClass, status: SnapshotStatus): Option<Row> -> bool {
    (row: Option<Row>) => row.Some? && row.value.box == box && row.value.cls == cls && row.value.status == status
  }

  function InStatuses(box: nat, cls: SnapshotClass, statuses: seq<SnapshotStatus>): Option<Row> -> bool {
    (row: Option<Row>) => row.Some? && row.value.box == box && row.value.cls == cls && row.value.status in statuses
  }

  function ActiveOf(box: nat, cls: SnapshotClass): Option<Row> -> bool {
    InStatuses(box, cls, ACTIVE_SNAPSHOT_STATUSES)
  }

  function CompleteOf(box: nat, cls: SnapshotClass): Option<Row> -> bool {
    ClassInStatus(box, cls, CaptureComplete)
  }

  // ---- Admission ----

  function SnapshotEvictionCount(activeCount: nat, cap: nat): nat {
    if activeCount >= cap then activeCount - cap + 1 else 0
  }

  datatype Count = Count(count: nat, exact: bool)

  /** Counting up to a limit: the count itself below it, a floor from there on. */
  function CountUpTo(total: nat, limit: nat): Count {
    if total < limit then Count(total, true) else Count(limit, false)
  }

  function ActiveCount(rows: Rows, box: nat, cls: SnapshotClass, limit: nat): Count {
    CountUpTo(|Select(rows, ActiveOf(box, cls))|, limit)
  }

  function OldestComplete(rows: Rows, box: nat, cls: SnapshotClass, limit: nat): seq<nat> {
    Take(Select(rows, CompleteOf(box, cls)), limit)
  }

  datatype CapacityPlan = CapacityPlan(canInsert: bool, evictions: seq<nat>, requiredEvictions: nat)

  function SnapshotCapacityPlan(rows: Rows, box: nat, split: Split, cls: SnapshotClass): CapacityPlan {
    match AllowanceOf(cls)
    case Reserved => CapacityPlan(true, [], 0)
    case FromManual =>
      CapacityPlan(ActiveCount(rows, box, cls, split.manual + 1).count < split.manual, [], 0)
    case FromAutomatic =>
      var cap := split.automatic;
      var batch := cap + 1;
      var counted := ActiveCount(rows, box, cls, cap + batch);
      var required := SnapshotEvictionCount(counted.count, cap);
      var evictions := OldestComplete(rows, box, cls, if required < batch then required else batch);
      CapacityPlan(counted.exact && |evictions| == required && required <= batch, evictions, required)
  }

  // ---- Expiry ----

  function SnapshotExpiry(cls: SnapshotClass, createdAt: int, retentionDays: int): Option<int> {
    if !Expires(cls) then None else Some(createdAt + retentionDays * DAY_MS)
  }

  predicate ExpiredBefore(row: Row, now: int) {
    row.expiresAt.Some? && 0 <= row.expiresAt.value < now
  }

  function Claimable(now: int): Option<Row> -> bool {
    (row: Option<Row>) => row.Some? && row.value.status in DELETABLE_SNAPSHOT_STATUSES && ExpiredBefore(row.value, now)
  }

  function ClaimableIn(status: SnapshotStatus, now: int): Option<Row> -> bool {
    (row: Option<Row>) => row.Some? && row.value.status == status && ExpiredBefore(row.value, now)
  }

  // ---- Transactions ----

  /** The snapshot table and the deletes ever scheduled of it. `claims` lists what the
    * retention sweep claimed, `revivals` counts captures of a box's daily snapshot
    * that went on after they had failed. */
  datatype World = World(rows: Rows, scheduled: set<nat>, claims: seq<nat>, revivals: map<nat, nat>)

  predicate Exists(w: World, id: nat) {
    id < |w.rows| && w.rows[id].Some?
  }

  function Patch(w: World, id: nat, row: Row): World
    requires Exists(w, id)
  {
    w.(rows := w.rows[id := Some(row)])
  }

  function NewRow(box: nat, cls: SnapshotClass, now: int): Row {
    Row(box, cls, CapturePending, None, now, Some(now + SNAPSHOT_INCOMPLETE_RETENTION_MS))
  }

  /** Schedule what must give way and insert the row; a refusal leaves no trace. */
  function BeginSnapshot(w: World, box: nat, split: Split, cls: SnapshotClass, now: int): World {
    var plan := SnapshotCapacityPlan(w.rows, box, split, cls);
    if !plan.canInsert then w else
      w.(scheduled := w.scheduled + IdSet(plan.evictions), rows := w.rows + [Some(NewRow(box, cls, now))])
  }

  predicate IsOpenCapture(w: World, id: nat) {
    Exists(w, id) && w.rows[id].value.status != SnapshotDeleting
  }

  function Revivals(w: World, box: nat): nat {
    if box in w.revivals then w.revivals[box] else 0
  }

  function CountRevival(w: World, id: nat): map<nat, nat>
    requires Exists(w, id)
  {
    var row := w.rows[id].value;
    if row.status == CaptureFailed && row.cls == Scheduled then w.revivals[row.box := Revivals(w, row.box) + 1] else w.revivals
  }

  function MarkCreating(w: World, id: nat, image: nat): World {
    if !IsOpenCapture(w, id) then w else
      Patch(w, id, w.rows[id].value.(status := CaptureCreating, image := Some(image))).(revivals := CountRevival(w, id))
  }

  function CompleteSnapshot(w: World, id: nat, retentionDays: int): World {
    if !IsOpenCapture(w, id) then w else
      var row := w.rows[id].value;
      Patch(w, id, row.(status := CaptureComplete, expiresAt := SnapshotExpiry(row.cls, row.createdAt, retentionDays)))
      .(revivals := CountRevival(w, id))
  }

  function FailSnapshot(w: World, id: nat, now: int): World {
    if !IsOpenCapture(w, id) then w else
      Patch(w, id, w.rows[id].value.(status := CaptureFailed, expiresAt := Some(now + SNAPSHOT_INCOMPLETE_RETENTION_MS)))
  }

  function MarkDeleting(rows: Rows, id: nat): Rows {
    if id < |rows| && rows[id].Some? then rows[id := Some(rows[id].value.(status := SnapshotDeleting))] else rows
  }

  /** The first half of a scheduled delete. */
  function ClaimSnapshotDelete(w: World, id: nat): World {
    if id !in w.scheduled then w else w.(rows := MarkDeleting(w.rows, id))
  }

  /** The second half, after the provider's image is gone. */
  function RemoveSnapshotRow(w: World, id: nat): World {
    if id !in w.scheduled || !Exists(w, id) || w.rows[id].value.status != SnapshotDeleting then w else
      w.(rows := w.rows[id := None])
  }

  /** Anything else that schedules deletes: an owner's delete, the removal of a box. */
  function ScheduleDelete(w: World, id: nat): World {
    w.(scheduled := w.scheduled + {id})
  }

  // ---- The retention sweep ----

  /** Every claimable id, status by status. */
  function PastExpiry(rows: Rows, listing: seq<nat>, statuses: seq<SnapshotStatus>, now: int): seq<nat> {
    if statuses == [] then [] else
      Ranged(rows, listing, ClaimableIn(statuses[0], now)) + PastExpiry(rows, listing, statuses[1..], now)
  }

  function AllDeleting(rows: Rows, ids: seq<nat>): (r: Rows)
    ensures |r| == |rows|
  {
    if ids == [] then rows else MarkDeleting(AllDeleting(rows, ids[..|ids| - 1]), ids[|ids| - 1])
  }

  datatype Claim = Claim(ids: seq<nat>, hasMore: bool)

  /** The first `limit` of them. */
  function ExpiryClaim(rows: Rows, listing: seq<nat>, limit: nat, now: int): Claim {
    var ids := Take(PastExpiry(rows, listing, DELETABLE_SNAPSHOT_STATUSES, now), limit);
    Claim(ids, limit > 0 && |ids| == limit)
  }

  /** The claim is a transaction of its own; the sweep schedules the deletes after it. */
  function ClaimExpired(w: World, listing: seq<nat>, limit: nat, now: int): World {
    var ids := ExpiryClaim(w.rows, listing, limit, now).ids;
    w.(rows := AllDeleting(w.rows, ids), claims := w.claims + ids)
  }

  function ScheduleDeletes(w: World, ids: seq<nat>): World {
    w.(scheduled := w.scheduled + IdSet(ids))
  }

  /** One round of the sweep that nothing interrupts. */
  function SweepRound(w: World, listing: seq<nat>, limit: nat, now: int): World {
    ScheduleDeletes(ClaimExpired(w, listing, limit, now), ExpiryClaim(w.rows, listing, limit, now).ids)
  }

  // ---- The supersede pass ----

  function RollbackOf(box: nat): Option<Row> -> bool {
    (row: Option<Row>) => row.Some? && row.value.box == box && row.value.cls == Rollback
  }

  function NewestFirst(ids: seq<nat>): (r: seq<nat>)
    ensures |r| == |ids| && forall k :: 0 <= k < |r| ==> r[k] == ids[|ids| - 1 - k]
  {
    seq(|ids|, k requires 0 <= k < |ids| => ids[|ids| - 1 - k])
  }

  function RollbackPage(rows: Rows, box: nat): seq<nat> {
    Take(NewestFirst(Select(rows, RollbackOf(box))), SNAPSHOT_SUPERSEDE_PAGE_SIZE)
  }

  predicate IsComplete(rows: Rows, id: nat) {
    id < |rows| && rows[id].Some? && rows[id].value.status == CaptureComplete
  }

  function FirstComplete(rows: Rows, ids: seq<nat>): Option<nat> {
    if ids == [] then None else if IsComplete(rows, ids[0]) then Some(ids[0]) else FirstComplete(rows, ids[1..])
  }

  function Without(ids: seq<nat>, kept: Option<nat>): (r: seq<nat>)
    ensures forall i: nat :: i in r <==> i in ids && Some(i) != kept
  {
    if ids == [] then [] else
      var rest := Without(ids[1..], kept);
      if Some(ids[0]) == kept then rest else [ids[0]] + rest
  }

  /** What one pass schedules: every row of the page but its newest complete one. */
  function Superseded(rows: Rows, box: nat): seq<nat> {
    var page := RollbackPage(rows, box);
    Without(page, FirstComplete(rows, page))
  }

  function SupersedeRollbackSnapshots(w: World, box: nat): World {
    w.(scheduled := w.scheduled + IdSet(Superseded(w.rows, box)))
  }

  // ---- Runs ----

  datatype Action =
    | Begin(box: nat, cls: SnapshotClass, now: int)
    | Progress(id: nat, image: nat)
    | Complete(id: nat, retentionDays: int)
    | Fail(id: nat, now: int)
    | Schedule(id: nat)
    | ClaimDelete(id: nat)
    | Remove(id: nat)
    | Sweep(listing: seq<nat>, limit: nat, now: int)
    | Supersede(box: nat)

  /** Boxes, with plans and splits that do not change during a run. */
  type Fleet = seq<Allotment>

  function Apply(fleet: Fleet, w: World, a: Action): World {
    match a
    case Begin(box, cls, now) =>
      if box < |fleet| then BeginSnapshot(w, box, ResolveSnapshotSplit(fleet[box]), cls, now) else w
    case Progress(id, image) => MarkCreating(w, id, image)
    case Complete(id, retentionDays) => CompleteSnapshot(w, id, retentionDays)
    case Fail(id, now) => FailSnapshot(w, id, now)
    case Schedule(id) => ScheduleDelete(w, id)
    case ClaimDelete(id) => ClaimSnapshotDelete(w, id)
    case Remove(id) => RemoveSnapshotRow(w, id)
    case Sweep(listing, limit, now) => if IsListing(listing, |w.rows|) then ClaimExpired(w, listing, limit, now) else w
    case Supersede(box) => SupersedeRollbackSnapshots(w, box)
  }

  function Exec(fleet: Fleet, w: World, actions: seq<Action>): World {
    if actions == [] then w else Apply(fleet, Exec(fleet, w, actions[..|actions| - 1]), actions[|actions| - 1])
  }

  const EMPTY := World([], {}, [], map[])
}
