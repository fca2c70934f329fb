/** Capacity admission: what the fleet has promised, whether one more box fits,
  * and the alert that follows the answer. */
module Capacity {
  import opened Tables
  import opened Vocabulary
  import opened Store

  // ---- Snapshot slots ----

  /** Slots a box holds beyond the allowance its plan sells. */
  const RESERVED_SNAPSHOT_SLOTS: nat := 3

  function SnapshotSlots(plan: BoxPlan): nat {
    SnapshotCap(plan) + RESERVED_SNAPSHOT_SLOTS
  }

  function LargestSnapshotSlots(): (slots: nat)
    ensures forall plan: BoxPlan :: SnapshotSlots(plan) <= slots
    ensures exists plan: BoxPlan :: SnapshotSlots(plan) == slots
  {
    assert SnapshotSlots(Pro) == 8;
    8
  }

  function Max(a: int, b: int): int {
    if a < b then b else a
  }

  function Min(a: int, b: int): int {
    if a < b then a else b
  }

  // ---- Certificates ----

  const CERTIFICATE_RECOVERY_RESERVE: nat := 10
  const CERTIFICATE_WEEK_MS: int := 604_800_000
  const CERTIFICATE_ISSUING_OPERATIONS: seq<OperationType> := [CreateBox, ResetBox, ChangeSlug, RestoreBox]

  datatype CertificateHeadroom = CertificateHeadroom(forCreation: nat, forRecovery: nat)

  function Headroom(issuedThisWeek: nat, limit: Option<nat>): CertificateHeadroom {
    if limit.None? then CertificateHeadroom(0, 0) else
      var remaining: nat := Max(0, limit.value - issuedThisWeek);
      CertificateHeadroom(Max(0, remaining - CERTIFICATE_RECOVERY_RESERVE), remaining)
  }

  // ---- Admission ----

  datatype LimitReason = ServerLimit | SnapshotLimit | CertificateLimit
  datatype BlockReason = ManualPause | LimitsNotConfigured | AtLimit(limit: LimitReason)

  datatype Demand = Demand(
    activeCheckouts: nat, liveBoxes: nat, snapshotCommitments: nat, issuedCertificates: nat)

  datatype CapacityUsage = CapacityUsage(
    availableNewBoxes: nat,
    blockReason: Option<BlockReason>,
    limitBlockReason: Option<LimitReason>,
    serverCommitments: nat,
    certificates: CertificateHeadroom)
  {
    predicate CheckoutAvailable() { blockReason.None? }
  }

  predicate IsConfigured(settings: Settings) {
    settings.serverLimit.Some? && settings.snapshotLimit.Some? && settings.certificateLimit.Some?
  }

  function CapacityAvailability(demand: Demand, settings: Settings, slotsPerBox: nat): CapacityUsage
    requires slotsPerBox > 0
  {
    var serverCommitments := demand.liveBoxes + demand.activeCheckouts;
    var configured := IsConfigured(settings);
    var serverRemaining: nat := if configured then Max(0, settings.serverLimit.value - serverCommitments) else 0;
    var snapshotRemaining: nat :=
      if configured then Max(0, settings.snapshotLimit.value - demand.snapshotCommitments) else 0;
    var certificates := Headroom(demand.issuedCertificates + demand.activeCheckouts, settings.certificateLimit);
    var availableNewBoxes: nat :=
      if configured then Min(Min(serverRemaining, snapshotRemaining / slotsPerBox), certificates.forCreation) else 0;
    var limitBlockReason :=
      if configured && serverRemaining < 1 then Some(ServerLimit)
      else if configured && snapshotRemaining < slotsPerBox then Some(SnapshotLimit)
      else if configured && certificates.forCreation < 1 then Some(CertificateLimit)
      else None;
    var blockReason :=
      if !settings.checkoutEnabled then Some(ManualPause)
      else if !configured then Some(LimitsNotConfigured)
      else if limitBlockReason.Some? then Some(AtLimit(limitBlockReason.value))
      else None;
    CapacityUsage(availableNewBoxes, blockReason, limitBlockReason, serverCommitments, certificates)
  }

  /** The block reasons and the number of boxes that still fit tell one story. */
  lemma AvailableExactlyWhenOneFits(demand: Demand, settings: Settings, slotsPerBox: nat)
    requires slotsPerBox > 0
    ensures var usage := CapacityAvailability(demand, settings, slotsPerBox);
            usage.CheckoutAvailable() <==>
            settings.checkoutEnabled && IsConfigured(settings) && usage.availableNewBoxes >= 1
    ensures var usage := CapacityAvailability(demand, settings, slotsPerBox);
            usage.limitBlockReason.Some? <==> IsConfigured(settings) && usage.availableNewBoxes == 0
  {}

  /** An admitted box fits every allowance at once, whichever plan it is. */
  lemma AdmissionLeavesRoom(demand: Demand, settings: Settings, plan: BoxPlan)
    requires CapacityAvailability(demand, settings, LargestSnapshotSlots()).CheckoutAvailable()
    ensures settings.serverLimit.Some? && demand.liveBoxes + demand.activeCheckouts + 1 <= settings.serverLimit.value
    ensures settings.snapshotLimit.Some?
            && demand.snapshotCommitments + SnapshotSlots(plan) <= settings.snapshotLimit.value
    ensures settings.certificateLimit.Some?
            && demand.issuedCertificates + demand.activeCheckouts + 1 + CERTIFICATE_RECOVERY_RESERVE
               <= settings.certificateLimit.value
  {}

  // ---- Snapshot commitments ----

  datatype PlannedBox = PlannedBox(id: nat, plan: BoxPlan)

  predicate Committed(status: SnapshotStatus) {
    status in {CapturePending, CaptureCreating, CaptureComplete}
  }

  /** Active snapshot rows of one box. */
  function ActiveRows(rows: seq<SnapshotImage>, box: nat): nat {
    if rows == [] then 0 else
      var last := rows[|rows| - 1];
      ActiveRows(rows[..|rows| - 1], box) + if Committed(last.status) && last.box == box then 1 else 0
  }

  function CountedRows(rows: seq<SnapshotImage>): nat {
    if rows == [] then 0 else
      var last := rows[|rows| - 1];
      CountedRows(rows[..|rows| - 1]) + if Committed(last.status) || last.image.Some? then 1 else 0
  }

  /** Entitlement live boxes have not filled yet. */
  function FreeSlots(boxes: seq<PlannedBox>, rows: seq<SnapshotImage>): nat {
    if boxes == [] then 0 else
      var last := boxes[|boxes| - 1];
      FreeSlots(boxes[..|boxes| - 1], rows) + Max(0, SnapshotSlots(last.plan) - ActiveRows(rows, last.id))
  }

  function CheckoutSlots(plans: seq<BoxPlan>): nat {
    if plans == [] then 0 else CheckoutSlots(plans[..|plans| - 1]) + SnapshotSlots(plans[|plans| - 1])
  }

  function Commitments(plans: seq<BoxPlan>, boxes: seq<PlannedBox>, rows: seq<SnapshotImage>): nat {
    CountedRows(rows) + FreeSlots(boxes, rows) + CheckoutSlots(plans)
  }

  function Tally(counts: map<nat, nat>, box: nat): nat {
    if box in counts then counts[box] else 0
  }

  /** One pass over the rows with a running count per box, then one over the
    * boxes and one over the open checkouts. */
  method ReservedSnapshotCommitments(plans: seq<BoxPlan>, boxes: seq<PlannedBox>, rows: seq<SnapshotImage>)
    returns (commitments: nat)
    ensures commitments == Commitments(plans, boxes, rows)
  {
    var counts: map<nat, nat> := map[];
    commitments := 0;
    for i := 0 to |rows|
      invariant commitments == CountedRows(rows[..i])
      invariant forall box: nat :: Tally(counts, box) == ActiveRows(rows[..i], box)
    {
      assert rows[..i + 1][..i] == rows[..i];
      var active := Committed(rows[i].status);
      if active {
        counts := counts[rows[i].box := Tally(counts, rows[i].box) + 1];
      }
      if active || rows[i].image.Some? {
        commitments := commitments + 1;
      }
    }
    assert rows[..|rows|] == rows;
    for j := 0 to |boxes|
      invariant commitments == CountedRows(rows) + FreeSlots(boxes[..j], rows)
    {
      assert boxes[..j + 1][..j] == boxes[..j];
      commitments := commitments + Max(0, SnapshotSlots(boxes[j].plan) - Tally(counts, boxes[j].id));
    }
    assert boxes[..|boxes|] == boxes;
    for k := 0 to |plans|
      invariant commitments == CountedRows(rows) + FreeSlots(boxes, rows) + CheckoutSlots(plans[..k])
    {
      assert plans[..k + 1][..k] == plans[..k];
      commitments := commitments + SnapshotSlots(plans[k]);
    }
    assert plans[..|plans|] == plans;
  }

  // ---- The closed form ----

  predicate DistinctBoxes(boxes: seq<PlannedBox>) {
    forall i, j :: 0 <= i < j < |boxes| ==> boxes[i].id != boxes[j].id
  }

  function BoxIds(boxes: seq<PlannedBox>): set<nat> {
    set i | 0 <= i < |boxes| :: boxes[i].id
  }

  /** Every live box counts its entitlement or its rows, whichever is more. */
  function HeldByBoxes(boxes: seq<PlannedBox>, rows: seq<SnapshotImage>): nat {
    if boxes == [] then 0 else
      var last := boxes[|boxes| - 1];
      HeldByBoxes(boxes[..|boxes| - 1], rows) + Max(SnapshotSlots(last.plan), ActiveRows(rows, last.id))
  }

  /** Rows no longer active whose provider image still exists. */
  function IdleImages(rows: seq<SnapshotImage>): nat {
    if rows == [] then 0 else
      var last := rows[|rows| - 1];
      IdleImages(rows[..|rows| - 1]) + if !Committed(last.status) && last.image.Some? then 1 else 0
  }

  /** Active rows of boxes outside `ids`. */
  function OrphanRows(rows: seq<SnapshotImage>, ids: set<nat>): nat {
    if rows == [] then 0 else
      var last := rows[|rows| - 1];
      OrphanRows(rows[..|rows| - 1], ids) + if Committed(last.status) && last.box !in ids then 1 else 0
  }

  lemma {:induction false} CountedSplits(rows: seq<SnapshotImage>)
    ensures CountedRows(rows) == OrphanRows(rows, {}) + IdleImages(rows)
  {
    if rows != [] { CountedSplits(rows[..|rows| - 1]); }
  }

  lemma {:induction false} OrphansWithout(rows: seq<SnapshotImage>, ids: set<nat>, box: nat)
    requires box !in ids
    ensures OrphanRows(rows, ids) == OrphanRows(rows, ids + {box}) + ActiveRows(rows, box)
  {
    if rows != [] { OrphansWithout(rows[..|rows| - 1], ids, box); }
  }

  lemma {:induction false} OrphansPlusHeld(boxes: seq<PlannedBox>, rows: seq<SnapshotImage>)
    requires DistinctBoxes(boxes)
    ensures OrphanRows(rows, {}) + FreeSlots(boxes, rows) == OrphanRows(rows, BoxIds(boxes)) + HeldByBoxes(boxes, rows)
  {
    if boxes == [] {
      assert BoxIds(boxes) == {};
    } else {
      var rest, last := boxes[..|boxes| - 1], boxes[|boxes| - 1];
      OrphansPlusHeld(rest, rows);
      assert boxes == rest + [last];
      assert BoxIds(boxes) == BoxIds(rest) + {last.id};
      OrphansWithout(rows, BoxIds(rest), last.id);
    }
  }

  /** The running count is the closed form. */
  lemma CommitmentsClosedForm(plans: seq<BoxPlan>, boxes: seq<PlannedBox>, rows: seq<SnapshotImage>)
    requires DistinctBoxes(boxes)
    ensures Commitments(plans, boxes, rows) ==
            HeldByBoxes(boxes, rows) + IdleImages(rows) + OrphanRows(rows, BoxIds(boxes)) + CheckoutSlots(plans)
  {
    CountedSplits(rows);
    OrphansPlusHeld(boxes, rows);
  }

  // ---- Reading the tables ----

  /** Live boxes, one index read per status. */
  function LiveBoxIds(boxes: seq<Box>, statuses: seq<BoxStatus>): seq<nat> {
    if statuses == [] then [] else Select(boxes, InStatus(statuses[0])) + LiveBoxIds(boxes, statuses[1..])
  }

  function PlannedBoxes(boxes: seq<Box>, ids: seq<nat>): (planned: seq<PlannedBox>)
    requires forall i :: 0 <= i < |ids| ==> ids[i] < |boxes|
    ensures |planned| == |ids|
    ensures forall i :: 0 <= i < |ids| ==> planned[i] == PlannedBox(ids[i], boxes[ids[i]].plan)
  {
    seq(|ids|, i requires 0 <= i < |ids| => PlannedBox(ids[i], boxes[ids[i]].plan))
  }

  function PlansOf(intents: seq<Intent>, ids: seq<nat>): (plans: seq<BoxPlan>)
    requires forall i :: 0 <= i < |ids| ==> ids[i] < |intents|
    ensures |plans| == |ids|
    ensures forall i :: 0 <= i < |ids| ==> plans[i] == intents[ids[i]].plan
  {
    seq(|ids|, i requires 0 <= i < |ids| => intents[ids[i]].plan)
  }

  function IssuedSince(operations: seq<Operation>, kinds: seq<OperationType>, since: int): nat {
    if kinds == [] then 0 else
      |Select(operations, OfKindSince(kinds[0], since))| + IssuedSince(operations, kinds[1..], since)
  }

  /** One read per status lists every live box once. */
  lemma {:induction false} LiveBoxesListedOnce(boxes: seq<Box>, statuses: seq<BoxStatus>)
    requires forall i, j :: 0 <= i < j < |statuses| ==> statuses[i] != statuses[j]
    ensures forall b: nat :: b in LiveBoxIds(boxes, statuses) <==> b < |boxes| && boxes[b].status in statuses
    ensures forall i, j :: 0 <= i < j < |LiveBoxIds(boxes, statuses)| ==>
              LiveBoxIds(boxes, statuses)[i] != LiveBoxIds(boxes, statuses)[j]
  {
    if statuses != [] {
      var first, rest := Select(boxes, InStatus(statuses[0])), LiveBoxIds(boxes, statuses[1..]);
      LiveBoxesListedOnce(boxes, statuses[1..]);
      assert statuses[0] !in statuses[1..];
      forall b: nat ensures b in LiveBoxIds(boxes, statuses) <==> b < |boxes| && boxes[b].status in statuses {
        assert b in first + rest <==> b in first || b in rest;
        assert b < |boxes| ==> (boxes[b].status in statuses <==> boxes[b].status == statuses[0] || boxes[b].status in statuses[1..]);
      }
      forall i, j | 0 <= i < j < |first + rest| ensures (first + rest)[i] != (first + rest)[j] {
        if i < |first| <= j {
          assert first[i] in first && rest[j - |first|] in rest;
        }
      }
    }
  }

  lemma LiveBoxListing(boxes: seq<Box>)
    ensures forall b: nat :: b in LiveBoxIds(boxes, LIVE_STATUSES) <==> b < |boxes| && IsLive(boxes[b])
    ensures |LiveBoxIds(boxes, LIVE_STATUSES)| == |Select(boxes, LiveBox())|
    ensures forall i, j :: 0 <= i < j < |LiveBoxIds(boxes, LIVE_STATUSES)| ==>
              LiveBoxIds(boxes, LIVE_STATUSES)[i] != LiveBoxIds(boxes, LIVE_STATUSES)[j]
  {
    LiveStatusesListed(Deleted);
    LiveBoxesListedOnce(boxes, LIVE_STATUSES);
    forall b: nat | b < |boxes| ensures boxes[b].status in LIVE_STATUSES <==> IsLive(boxes[b]) {
      LiveStatusesListed(boxes[b].status);
    }
    var byStatus, all := LiveBoxIds(boxes, LIVE_STATUSES), Select(boxes, LiveBox());
    assert IdSet(byStatus) == IdSet(all);
    DistinctCount(byStatus);
    AscendingCount(all);
  }

  function CurrentDemand(db: Db, now: int): Demand {
    LiveBoxListing(db.boxes);
    var live := LiveBoxIds(db.boxes, LIVE_STATUSES);
    var open := Select(db.intents, OpenReservation());
    assert forall i :: 0 <= i < |live| ==> live[i] in live;
    assert forall i :: 0 <= i < |open| ==> open[i] in open;
    Demand(
      |open|, |live|,
      Commitments(PlansOf(db.intents, open), PlannedBoxes(db.boxes, live), db.snapshots),
      IssuedSince(db.operations, CERTIFICATE_ISSUING_OPERATIONS, now - CERTIFICATE_WEEK_MS))
  }

  function ReadCapacityUsage(db: Db, now: int): CapacityUsage {
    CapacityAvailability(CurrentDemand(db, now), db.settings, LargestSnapshotSlots())
  }

  /** Servers promised: live boxes and the reservations that may become one. */
  function PromisedServers(db: Db): nat {
    |Select(db.boxes, LiveBox())| + |Select(db.intents, OpenReservation())|
  }

  lemma AdmissionBound(db: Db, now: int)
    requires ReadCapacityUsage(db, now).CheckoutAvailable()
    ensures db.settings.serverLimit.Some? && PromisedServers(db) + 1 <= db.settings.serverLimit.value
  {
    LiveBoxListing(db.boxes);
    AdmissionLeavesRoom(CurrentDemand(db, now), db.settings, Pro);
  }
}
