/** The capacity check on the tables: what it counts, exactly when it admits a box and
  * what blocks it otherwise. */
module Admission {
  import opened Tables
  import opened Vocabulary
  import opened Store
  import opened SlugAvailability
  import opened Operations
  import opened Capacity
  import opened CapacityDeltas
  import OperationAnswers

  const WEEK_MS: int := 7 * 24 * 60 * 60 * 1000
  const RECOVERY_RESERVE: nat := 10

  // ---- Certificates ----

  /** Operations that make a box ask for a certificate. */
  predicate NeedsCertificate(kind: OperationType) {
    kind.CreateBox? || kind.ResetBox? || kind.ChangeSlug? || kind.RestoreBox?
  }

  predicate IssuedWithin(row: Operation, since: int) {
    NeedsCertificate(row.kind) && since <= row.createdAt
  }

  function IssuedIds(operations: seq<Operation>, since: int): set<nat> {
    set o: nat | o < |operations| && IssuedWithin(operations[o], since)
  }

  /** The certificates asked for in the week up to `now`. */
  function IssuedThisWeek(db: Db, now: int): set<nat> {
    IssuedIds(db.operations, now - WEEK_MS)
  }

  function OfKindIds(operations: seq<Operation>, kind: OperationType, since: int): set<nat> {
    IdSet(Select(operations, OfKindSince(kind, since)))
  }

  lemma KindsApart(operations: seq<Operation>, since: int)
    ensures IssuedIds(operations, since) ==
            OfKindIds(operations, CreateBox, since) + OfKindIds(operations, ResetBox, since)
            + OfKindIds(operations, ChangeSlug, since) + OfKindIds(operations, RestoreBox, since)
    ensures OfKindIds(operations, CreateBox, since) !! OfKindIds(operations, ResetBox, since)
    ensures OfKindIds(operations, CreateBox, since) + OfKindIds(operations, ResetBox, since)
            !! OfKindIds(operations, ChangeSlug, since)
    ensures OfKindIds(operations, CreateBox, since) + OfKindIds(operations, ResetBox, since)
            + OfKindIds(operations, ChangeSlug, since) !! OfKindIds(operations, RestoreBox, since)
  {}

  lemma OfKindCount(operations: seq<Operation>, kind: OperationType, since: int)
    ensures |OfKindIds(operations, kind, since)| == |Select(operations, OfKindSince(kind, since))|
  {
    AscendingCount(Select(operations, OfKindSince(kind, since)));
  }

  lemma IssuedSum(operations: seq<Operation>, since: int)
    ensures IssuedSince(operations, CERTIFICATE_ISSUING_OPERATIONS, since) ==
            |Select(operations, OfKindSince(CreateBox, since))| + |Select(operations, OfKindSince(ResetBox, since))|
            + |Select(operations, OfKindSince(ChangeSlug, since))| + |Select(operations, OfKindSince(RestoreBox, since))|
  {
    IssuedStep(operations, RestoreBox, [], since);
    IssuedStep(operations, ChangeSlug, [RestoreBox] + [], since);
    IssuedStep(operations, ResetBox, [ChangeSlug] + ([RestoreBox] + []), since);
    IssuedStep(operations, CreateBox, [ResetBox] + ([ChangeSlug] + ([RestoreBox] + [])), since);
    assert CERTIFICATE_ISSUING_OPERATIONS == [CreateBox] + ([ResetBox] + ([ChangeSlug] + ([RestoreBox] + [])));
  }

  lemma IssuedStep(operations: seq<Operation>, kind: OperationType, rest: seq<OperationType>, since: int)
    ensures IssuedSince(operations, [kind] + rest, since) ==
            |Select(operations, OfKindSince(kind, since))| + IssuedSince(operations, rest, since)
  {
    assert ([kind] + rest)[1..] == rest;
  }

  /** The count is of the operations of the week that need a certificate, each once. */
  lemma CertificatesCounted(db: Db, now: int)
    ensures CurrentDemand(db, now).issuedCertificates == |IssuedThisWeek(db, now)|
  {
    var ops, since := db.operations, now - WEEK_MS;
    hide IssuedIds, OfKindIds;
    IssuedSum(ops, since);
    KindsApart(ops, since);
    OfKindCount(ops, CreateBox, since);
    OfKindCount(ops, ResetBox, since);
    OfKindCount(ops, ChangeSlug, since);
    OfKindCount(ops, RestoreBox, since);
  }

  /** Starting an operation raises the count by one if it needs a certificate, and until
    * a week has passed. */
  lemma StartCounts(
    db: Db, box: nat, kind: OperationType, key: OperationKey, reservedSlug: Option<string>, now: int, later: int)
    requires StartOperation(db, box, kind, key, reservedSlug, now).1.Started?
    ensures |IssuedThisWeek(StartOperation(db, box, kind, key, reservedSlug, now).0, later)| ==
            |IssuedThisWeek(db, later)| + if NeedsCertificate(kind) && later <= now + WEEK_MS then 1 else 0
  {
    hide StartOperation, IssuedIds;
    OperationAnswers.StartWrites(db, box, kind, key, reservedSlug, now);
    OneMoreIssued(db.operations, Operation(box, kind, OpPending, key, reservedSlug, now), later - WEEK_MS);
  }

  lemma OneMoreIssued(operations: seq<Operation>, row: Operation, since: int)
    ensures |IssuedIds(operations + [row], since)| == |IssuedIds(operations, since)| + if IssuedWithin(row, since) then 1 else 0
  {
    var o := |operations|;
    var before, after := IssuedIds(operations, since), IssuedIds(operations + [row], since);
    assert after == if IssuedWithin(row, since) then before + {o} else before;
    assert o !in before;
  }

  // ---- Admission ----

  /** Live boxes and the reservations that may become one. */
  function Servers(db: Db): nat {
    |Select(db.boxes, LiveBox())| + |Select(db.intents, OpenReservation())|
  }

  predicate ServerFits(db: Db) {
    db.settings.serverLimit.Some? && Servers(db) + 1 <= db.settings.serverLimit.value
  }

  /** Whichever plan is then bought. */
  predicate SnapshotsFit(db: Db) {
    && db.settings.snapshotLimit.Some?
    && SnapshotCommitments(db) + SnapshotSlots(Air) <= db.settings.snapshotLimit.value
    && SnapshotCommitments(db) + SnapshotSlots(Pro) <= db.settings.snapshotLimit.value
  }

  /** A certificate each for the open reservations and this box, the reserve untouched. */
  predicate CertificateFits(db: Db, now: int) {
    && db.settings.certificateLimit.Some?
    && |IssuedThisWeek(db, now)| + |Select(db.intents, OpenReservation())| + 1 + RECOVERY_RESERVE
       <= db.settings.certificateLimit.value
  }

  lemma DemandOnTables(db: Db, now: int)
    ensures var demand := CurrentDemand(db, now);
            && demand.liveBoxes == |Select(db.boxes, LiveBox())|
            && demand.activeCheckouts == |Select(db.intents, OpenReservation())|
            && demand.snapshotCommitments == SnapshotCommitments(db)
            && demand.issuedCertificates == |IssuedThisWeek(db, now)|
  {
    hide SnapshotCommitments, IssuedThisWeek;
    LiveBoxListing(db.boxes);
    CommitmentsByTable(db, now);
    CertificatesCounted(db, now);
  }

  /** A box is admitted exactly when checkout is on, all three limits are set, and the
    * box fits each of them. */
  lemma AdmitsExactly(db: Db, now: int)
    ensures ReadCapacityUsage(db, now).CheckoutAvailable() <==>
            db.settings.checkoutEnabled && ServerFits(db) && SnapshotsFit(db) && CertificateFits(db, now)
  {
    hide CurrentDemand, SnapshotCommitments, IssuedThisWeek;
    DemandOnTables(db, now);
  }

  /** What blocks it otherwise, the first that does: a pause, a limit not set, servers,
    * snapshots, certificates. */
  lemma BlockedExactly(db: Db, now: int)
    ensures var blocked := ReadCapacityUsage(db, now).blockReason;
            var enabled, configured := db.settings.checkoutEnabled, IsConfigured(db.settings);
            && (blocked == Some(ManualPause) <==> !enabled)
            && (blocked == Some(LimitsNotConfigured) <==> enabled && !configured)
            && (blocked == Some(AtLimit(ServerLimit)) <==> enabled && configured && !ServerFits(db))
            && (blocked == Some(AtLimit(SnapshotLimit)) <==> enabled && configured && ServerFits(db) && !SnapshotsFit(db))
            && (blocked == Some(AtLimit(CertificateLimit)) <==>
                  enabled && configured && ServerFits(db) && SnapshotsFit(db) && !CertificateFits(db, now))
  {
    hide CurrentDemand, SnapshotCommitments, IssuedThisWeek;
    DemandOnTables(db, now);
  }

  /** How many more boxes the check reports: the most that fit all three limits at once,
    * as the largest plan. Boxes being repaired may go into the reserve. */
  lemma AvailableCountExactly(db: Db, now: int, n: nat)
    requires IsConfigured(db.settings) && n > 0
    ensures var usage := ReadCapacityUsage(db, now);
            var asked := |IssuedThisWeek(db, now)| + |Select(db.intents, OpenReservation())|;
            && (n <= usage.availableNewBoxes <==>
                  && Servers(db) + n <= db.settings.serverLimit.value
                  && SnapshotCommitments(db) + n * SnapshotSlots(Pro) <= db.settings.snapshotLimit.value
                  && asked + n + RECOVERY_RESERVE <= db.settings.certificateLimit.value)
            && (n <= usage.certificates.forRecovery <==> asked + n <= db.settings.certificateLimit.value)
            && usage.serverCommitments == Servers(db)
  {
    hide CurrentDemand, SnapshotCommitments, IssuedThisWeek;
    DemandOnTables(db, now);
  }
}
