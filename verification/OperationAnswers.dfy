/** When a box operation begins, what it and its end write, and which operations a box
  * takes in each of its statuses. */
module OperationAnswers {
  import opened Tables
  import opened Vocabulary
  import opened Store
  import opened SlugAvailability
  import opened Operations

  // ---- Statuses ----

  /** What may begin on a box in each status: on a running box everything but what it is
    * past or not in need of, on a stopped one a start, on a failed one what may put it
    * right, and on one in the middle of something only its deletion. */
  function MayBegin(status: BoxStatus): set<OperationType> {
    match status
    case Creating => {CreateBox, DeleteBox}
    case CreateFailed => {CreateBox, DeleteBox}
    case Running =>
      {DeleteBox, ResetBox, StopBox, ChangePassword, ChangeSlug, ChangeConfig, SuspendBox, RestoreBox, CaptureSnapshot,
       RepairBox, UpdateBox}
    case Stopped => {DeleteBox, StartBox, SuspendBox}
    case Suspended => {DeleteBox, UnsuspendBox}
    case ResetFailed => {DeleteBox, ResetBox, ChangePassword, RepairBox}
    case RepairFailed => {DeleteBox, RepairBox}
    case UpdateFailed => {DeleteBox, ResetBox, RepairBox, UpdateBox}
    case RestoreFailed => {DeleteBox, ResetBox, RestoreBox, RepairBox}
    case Deleting => {}
    case Deleted => {}
    case _ => {DeleteBox}
  }

  lemma AllowedExactly(status: BoxStatus, kind: OperationType)
    ensures IsOperationAllowed(status, kind) <==> kind in MayBegin(status)
  {}

  /** The operations that leave a box's status as it is are a change of password, slug or
    * configuration and a snapshot. While any other runs, nothing but a deletion may begin
    * - and the creation it is itself. */
  lemma NothingElseMeanwhile(kind: OperationType, other: OperationType)
    ensures StatusDuring(kind).None? <==> kind in {ChangePassword, ChangeSlug, ChangeConfig, CaptureSnapshot}
    ensures StatusDuring(kind).Some? && IsOperationAllowed(StatusDuring(kind).value, other) ==>
              other.DeleteBox? || (kind.CreateBox? && other.CreateBox?)
  {}

  // ---- Starting ----

  predicate KeyInUse(db: Db, key: OperationKey) {
    exists o :: 0 <= o < |db.operations| && IsActiveOperation(db.operations[o]) && db.operations[o].key == key
  }

  predicate IsBusy(db: Db, box: nat) {
    exists o :: 0 <= o < |db.operations| && IsActiveOperation(db.operations[o]) && db.operations[o].box == box
  }

  /** Somebody other than the box itself holds the slug, or it is no slug at all. */
  ghost predicate IsSlugRefused(db: Db, box: nat, slug: string) {
    !IsValidSlug(slug) || exists h: Holder :: Holds(db, h, slug) && h != BoxHolder(box)
  }

  lemma FoundByKey(db: Db, key: OperationKey)
    ensures Select(db.operations, ActiveWithKey(key)) != [] <==> KeyInUse(db, key)
  {
    var ids := Select(db.operations, ActiveWithKey(key));
    if ids == [] {
      NoneSelected(db.operations, ActiveWithKey(key));
      forall o | 0 <= o < |db.operations| ensures !(IsActiveOperation(db.operations[o]) && db.operations[o].key == key) {
        assert !ActiveWithKey(key)(db.operations[o]);
      }
    } else {
      assert ids[0] in ids;
      assert ActiveWithKey(key)(db.operations[ids[0]]);
    }
  }

  lemma FoundByBox(db: Db, box: nat)
    ensures Select(db.operations, ActiveForBox(box)) != [] <==> IsBusy(db, box)
  {
    var ids := Select(db.operations, ActiveForBox(box));
    if ids == [] {
      NoneSelected(db.operations, ActiveForBox(box));
      forall o | 0 <= o < |db.operations| ensures !(IsActiveOperation(db.operations[o]) && db.operations[o].box == box) {
        assert !ActiveForBox(box)(db.operations[o]);
      }
    } else {
      assert ids[0] in ids;
      assert ActiveForBox(box)(db.operations[ids[0]]);
    }
  }

  lemma SlugRefusedExactly(db: Db, box: nat, slug: string)
    requires Exclusive(db)
    ensures IsSlugAvailable(db, slug, Ignore(Some(box), None, None)) <==> !IsSlugRefused(db, box, slug)
  {
    var ignore := Ignore(Some(box), None, None);
    AvailableExactly(db, slug, ignore);
    forall h: Holder ensures Ignored(h, ignore) <==> h == BoxHolder(box) {}
  }

  /** Whether an operation starts, and the first thing in its way otherwise: no such box,
    * the same request under way, another operation under way, a status it may not begin
    * from, a slug that is not to be had. */
  lemma StartsExactly(
    db: Db, box: nat, kind: OperationType, key: OperationKey, reservedSlug: Option<string>, now: int)
    requires Exclusive(db)
    ensures var (db', result) := StartOperation(db, box, kind, key, reservedSlug, now);
            var there := box < |db.boxes|;
            var keyFree := there && !KeyInUse(db, key);
            var idle := keyFree && !IsBusy(db, box);
            var allowed := idle && kind in MayBegin(db.boxes[box].status);
            var refused := reservedSlug.Some? && IsSlugRefused(db, box, reservedSlug.value);
            && (result == BoxNotFound <==> !there)
            && (result == AlreadyActive <==> there && !keyFree)
            && (result == Busy <==> keyFree && !idle)
            && (result == NotAllowed <==> idle && !allowed)
            && (result == SlugTaken <==> allowed && refused)
            && (result.Started? <==> allowed && !refused)
  {
    hide IsSlugAvailable, IsSlugRefused, KeyInUse, IsBusy, Select, MayBegin, IsOperationAllowed;
    FoundByKey(db, key);
    FoundByBox(db, box);
    if box < |db.boxes| {
      AllowedExactly(db.boxes[box].status, kind);
    }
    if reservedSlug.Some? {
      SlugRefusedExactly(db, box, reservedSlug.value);
    }
  }

  /** What a start writes: one pending operation, at the next id, and on the box the status
    * it has meanwhile. */
  lemma StartWrites(db: Db, box: nat, kind: OperationType, key: OperationKey, reservedSlug: Option<string>, now: int)
    requires StartOperation(db, box, kind, key, reservedSlug, now).1.Started?
    ensures var (db', result) := StartOperation(db, box, kind, key, reservedSlug, now);
            && result.id == |db.operations|
            && db' == db.(boxes := db'.boxes, operations := db.operations + [Operation(box, kind, OpPending, key, reservedSlug, now)])
            && |db'.boxes| == |db.boxes| && box < |db.boxes|
            && (forall b :: 0 <= b < |db.boxes| && b != box ==> db'.boxes[b] == db.boxes[b])
            && db'.boxes[box] == db.boxes[box].(status := db'.boxes[box].status)
            && db'.boxes[box].status == (if StatusDuring(kind).Some? then StatusDuring(kind).value else db.boxes[box].status)
  {
    hide IsSlugAvailable, Select;
  }

  // ---- Ending ----

  /** An open operation is marked running, and ends as it went, once, and leaves its box in the status its outcome
    * says - `Deleted` only for a deletion that succeeded. One that is not open does not
    * end again. */
  lemma SettlesExactly(db: Db, operation: nat, succeeded: bool, status: BoxStatus)
    ensures MarkOperationRunning(db, operation) ==
            if IsOpen(db, operation)
            then db.(operations := db.operations[operation := db.operations[operation].(status := OpRunning)]) else db
    ensures var db' := SettleOperation(db, operation, succeeded, status);
            var ends := IsOpen(db, operation) && (status == Deleted ==> succeeded && db.operations[operation].kind == DeleteBox);
            && (!ends ==> db' == db)
            && (ends ==>
                  var row := db.operations[operation];
                  && db'.operations == db.operations[operation := row.(status := if succeeded then OpSucceeded else OpFailed)]
                  && db'.boxes == db.boxes[row.box := db.boxes[row.box].(status := status)]
                  && db' == db.(boxes := db'.boxes, operations := db'.operations)
                  && !IsOpen(db', operation))
  {}

  /** A rename is committed exactly when its operation is open and the slug is valid and
    * held by nobody but its box and itself; the box runs on under it, the operation has
    * succeeded. */
  lemma RenamesExactly(db: Db, operation: nat, slug: string)
    requires Exclusive(db)
    ensures var db' := SwapSlug(db, operation, slug);
            var free := IsOpen(db, operation) && IsValidSlug(slug) &&
              forall h: Holder :: Holds(db, h, slug) ==> h == BoxHolder(db.operations[operation].box) || h == OperationHolder(operation);
            && (!free ==> db' == db)
            && (free ==>
                  var row := db.operations[operation];
                  && db'.operations == db.operations[operation := row.(status := OpSucceeded)]
                  && db'.boxes == db.boxes[row.box := db.boxes[row.box].(slug := slug, status := Running)]
                  && db' == db.(boxes := db'.boxes, operations := db'.operations))
  {
    hide IsSlugAvailable;
    if IsOpen(db, operation) {
      var box := db.operations[operation].box;
      var ignore := Ignore(Some(box), None, Some(operation));
      AvailableExactly(db, slug, ignore);
      forall h: Holder ensures Ignored(h, ignore) <==> h == BoxHolder(box) || h == OperationHolder(operation) {}
    }
  }
}
