/** Box operations as far as slugs and servers depend on them: starting one,
  * settling it, committing a rename, and inserting a box. */
module Operations {
  import opened Tables
  import opened Vocabulary
  import opened Store
  import opened SlugAvailability

  function ActiveWithKey(key: OperationKey): Operation -> bool {
    (row: Operation) => row.key == key && IsActiveOperation(row)
  }

  function ActiveForBox(box: nat): Operation -> bool {
    (row: Operation) => row.box == box && IsActiveOperation(row)
  }

  datatype StartResult = Started(id: nat) | AlreadyActive | BoxNotFound | Busy | NotAllowed | SlugTaken

  /** Create the operation row and move the box, or refuse without a trace. */
  function StartOperation(
    db: Db, box: nat, kind: OperationType, key: OperationKey, reservedSlug: Option<string>, now: int): (Db, StartResult)
  {
    if box >= |db.boxes| then (db, BoxNotFound)
    else if Select(db.operations, ActiveWithKey(key)) != [] then (db, AlreadyActive)
    else if Select(db.operations, ActiveForBox(box)) != [] then (db, Busy)
    else if !IsOperationAllowed(db.boxes[box].status, kind) then (db, NotAllowed)
    else if reservedSlug.Some? && !IsSlugAvailable(db, reservedSlug.value, Ignore(Some(box), None, None)) then
      (db, SlugTaken)
    else
      var status := StatusDuring(kind);
      var boxes := if status.Some? then db.boxes[box := db.boxes[box].(status := status.value)] else db.boxes;
      var row := Operation(box, kind, OpPending, key, reservedSlug, now);
      (db.(boxes := boxes, operations := db.operations + [row]), Started(|db.operations|))
  }

  predicate IsOpen(db: Db, operation: nat) {
    && operation < |db.operations|
    && IsActiveOperation(db.operations[operation])
    && db.operations[operation].box < |db.boxes|
  }

  /** An operation's workflow writes its outcome: the operation closes and the box
    * takes the status the outcome leaves it in. Only a delete ends in `Deleted`. */
  function SettleOperation(db: Db, operation: nat, succeeded: bool, boxStatus: BoxStatus): Db {
    if !IsOpen(db, operation) then db
    else if boxStatus == Deleted && !(succeeded && db.operations[operation].kind == DeleteBox) then db
    else
      var row := db.operations[operation];
      db.(boxes := db.boxes[row.box := db.boxes[row.box].(status := boxStatus)],
          operations := db.operations[operation := row.(status := if succeeded then OpSucceeded else OpFailed)])
  }

  function MarkOperationRunning(db: Db, operation: nat): Db {
    if !IsOpen(db, operation) then db else
      db.(operations := db.operations[operation := db.operations[operation].(status := OpRunning)])
  }

  /** Commit a rename. The operation that reserved the slug is not in its own way. */
  function SwapSlug(db: Db, operation: nat, newSlug: string): Db {
    if !IsOpen(db, operation) then db else
      var row := db.operations[operation];
      if !IsSlugAvailable(db, newSlug, Ignore(Some(row.box), None, Some(operation))) then db else
        db.(boxes := db.boxes[row.box := db.boxes[row.box].(slug := newSlug, status := Running)],
            operations := db.operations[operation := row.(status := OpSucceeded)])
  }

  /** The one place a box row is inserted, and the count with it. */
  function InsertBox(db: Db, box: Box): (Db, nat) {
    (db.(boxes := db.boxes + [box], created := db.created + 1), |db.boxes|)
  }
}
