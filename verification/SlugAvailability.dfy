/** Slug lookups: bounded index reads that decide whether a slug is free. */
module SlugAvailability {
  import opened Tables
  import opened Vocabulary
  import opened Store

  /** What the caller is allowed to already be. */
  datatype Ignore = Ignore(box: Option<nat>, intent: Option<nat>, operation: Option<nat>)

  const IGNORE_NOTHING := Ignore(None, None, None)

  function FirstOther(ids: seq<nat>, ignored: Option<nat>): (found: Option<nat>)
    ensures found.Some? ==> found.value in ids && found != ignored
    ensures found.None? ==> forall i :: i in ids ==> Some(i) == ignored
  {
    if ids == [] then None
    else if Some(ids[0]) != ignored then Some(ids[0])
    else FirstOther(ids[1..], ignored)
  }

  function ActiveBoxWithSlug(boxes: seq<Box>, slug: string, statuses: seq<BoxStatus>, ignored: Option<nat>): Option<nat> {
    if statuses == [] then None else
      var found := FirstOther(Take(Select(boxes, BoxWith(slug, statuses[0])), 2), ignored);
      if found.Some? then found else ActiveBoxWithSlug(boxes, slug, statuses[1..], ignored)
  }

  function ActiveIntentWithSlug(intents: seq<Intent>, slug: string, ignored: Option<nat>): Option<nat> {
    var ids := Select(intents, ActiveWithSlug(slug));
    if ids != [] && Some(ids[0]) != ignored then Some(ids[0]) else None
  }

  function ActiveSlugOperation(
    operations: seq<Operation>, slug: string, statuses: seq<OperationStatus>, ignored: Option<nat>): Option<nat>
  {
    if statuses == [] then None else
      var found := FirstOther(Take(Select(operations, Reserving(slug, statuses[0])), 2), ignored);
      if found.Some? then found else ActiveSlugOperation(operations, slug, statuses[1..], ignored)
  }

  predicate IsSlugAvailable(db: Db, slug: string, ignore: Ignore) {
    && IsValidSlug(slug)
    && ActiveBoxWithSlug(db.boxes, slug, LIVE_STATUSES, ignore.box).None?
    && ActiveIntentWithSlug(db.intents, slug, ignore.intent).None?
    && ActiveSlugOperation(db.operations, slug, ACTIVE_OPERATION_STATUSES, ignore.operation).None?
  }

  predicate Ignored(h: Holder, ignore: Ignore) {
    match h
    case BoxHolder(b) => ignore.box == Some(b)
    case IntentHolder(i) => ignore.intent == Some(i)
    case OperationHolder(o) => ignore.operation == Some(o)
  }

  // ---- Truncation ----

  /** Reading only two rows loses nothing when at most one of them is ignored. */
  lemma TakeTwoFindsAnother(ids: seq<nat>, ignored: Option<nat>)
    requires Ascending(ids)
    ensures FirstOther(Take(ids, 2), ignored).None? <==> forall i :: i in ids ==> Some(i) == ignored
  {}

  lemma {:induction false} BoxLookupExact(boxes: seq<Box>, slug: string, statuses: seq<BoxStatus>, ignored: Option<nat>)
    ensures ActiveBoxWithSlug(boxes, slug, statuses, ignored).None? <==>
            forall b: nat :: b < |boxes| && boxes[b].slug == slug && boxes[b].status in statuses ==> Some(b) == ignored
  {
    if statuses != [] {
      var ids := Select(boxes, BoxWith(slug, statuses[0]));
      TakeTwoFindsAnother(ids, ignored);
      BoxLookupExact(boxes, slug, statuses[1..], ignored);
      forall b: nat | b < |boxes| && boxes[b].slug == slug && boxes[b].status in statuses
        ensures b in ids || boxes[b].status in statuses[1..]
      {}
    }
  }

  lemma {:induction false} OperationLookupExact(
    operations: seq<Operation>, slug: string, statuses: seq<OperationStatus>, ignored: Option<nat>)
    ensures ActiveSlugOperation(operations, slug, statuses, ignored).None? <==>
            forall o: nat ::
              (o < |operations| && operations[o].reservedSlug == Some(slug) && operations[o].status in statuses)
              ==> Some(o) == ignored
  {
    if statuses != [] {
      var ids := Select(operations, Reserving(slug, statuses[0]));
      TakeTwoFindsAnother(ids, ignored);
      OperationLookupExact(operations, slug, statuses[1..], ignored);
      forall o: nat | o < |operations| && operations[o].reservedSlug == Some(slug) && operations[o].status in statuses
        ensures o in ids || operations[o].status in statuses[1..]
      {}
    }
  }

  /** The single-row reservation lookup misses a holder exactly when the oldest
    * holder is the ignored one and there is a second. */
  lemma IntentLookupMisses(intents: seq<Intent>, slug: string, ignored: Option<nat>)
    ensures ActiveIntentWithSlug(intents, slug, ignored).None? <==>
            || Select(intents, ActiveWithSlug(slug)) == []
            || Some(Select(intents, ActiveWithSlug(slug))[0]) == ignored
    ensures |Select(intents, ActiveWithSlug(slug))| <= 1 ==>
              (ActiveIntentWithSlug(intents, slug, ignored).None? <==>
               forall i: nat :: i < |intents| && intents[i].status == Active && intents[i].slug == slug ==> Some(i) == ignored)
  {}

  lemma ExclusiveActiveIntents(db: Db, slug: string)
    requires Exclusive(db)
    ensures |Select(db.intents, ActiveWithSlug(slug))| <= 1
  {
    var ids := Select(db.intents, ActiveWithSlug(slug));
    if |ids| > 1 {
      assert ids[0] in ids && ids[1] in ids && ids[0] < ids[1];
      assert Holds(db, IntentHolder(ids[0]), slug) && Holds(db, IntentHolder(ids[1]), slug);
    }
  }

  lemma BoxHoldersFound(db: Db, slug: string, ignored: Option<nat>)
    ensures ActiveBoxWithSlug(db.boxes, slug, LIVE_STATUSES, ignored).None? <==>
            forall b: nat :: Holds(db, BoxHolder(b), slug) ==> Some(b) == ignored
  {
    BoxLookupExact(db.boxes, slug, LIVE_STATUSES, ignored);
    forall b: nat | b < |db.boxes|
      ensures Holds(db, BoxHolder(b), slug) <==> db.boxes[b].slug == slug && db.boxes[b].status in LIVE_STATUSES
    { LiveStatusesListed(db.boxes[b].status); }
  }

  lemma OperationHoldersFound(db: Db, slug: string, ignored: Option<nat>)
    ensures ActiveSlugOperation(db.operations, slug, ACTIVE_OPERATION_STATUSES, ignored).None? <==>
            forall o: nat :: Holds(db, OperationHolder(o), slug) ==> Some(o) == ignored
  {
    OperationLookupExact(db.operations, slug, ACTIVE_OPERATION_STATUSES, ignored);
    assert forall status: OperationStatus :: status in ACTIVE_OPERATION_STATUSES <==> IsActiveStatus(status);
    forall o: nat | o < |db.operations|
      ensures Holds(db, OperationHolder(o), slug) <==>
              db.operations[o].reservedSlug == Some(slug) && db.operations[o].status in ACTIVE_OPERATION_STATUSES
    {}
  }

  lemma IntentHoldersFound(db: Db, slug: string, ignored: Option<nat>)
    requires Exclusive(db)
    ensures ActiveIntentWithSlug(db.intents, slug, ignored).None? <==>
            forall i: nat :: Holds(db, IntentHolder(i), slug) ==> Some(i) == ignored
  {
    ExclusiveActiveIntents(db, slug);
    IntentLookupMisses(db.intents, slug, ignored);
    forall i: nat | i < |db.intents|
      ensures Holds(db, IntentHolder(i), slug) <==> db.intents[i].status == Active && db.intents[i].slug == slug
    {}
  }

  ghost predicate OnlyIgnoredHold(db: Db, slug: string, ignore: Ignore) {
    forall h: Holder :: Holds(db, h, slug) ==> Ignored(h, ignore)
  }

  lemma OnlyIgnoredByKind(db: Db, slug: string, ignore: Ignore)
    ensures OnlyIgnoredHold(db, slug, ignore) <==>
            && (forall b: nat :: Holds(db, BoxHolder(b), slug) ==> Some(b) == ignore.box)
            && (forall i: nat :: Holds(db, IntentHolder(i), slug) ==> Some(i) == ignore.intent)
            && (forall o: nat :: Holds(db, OperationHolder(o), slug) ==> Some(o) == ignore.operation)
  {}

  /** The bounded lookups decide exactly "nobody but the ignored ones holds it". */
  lemma AvailableExactly(db: Db, slug: string, ignore: Ignore)
    requires Exclusive(db)
    ensures IsSlugAvailable(db, slug, ignore) <==> IsValidSlug(slug) && OnlyIgnoredHold(db, slug, ignore)
  {
    BoxHoldersFound(db, slug, ignore.box);
    IntentHoldersFound(db, slug, ignore.intent);
    OperationHoldersFound(db, slug, ignore.operation);
    OnlyIgnoredByKind(db, slug, ignore);
  }

  lemma AvailableToAll(db: Db, slug: string)
    requires Exclusive(db)
    ensures IsSlugAvailable(db, slug, IGNORE_NOTHING) <==>
            IsValidSlug(slug) && forall h: Holder :: !Holds(db, h, slug)
  {
    AvailableExactly(db, slug, IGNORE_NOTHING);
    assert forall h: Holder :: !Ignored(h, IGNORE_NOTHING);
  }
}
