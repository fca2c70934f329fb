/** Every operation, conversion and grant keeps the checkout invariant. */
module CheckoutSteps {
  import opened Tables
  import opened Vocabulary
  import opened Store
  import opened SlugAvailability
  import opened Capacity
  import opened Operations
  import opened Checkout
  import opened CheckoutInvariant

  // ---- Operations ----

  lemma SameIntentsKeepCounts(db: Db, db': Db)
    requires db'.intents == db.intents && db'.settings == db.settings && |db.boxes| <= |db'.boxes|
    requires IntentsSound(db) && OneIntentPerBox(db) && UsersUnderMaximum(db)
    ensures IntentsSound(db') && OneIntentPerBox(db') && UsersUnderMaximum(db')
  {}

  lemma AppendedOperation(db: Db, db': Db, row: Operation)
    requires OperationsSound(db)
    requires db'.operations == db.operations + [row] && |db'.boxes| == |db.boxes|
    requires forall b :: 0 <= b < |db.boxes| && IsLive(db.boxes[b]) ==> IsLive(db'.boxes[b])
    requires row.box < |db'.boxes| && IsLive(db'.boxes[row.box])
    requires row.key.CreateOf? ==> row.key.box < |db'.boxes|
    requires forall p :: 0 <= p < |db.operations| && IsActiveOperation(db.operations[p]) ==> db.operations[p].box != row.box
    ensures OperationsSound(db')
  {
    forall p | 0 <= p < |db'.operations| ensures OperationSound(db', p) {
      if p < |db.operations| { assert OperationSound(db, p); }
    }
  }

  lemma StartedKeepsOperations(
    db: Db, box: nat, kind: OperationType, key: OperationKey, reservedSlug: Option<string>, now: int)
    requires OperationsSound(db)
    requires key.CreateOf? ==> key.box < |db.boxes|
    requires StartOperation(db, box, kind, key, reservedSlug, now).1.Started?
    ensures IsLive(db.boxes[box])
    ensures OperationsSound(StartOperation(db, box, kind, key, reservedSlug, now).0)
  {
    hide IsSlugAvailable;
    var db' := StartOperation(db, box, kind, key, reservedSlug, now).0;
    NoneSelected(db.operations, ActiveForBox(box));
    forall p | 0 <= p < |db.operations| && IsActiveOperation(db.operations[p]) ensures db.operations[p].box != box {
      assert !ActiveForBox(box)(db.operations[p]);
    }
    AppendedOperation(db, db', Operation(box, kind, OpPending, key, reservedSlug, now));
  }

  lemma StartedKeepsOwners(
    db: Db, box: nat, kind: OperationType, key: OperationKey, reservedSlug: Option<string>, now: int)
    requires Exclusive(db)
    requires StartOperation(db, box, kind, key, reservedSlug, now).1.Started? && IsLive(db.boxes[box])
    ensures Exclusive(StartOperation(db, box, kind, key, reservedSlug, now).0)
  {
    var db' := StartOperation(db, box, kind, key, reservedSlug, now).0;
    var o := |db.operations|;
    forall h: Holder, s: string | Holds(db', h, s) && !(h == OperationHolder(o) && reservedSlug == Some(s))
      ensures Holds(db, h, s) && OwnerOf(db', h) == OwnerOf(db, h)
    {}
    if reservedSlug.Some? {
      var ignore := Ignore(Some(box), None, None);
      AvailableExactly(db, reservedSlug.value, ignore);
      forall h: Holder | h != OperationHolder(o) && Holds(db', h, reservedSlug.value)
        ensures OwnerOf(db', h) == OwnerOf(db', OperationHolder(o))
      {
        assert Ignored(h, ignore);
      }
      ExclusiveExtended(db, db', OperationHolder(o), reservedSlug.value);
    } else {
      ExclusiveInherited(db, db');
    }
  }

  lemma StartOperationKeepsSound(
    db: Db, box: nat, kind: OperationType, key: OperationKey, reservedSlug: Option<string>, now: int)
    requires Sound(db)
    requires key.CreateOf? ==> key.box < |db.boxes|
    ensures Sound(StartOperation(db, box, kind, key, reservedSlug, now).0)
  {
    var (db', result) := StartOperation(db, box, kind, key, reservedSlug, now);
    if result.Started? {
      StartedKeepsOperations(db, box, kind, key, reservedSlug, now);
      StartedKeepsOwners(db, box, kind, key, reservedSlug, now);
      SameIntentsKeepCounts(db, db');
    }
  }

  lemma RefusedStartsKeepTables(
    db: Db, box: nat, kind: OperationType, key: OperationKey, reservedSlug: Option<string>, now: int)
    ensures var (db', result) := StartOperation(db, box, kind, key, reservedSlug, now);
            !result.Started? ==> db' == db
  {
    hide IsSlugAvailable;
  }

  /** A started operation is the one open on its box, and whoever holds the slug it
    * reserves is that box. */
  lemma StartedIsAlone(db: Db, box: nat, kind: OperationType, key: OperationKey, reservedSlug: Option<string>, now: int)
    requires Sound(db)
    requires key.CreateOf? ==> key.box < |db.boxes|
    requires StartOperation(db, box, kind, key, reservedSlug, now).1.Started?
    ensures var (db', result) := StartOperation(db, box, kind, key, reservedSlug, now);
            && Select(db'.operations, ActiveForBox(box)) == [result.id]
            && (reservedSlug.Some? ==> HeldOnlyBy(db', reservedSlug.value, OwnerBox(box)))
  {
    hide IsSlugAvailable;
    var (db', result) := StartOperation(db, box, kind, key, reservedSlug, now);
    StartOperationKeepsSound(db, box, kind, key, reservedSlug, now);
    NoneSelected(db.operations, ActiveForBox(box));
    AscendingUnique(Select(db'.operations, ActiveForBox(box)), [result.id]);
    if reservedSlug.Some? {
      assert Holds(db', OperationHolder(result.id), reservedSlug.value);
    }
  }

  /** An open operation's box is live, and no other operation is open on it. */
  lemma OpenOperation(db: Db, operation: nat)
    requires Sound(db) && IsOpen(db, operation)
    ensures IsLive(db.boxes[db.operations[operation].box])
    ensures forall p :: 0 <= p < |db.operations| && p != operation && IsActiveOperation(db.operations[p]) ==>
              db.operations[p].box != db.operations[operation].box
  {
    assert OperationSound(db, operation);
  }

  lemma SettleKeepsSound(db: Db, operation: nat, succeeded: bool, boxStatus: BoxStatus)
    requires Sound(db)
    ensures Sound(SettleOperation(db, operation, succeeded, boxStatus))
  {
    var db' := SettleOperation(db, operation, succeeded, boxStatus);
    if db' != db {
      OpenOperation(db, operation);
      forall p | 0 <= p < |db'.operations| ensures OperationSound(db', p) { assert OperationSound(db, p); }
      SameIntentsKeepCounts(db, db');
      forall h: Holder, s: string | Holds(db', h, s)
        ensures Holds(db, h, s) && OwnerOf(db', h) == OwnerOf(db, h)
      {}
      ExclusiveInherited(db, db');
    }
  }

  lemma MarkRunningKeepsSound(db: Db, operation: nat)
    requires Sound(db)
    ensures Sound(MarkOperationRunning(db, operation))
  {
    var db' := MarkOperationRunning(db, operation);
    if db' != db {
      forall p | 0 <= p < |db'.operations| ensures OperationSound(db', p) { assert OperationSound(db, p); }
      SameIntentsKeepCounts(db, db');
      forall h: Holder, s: string | Holds(db', h, s)
        ensures Holds(db, h, s) && OwnerOf(db', h) == OwnerOf(db, h)
      {}
      ExclusiveInherited(db, db');
    }
  }

  lemma SwapSlugKeepsSound(db: Db, operation: nat, newSlug: string)
    requires Sound(db)
    ensures Sound(SwapSlug(db, operation, newSlug))
  {
    hide IsSlugAvailable;
    var db' := SwapSlug(db, operation, newSlug);
    if db' != db {
      OpenOperation(db, operation);
      var box := db.operations[operation].box;
      forall p | 0 <= p < |db'.operations| ensures OperationSound(db', p) { assert OperationSound(db, p); }
      SameIntentsKeepCounts(db, db');
      var ignore := Ignore(Some(box), None, Some(operation));
      AvailableExactly(db, newSlug, ignore);
      forall h: Holder, s: string | Holds(db', h, s) && !(h == BoxHolder(box) && s == newSlug)
        ensures Holds(db, h, s) && OwnerOf(db', h) == OwnerOf(db, h)
      {}
      forall h: Holder | h != BoxHolder(box) && Holds(db', h, newSlug)
        ensures OwnerOf(db', h) == OwnerOf(db', BoxHolder(box))
      {
        assert Ignored(h, ignore);
      }
      ExclusiveExtended(db, db', BoxHolder(box), newSlug);
    }
  }

  // ---- Boxes appearing ----

  lemma InsertedBoxKeepsSound(db: Db, box: Box)
    requires Sound(db) && IsLive(box)
    requires forall h: Holder :: !Holds(db, h, box.slug)
    ensures Sound(InsertBox(db, box).0)
  {
    var db' := InsertBox(db, box).0;
    forall p | 0 <= p < |db'.operations| ensures OperationSound(db', p) { assert OperationSound(db, p); }
    SameIntentsKeepCounts(db, db');
    forall h: Holder, s: string | Holds(db', h, s) && !(h == BoxHolder(|db.boxes|) && s == box.slug)
      ensures Holds(db, h, s) && OwnerOf(db', h) == OwnerOf(db, h)
    {
      if h.OperationHolder? { assert OperationSound(db, h.id); }
    }
    ExclusiveExtended(db, db', BoxHolder(|db.boxes|), box.slug);
  }

  /** No operation can already be open on a box that was just inserted, so the
    * create operation always starts. */
  lemma CreateStarts(db: Db, box: nat, key: OperationKey, now: int)
    requires box < |db.boxes| && db.boxes[box].status == Creating
    requires forall o :: 0 <= o < |db.operations| ==> db.operations[o].box != box
    requires forall o :: 0 <= o < |db.operations| ==> db.operations[o].key != key
    ensures StartOperation(db, box, CreateBox, key, None, now).1 == Started(|db.operations|)
  {
    NothingSelected(db.operations, ActiveWithKey(key));
    NothingSelected(db.operations, ActiveForBox(box));
  }

  /** The tables between inserting a converted reservation's box and starting its
    * create operation. */
  function Boxed(db: Db, i: nat, customer: nat, subscription: nat, plan: BoxPlan): Db
    requires i < |db.intents|
  {
    var row := db.intents[i];
    var (db1, box) := InsertBox(db, Box(row.user, row.slug, plan, Creating, Some(subscription)));
    db1.(intents := db1.intents[i := row.(
      status := Converted, customer := Some(customer), subscription := Some(subscription),
      box := Some(box), checkoutUrl := None)])
  }

  lemma BoxedKeepsRows(db: Db, i: nat, customer: nat, subscription: nat, plan: BoxPlan)
    requires Sound(db) && i < |db.intents|
    requires db.intents[i].box.None? && !IsUnfulfillable(db.intents[i].releaseReason)
    ensures var db' := Boxed(db, i, customer, subscription, plan);
            IntentsSound(db') && OneIntentPerBox(db') && UsersUnderMaximum(db') && OperationsSound(db')
  {
    var db' := Boxed(db, i, customer, subscription, plan);
    forall j | 0 <= j < |db'.intents| ensures RowSound(db'.intents[j], |db'.boxes|) {
      assert RowSound(db.intents[j], |db.boxes|);
    }
    forall j, k | 0 <= j < k < |db'.intents| && db'.intents[j].box.Some? ensures db'.intents[j].box != db'.intents[k].box {
      assert RowSound(db.intents[j], |db.boxes|) && RowSound(db.intents[k], |db.boxes|);
    }
    forall user: nat ensures |Select(db'.intents, OfUser(user))| <= MAX_ACTIVE_INTENTS_PER_USER {
      SelectShrinks(db.intents, db'.intents, OfUser(user));
    }
    forall p | 0 <= p < |db'.operations| ensures OperationSound(db', p) { assert OperationSound(db, p); }
  }

  lemma BoxedKeepsSound(db: Db, i: nat, customer: nat, subscription: nat, plan: BoxPlan)
    requires Sound(db) && i < |db.intents|
    requires db.intents[i].box.None? && !IsUnfulfillable(db.intents[i].releaseReason)
    requires IsSlugAvailable(db, db.intents[i].slug, Ignore(None, Some(i), None))
    ensures Sound(Boxed(db, i, customer, subscription, plan))
  {
    hide IsSlugAvailable, ReadCapacityUsage;
    var db' := Boxed(db, i, customer, subscription, plan);
    var slug, ignore := db.intents[i].slug, Ignore(None, Some(i), None);
    BoxedKeepsRows(db, i, customer, subscription, plan);
    AvailableExactly(db, slug, ignore);
    forall h: Holder, s: string | Holds(db', h, s) && !(h == BoxHolder(|db.boxes|) && s == slug)
      ensures Holds(db, h, s) && OwnerOf(db', h) == OwnerOf(db, h)
    {
      if h.OperationHolder? { assert OperationSound(db, h.id); }
    }
    forall h: Holder | h != BoxHolder(|db.boxes|) ensures !Holds(db', h, slug) {
      if Holds(db, h, slug) { assert Ignored(h, ignore); }
    }
    ExclusiveExtended(db, db', BoxHolder(|db.boxes|), slug);
  }

  /** What a conversion does, case by case; the assertion that the create operation
    * is new can never fail. */
  lemma ConversionUnfolds(db: Db, i: nat, customer: nat, order: nat, subscription: nat, plan: BoxPlan, now: int)
    requires Sound(db) && i < |db.intents|
    ensures var (db', result) := ConvertCheckoutIntentToBox(db, i, customer, order, subscription, plan, now);
            && !result.Aborted?
            && (result.Fulfilled? && db.intents[i].box.None? ==>
                  && !IsUnfulfillable(db.intents[i].releaseReason)
                  && (db.intents[i].status == Active || ReadCapacityUsage(db, now).CheckoutAvailable())
                  && IsSlugAvailable(db, db.intents[i].slug, Ignore(None, Some(i), None))
                  && result == Fulfilled(|db.boxes|)
                  && db' == StartOperation(Boxed(db, i, customer, subscription, plan), |db.boxes|, CreateBox,
                                           CreateOf(|db.boxes|), None, now).0
                  && |db'.operations| == |db.operations| + 1)
  {
    if db.intents[i].box.None? {
      var db2 := Boxed(db, i, customer, subscription, plan);
      forall o | 0 <= o < |db2.operations|
        ensures db2.operations[o].box != |db.boxes| && db2.operations[o].key != CreateOf(|db.boxes|)
      { assert OperationSound(db, o); }
      CreateStarts(db2, |db.boxes|, CreateOf(|db.boxes|), now);
    }
  }

  lemma ConvertKeepsSound(db: Db, i: nat, customer: nat, order: nat, subscription: nat, plan: BoxPlan, now: int)
    requires Sound(db)
    ensures Sound(ConvertCheckoutIntentToBox(db, i, customer, order, subscription, plan, now).0)
  {
    var (db', result) := ConvertCheckoutIntentToBox(db, i, customer, order, subscription, plan, now);
    if db' != db {
      ConversionUnfolds(db, i, customer, order, subscription, plan, now);
      if result.Fulfilled? {
        BoxedKeepsSound(db, i, customer, subscription, plan);
        StartOperationKeepsSound(Boxed(db, i, customer, subscription, plan), |db.boxes|, CreateBox,
                                 CreateOf(|db.boxes|), None, now);
      } else {
        forall j | 0 <= j < |db.intents| ensures QuietRow(db.intents[j], db'.intents[j]) {
          assert RowSound(db.intents[j], |db.boxes|);
        }
        QuietKeepsSound(db, db');
      }
    }
  }

  lemma GrantCompKeepsSound(db: Db, user: nat, slug: string, plan: BoxPlan, key: string, now: int)
    requires Sound(db)
    ensures Sound(GrantComp(db, user, slug, plan, key, now))
  {
    if GrantComp(db, user, slug, plan, key, now) != db {
      var (db1, box) := InsertBox(db, Box(user, slug, plan, Creating, None));
      AvailableToAll(db, slug);
      InsertedBoxKeepsSound(db, Box(user, slug, plan, Creating, None));
      StartOperationKeepsSound(db1, box, CreateBox, Keyed(key), None, now);
    }
  }
}
