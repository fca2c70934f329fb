/** What is decided stays decided, and what the two terminal releases - a full
  * refund and an account deletion - do and do not stop. */
module CheckoutFinality {
  import opened Tables
  import opened Vocabulary
  import opened Store
  import opened SlugAvailability
  import opened Capacity
  import opened Operations
  import opened Checkout
  import opened CheckoutInvariant
  import opened CheckoutSteps
  import opened Webhooks
  import opened CheckoutRuns
  import opened OrderVerdicts

  /** A reservation never becomes active again, a box once bound stays bound, and an
    * unfulfillable sale keeps its reason and never gets a box. */
  predicate Final(row: Intent, row': Intent) {
    && (row.status != Active ==> row'.status != Active)
    && (row.box.Some? ==> row'.box == row.box && row'.status == Converted)
    && (row.box.None? && IsUnfulfillable(row.releaseReason) ==> row'.box.None? && row'.releaseReason == row.releaseReason)
  }

  lemma StartKeepsIntents(db: Db, box: nat, kind: OperationType, key: OperationKey, reservedSlug: Option<string>, now: int)
    ensures StartOperation(db, box, kind, key, reservedSlug, now).0.intents == db.intents
  {}

  /** A conversion writes at most the reservation it is about. */
  lemma ConversionWritesOneRow(db: Db, i: nat, customer: nat, order: nat, subscription: nat, plan: BoxPlan, now: int)
    requires i < |db.intents|
    ensures var (db', result) := ConvertCheckoutIntentToBox(db, i, customer, order, subscription, plan, now);
            && |db'.intents| == |db.intents|
            && db'.intents == db.intents[i := db'.intents[i]]
            && (result.Unfulfilled? || db.intents[i].box.Some? ==> db'.intents[i].box == db.intents[i].box)
  {
    hide ReadCapacityUsage, IsSlugAvailable, StartOperation, IsUnfulfillable;
    forall db1: Db, box: nat
      ensures StartOperation(db1, box, CreateBox, CreateOf(box), None, now).0.intents == db1.intents
    {
      StartKeepsIntents(db1, box, CreateBox, CreateOf(box), None, now);
    }
  }

  lemma ConversionIsFinal(db: Db, i: nat, customer: nat, order: nat, subscription: nat, plan: BoxPlan, now: int)
    requires Sound(db) && i < |db.intents|
    ensures var db' := ConvertCheckoutIntentToBox(db, i, customer, order, subscription, plan, now).0;
            |db'.intents| == |db.intents| && forall j :: 0 <= j < |db.intents| ==> Final(db.intents[j], db'.intents[j])
  {
    hide ReadCapacityUsage, IsSlugAvailable, StartOperation;
    forall db1: Db, box: nat
      ensures StartOperation(db1, box, CreateBox, CreateOf(box), None, now).0.intents == db1.intents
    {
      StartKeepsIntents(db1, box, CreateBox, CreateOf(box), None, now);
    }
    ConversionWritesOneRow(db, i, customer, order, subscription, plan, now);
    forall j | 0 <= j < |db.intents| ensures RowSound(db.intents[j], |db.boxes|) {}
    var db' := ConvertCheckoutIntentToBox(db, i, customer, order, subscription, plan, now).0;
    assert Final(db.intents[i], db'.intents[i]) by {
      assert RowSound(db.intents[i], |db.boxes|);
    }
  }

  lemma ApplyIsFinal(w: World, a: Action)
    requires Sound(w.db)
    ensures |w.db.intents| <= |Apply(w, a).db.intents|
    ensures forall i :: 0 <= i < |w.db.intents| ==> Final(w.db.intents[i], Apply(w, a).db.intents[i])
  {
    hide ReadCapacityUsage, IsSlugAvailable;
    var db' := Apply(w, a).db;
    forall i | 0 <= i < |w.db.intents| ensures RowSound(w.db.intents[i], |w.db.boxes|) {}
    if a.ConvertOrder? {
      if db' != w.db {
        var f, order := a.flight, a.flight.order;
        ConversionIsFinal(w.db, f.intent, order.customer, order.id, order.subscription.value, order.soldPlan.value, a.now);
      }
    } else if !IsPaymentStep(a) {
      OtherStepsAreGentle(w, a);
      forall i | 0 <= i < |w.db.intents| ensures Final(w.db.intents[i], db'.intents[i]) {
        assert Gentle(w.db.intents[i], db'.intents[i]) && RowSound(w.db.intents[i], |w.db.boxes|);
        ApplyKeepsSound(w, a);
        assert RowSound(db'.intents[i], |db'.boxes|);
      }
    }
  }

  /** Whatever follows, in any run from any reachable state. */
  lemma {:induction false} DecisionsAreFinal(w: World, more: seq<Action>, i: nat)
    requires Sound(w.db) && i < |w.db.intents|
    ensures i < |Exec(w, more).db.intents| && Final(w.db.intents[i], Exec(w, more).db.intents[i])
    ensures Sound(Exec(w, more).db)
  {
    if more != [] {
      var before := more[..|more| - 1];
      DecisionsAreFinal(w, before, i);
      ApplyKeepsSound(Exec(w, before), more[|more| - 1]);
      ApplyIsFinal(Exec(w, before), more[|more| - 1]);
    }
  }

  /** Whatever follows, and whoever pays for what: the row answers every conversion
    * with this reason, and the tables stay as they are. */
  ghost predicate RefusesForGood(db: Db, i: nat, reason: ReleaseReason) {
    forall w: World, more: seq<Action>, customer: nat, order: nat, subscription: nat, plan: BoxPlan, now: int ::
      w.db == db ==>
      ConvertCheckoutIntentToBox(Exec(w, more).db, i, customer, order, subscription, plan, now) ==
      (Exec(w, more).db, UnfulfilledBecause(reason, i, order, subscription))
  }

  lemma RefusedForGood(db: Db, i: nat, reason: ReleaseReason)
    requires Sound(db) && i < |db.intents| && db.intents[i].box.None?
    requires db.intents[i].releaseReason == Some(reason) && !reason.OtherReason?
    ensures RefusesForGood(db, i, reason)
  {
    hide ReadCapacityUsage, IsSlugAvailable, StartOperation;
    forall w: World, more: seq<Action>, customer: nat, order: nat, subscription: nat, plan: BoxPlan, now: int | w.db == db
      ensures ConvertCheckoutIntentToBox(Exec(w, more).db, i, customer, order, subscription, plan, now) ==
              (Exec(w, more).db, UnfulfilledBecause(reason, i, order, subscription))
    {
      DecisionsAreFinal(w, more, i);
    }
  }

  // ---- Terminal releases ----

  /** What a payment arriving now would find: a reservation that lapsed for some
    * other reason, and room for it. */
  predicate LapsedWithRoom(db: Db, i: nat, now: int)
    requires i < |db.intents|
  {
    && db.intents[i].status != Active
    && !IsUnfulfillable(db.intents[i].releaseReason)
    && ReadCapacityUsage(db, now).CheckoutAvailable()
    && IsSlugAvailable(db, db.intents[i].slug, Ignore(None, Some(i), None))
  }

  /** The release behind a full refund stops a later conversion if and only if the
    * reservation had not already lapsed for another reason: one that had, and still
    * fits, becomes a box although its money is back. */
  lemma FullRefundStopsConversionExactly(
    db: Db, i: nat, reason: ReleaseReason, customer: nat, order: nat, subscription: nat, plan: BoxPlan, now: int)
    requires Sound(db) && i < |db.intents| && db.intents[i].box.None? && !reason.OtherReason?
    ensures ConvertCheckoutIntentToBox(ReleaseCheckoutIntent(db, i, reason), i, customer, order, subscription, plan, now).1.Fulfilled?
            <==> LapsedWithRoom(db, i, now)
  {
    hide ReadCapacityUsage, IsSlugAvailable;
    assert RowSound(db.intents[i], |db.boxes|);
    if db.intents[i].status != Active {
      ConversionUnfolds(db, i, customer, order, subscription, plan, now);
    }
  }

  /** Paying for reservation `i` makes a live box of `user`. */
  predicate PaysForABox(db: Db, i: nat, user: nat, customer: nat, order: nat, subscription: nat, plan: BoxPlan, now: int) {
    var (db', result) := ConvertCheckoutIntentToBox(db, i, customer, order, subscription, plan, now);
    result.Fulfilled? && |db'.boxes| == |db.boxes| + 1 && db'.boxes[|db.boxes|].user == user && IsLive(db'.boxes[|db.boxes|])
  }

  lemma LapsedPaysExactly(db: Db, i: nat, customer: nat, order: nat, subscription: nat, plan: BoxPlan, now: int)
    requires Sound(db) && i < |db.intents| && db.intents[i].status != Active && db.intents[i].box.None?
    ensures PaysForABox(db, i, db.intents[i].user, customer, order, subscription, plan, now) <==> LapsedWithRoom(db, i, now)
  {
    hide ReadCapacityUsage, IsSlugAvailable;
    assert RowSound(db.intents[i], |db.boxes|);
    ConversionUnfolds(db, i, customer, order, subscription, plan, now);
  }

  /** The same of account deletion: a payment for a reservation that had lapsed
    * before still becomes a box of the deleted account. */
  lemma AccountDeletionStopsConversionExactly(
    db: Db, i: nat, customer: nat, order: nat, subscription: nat, plan: BoxPlan, now: int)
    requires Sound(db) && i < |db.intents| && db.intents[i].box.None?
    ensures PaysForABox(MarkAccountDeletionPending(db, db.intents[i].user), i, db.intents[i].user,
                        customer, order, subscription, plan, now)
            <==> db.intents[i].status != Active
                 && LapsedWithRoom(MarkAccountDeletionPending(db, db.intents[i].user), i, now)
  {
    hide ReadCapacityUsage, IsSlugAvailable, Select;
    var user := db.intents[i].user;
    var marked := MarkAccountDeletionPending(db, user);
    assert RowSound(db.intents[i], |db.boxes|);
    assert OfUser(user)(db.intents[i]) <==> db.intents[i].status == Active;
    ReleasedRowsKeepSound(db, Select(db.intents, OfUser(user)), AccountDeleted, Released);
    LapsedPaysExactly(marked, i, customer, order, subscription, plan, now);
  }

  lemma EmptyFleetHasRoom(db: Db, now: int)
    requires db.boxes == [] && db.operations == [] && db.snapshots == [] && Select(db.intents, OpenReservation()) == []
    requires db.settings.checkoutEnabled && IsConfigured(db.settings)
    requires db.settings.serverLimit.value >= 1 && db.settings.snapshotLimit.value >= 8
    requires db.settings.certificateLimit.value >= 11
    ensures ReadCapacityUsage(db, now).CheckoutAvailable()
  {
    LiveBoxListing(db.boxes);
    var since := now - CERTIFICATE_WEEK_MS;
    assert IssuedSince(db.operations, CERTIFICATE_ISSUING_OPERATIONS[4..], since) == 0;
    assert IssuedSince(db.operations, CERTIFICATE_ISSUING_OPERATIONS[3..], since) == 0;
    assert IssuedSince(db.operations, CERTIFICATE_ISSUING_OPERATIONS[2..], since) == 0;
    assert IssuedSince(db.operations, CERTIFICATE_ISSUING_OPERATIONS[1..], since) == 0;
    assert IssuedSince(db.operations, CERTIFICATE_ISSUING_OPERATIONS, since) == 0;
    assert CurrentDemand(db, now) == Demand(0, 0, 0, 0);
  }

  predicate NothingHeld(db: Db) {
    && db.boxes == [] && db.operations == [] && db.snapshots == []
    && forall i :: 0 <= i < |db.intents| ==> db.intents[i].status != Active
  }

  lemma NothingHeldIsFree(db: Db, slug: string, ignore: Ignore)
    requires NothingHeld(db) && IsValidSlug(slug)
    ensures IsSlugAvailable(db, slug, ignore)
  {
    forall h: Holder ensures !Holds(db, h, slug) {}
    assert Exclusive(db) by {
      forall h: Holder, s: string ensures !Holds(db, h, s) {}
    }
    AvailableExactly(db, slug, ignore);
  }

  lemma NothingHeldHasRoom(db: Db, now: int)
    requires NothingHeld(db) && RoomForOne(db.settings)
    ensures ReadCapacityUsage(db, now).CheckoutAvailable()
  {
    NothingSelected(db.intents, OpenReservation());
    EmptyFleetHasRoom(db, now);
  }

  function Alone(row: Intent, settings: Settings): Db {
    Db([row], [], [], [], settings, 0)
  }

  /** A reservation alone on an empty fleet that lapsed unpaid. */
  function LapsedRow(user: nat, slug: string): Intent {
    ReleaseDoc(FreshIntent(user, slug, Air, 0), OtherReason("checkout_expired_sweep"), Expired)
  }

  predicate RoomForOne(settings: Settings) {
    && ValidSettings(settings) && IsConfigured(settings) && settings.checkoutEnabled
    && settings.serverLimit.value >= 1 && settings.snapshotLimit.value >= 8 && settings.certificateLimit.value >= 11
  }

  /** Nothing in the way of it, a reservation is made. */
  lemma NothingInTheWay(db: Db, user: nat, slug: string, plan: BoxPlan, now: int)
    requires UsersUnderMaximum(db) && IsSlugAvailable(db, slug, IGNORE_NOTHING) && ReadCapacityUsage(db, now).CheckoutAvailable()
    requires HeldBy(db, user, slug).None?
    ensures ReserveCheckoutIntent(db, user, slug, plan, now).1.Reserved?
  {
    ReserveUnfolds(db, user, slug, plan, now);
  }

  lemma NothingYields(db: Db, user: nat)
    requires db.intents == [] && ValidSettings(db.settings)
    ensures UsersUnderMaximum(db) && YieldCount(db, user) == 0
    ensures Superseded(db, Select(db.intents, OfUser(user))[..0]) == db
  {}

  lemma ReservedAlone(db: Db, user: nat, slug: string)
    requires db.intents == [] && NothingHeld(db) && RoomForOne(db.settings) && IsValidSlug(slug)
    ensures ReserveCheckoutIntent(db, user, slug, Air, 0).0 == db.(intents := [FreshIntent(user, slug, Air, 0)])
  {
    NothingYields(db, user);
    assert ReserveCheckoutIntent(db, user, slug, Air, 0).1.Reserved? by {
      NothingHeldHasRoom(db, 0);
      NothingHeldIsFree(db, slug, IGNORE_NOTHING);
      NothingInTheWay(db, user, slug, Air, 0);
    }
    ReserveUnfolds(db, user, slug, Air, 0);
  }

  lemma SweptAlone(settings: Settings, user: nat, slug: string)
    ensures ReleaseExpired(Alone(FreshIntent(user, slug, Air, 0), settings), [0], CHECKOUT_ATTACH_GRACE_MS) ==
            Alone(LapsedRow(user, slug), settings)
  {
    var row := FreshIntent(user, slug, Air, 0);
    var db := Alone(row, settings);
    assert [row][..0] == [];
    assert Select([], ExpiredBy(CHECKOUT_ATTACH_GRACE_MS)) == [];
    assert Select([row], ExpiredBy(CHECKOUT_ATTACH_GRACE_MS)) == [0];
    assert IsExpiryBatch(db, [0], CHECKOUT_ATTACH_GRACE_MS);
    assert ReleaseRows([row], [0], OtherReason("checkout_expired_sweep"), Expired) == [LapsedRow(user, slug)];
  }

  lemma RunOfTwo(w: World, a1: Action, a2: Action)
    ensures Exec(w, [a1, a2]) == Apply(Apply(w, a1), a2)
  {
    assert [a1][..0] == [] && Exec(w, [a1]) == Apply(w, a1);
    assert [a1, a2][..1] == [a1];
  }

  lemma ReserveThenSweep(w: World, user: nat, slug: string, batch: seq<nat>, now: int)
    ensures Apply(Apply(w, Reserve(user, slug, Air, 0)), SweepExpired(batch, now)).db ==
            ReleaseExpired(ReserveCheckoutIntent(w.db, user, slug, Air, 0).0, batch, now)
  {
    assert Apply(w, Reserve(user, slug, Air, 0)).db == ReserveCheckoutIntent(w.db, user, slug, Air, 0).0;
  }

  lemma LapsedIsReachable(settings: Settings, user: nat, slug: string)
    requires RoomForOne(settings) && IsValidSlug(slug)
    ensures Exec(Deployed(settings), [Reserve(user, slug, Air, 0), SweepExpired([0], CHECKOUT_ATTACH_GRACE_MS)]).db ==
            Alone(LapsedRow(user, slug), settings)
  {
    RunOfTwo(Deployed(settings), Reserve(user, slug, Air, 0), SweepExpired([0], CHECKOUT_ATTACH_GRACE_MS));
    ReserveThenSweep(Deployed(settings), user, slug, [0], CHECKOUT_ATTACH_GRACE_MS);
    ReservedAlone(Deployed(settings).db, user, slug);
    SweptAlone(settings, user, slug);
  }

  lemma LapsedHasRoom(db: Db, now: int)
    requires |db.intents| == 1 && NothingHeld(db) && RoomForOne(db.settings) && IsValidSlug(db.intents[0].slug)
    requires !IsUnfulfillable(db.intents[0].releaseReason)
    ensures LapsedWithRoom(db, 0, now)
  {
    NothingHeldHasRoom(db, now);
    NothingHeldIsFree(db, db.intents[0].slug, Ignore(None, Some(0), None));
  }

  /** Deleting an account that holds no active reservation releases nothing. */
  lemma NothingToRelease(db: Db, user: nat)
    requires NothingHeld(db)
    ensures MarkAccountDeletionPending(db, user) == db
  {}

  lemma PaidAfterDeletion(db: Db, customer: nat, order: nat, subscription: nat, plan: BoxPlan, now: int)
    requires Sound(db) && |db.intents| == 1 && NothingHeld(db) && RoomForOne(db.settings)
    requires IsValidSlug(db.intents[0].slug) && !IsUnfulfillable(db.intents[0].releaseReason) && db.intents[0].box.None?
    ensures PaysForABox(MarkAccountDeletionPending(db, db.intents[0].user), 0, db.intents[0].user,
                        customer, order, subscription, plan, now)
  {
    LapsedHasRoom(db, now);
    NothingToRelease(db, db.intents[0].user);
    AccountDeletionStopsConversionExactly(db, 0, customer, order, subscription, plan, now);
  }

  lemma RunExtended(w: World, run: seq<Action>, a: Action)
    ensures Exec(w, run + [a]) == Apply(Exec(w, run), a)
  {}

  lemma AppliedDeletion(w: World, user: nat)
    ensures Apply(w, DeleteAccount(user)).db == MarkAccountDeletionPending(w.db, user)
  {}

  lemma DeletedIsReachable(settings: Settings, user: nat, slug: string)
    requires RoomForOne(settings) && IsValidSlug(slug)
    ensures var run := [Reserve(user, slug, Air, 0), SweepExpired([0], CHECKOUT_ATTACH_GRACE_MS)];
            && Sound(Exec(Deployed(settings), run).db)
            && Exec(Deployed(settings), run + [DeleteAccount(user)]).db ==
               MarkAccountDeletionPending(Alone(LapsedRow(user, slug), settings), user)
  {
    var run := [Reserve(user, slug, Air, 0), SweepExpired([0], CHECKOUT_ATTACH_GRACE_MS)];
    RunsStaySound(settings, run);
    LapsedIsReachable(settings, user, slug);
    RunExtended(Deployed(settings), run, DeleteAccount(user));
    AppliedDeletion(Exec(Deployed(settings), run), user);
  }

  /** A reservation that lapsed before its account was deleted: the payment, when it
    * arrives, makes a live box of the deleted account. */
  lemma DeletedAccountGetsABox(
    settings: Settings, user: nat, slug: string, customer: nat, order: nat, subscription: nat, now: int)
    requires RoomForOne(settings) && IsValidSlug(slug)
    ensures var run := [Reserve(user, slug, Air, 0), SweepExpired([0], CHECKOUT_ATTACH_GRACE_MS)];
            PaysForABox(Exec(Deployed(settings), run + [DeleteAccount(user)]).db, 0, user, customer, order, subscription, Air, now)
  {
    DeletedIsReachable(settings, user, slug);
    LapsedIsReachable(settings, user, slug);
    PaidAfterDeletion(Alone(LapsedRow(user, slug), settings), customer, order, subscription, Air, now);
  }
}
