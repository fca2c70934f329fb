/** What the checkout mutations answer and write, told from the tables before and
  * after: the row a reservation becomes, the box a conversion makes, and the refund a
  * refusal hands back. */
module CheckoutAnswers {
  import opened Tables
  import opened Vocabulary
  import opened Store
  import opened SlugAvailability
  import opened Capacity
  import opened Operations
  import opened Checkout
  import opened CheckoutInvariant
  import opened CheckoutSteps
  import opened CapacityDeltas

  // ---- Who is in the way ----

  /** Somebody other than reservation `i` holds the slug. */
  ghost predicate HeldByAnother(db: Db, i: nat, slug: string) {
    exists h: Holder :: Holds(db, h, slug) && h != IntentHolder(i)
  }

  /** A conversion of row `i` may go on: it is active, or there is room for it anew. */
  predicate StillAdmitted(db: Db, i: nat, now: int)
    requires i < |db.intents|
  {
    db.intents[i].status == Active || ReadCapacityUsage(db, now).CheckoutAvailable()
  }

  lemma SlugFreeExactly(db: Db, i: nat)
    requires Sound(db) && i < |db.intents|
    ensures var slug := db.intents[i].slug;
            IsSlugAvailable(db, slug, Ignore(None, Some(i), None)) <==> IsValidSlug(slug) && !HeldByAnother(db, i, slug)
  {
    var slug, ignore := db.intents[i].slug, Ignore(None, Some(i), None);
    AvailableExactly(db, slug, ignore);
    forall h: Holder ensures Ignored(h, ignore) <==> h == IntentHolder(i) {}
  }

  // ---- Conversion ----

  /** The row has been refused: the reason, and the billing evidence with it. */
  predicate RefusedRow(row: Intent, row': Intent, customer: nat, subscription: nat, reason: ReleaseReason) {
    row' == row.(status := Released, checkoutUrl := None, releaseReason := Some(reason),
                 customer := Some(customer), subscription := Some(subscription))
  }

  /** A refusal gives back the order and the subscription it was made for, under the
    * reason the row keeps and under that row; only an order already refunded in full
    * needs nothing given back. */
  lemma RefundNamesTheSale(db: Db, i: nat, customer: nat, order: nat, subscription: nat, plan: BoxPlan, now: int)
    requires i < |db.intents|
    requires ConvertCheckoutIntentToBox(db, i, customer, order, subscription, plan, now).1.Unfulfilled?
    ensures var (db', result) := ConvertCheckoutIntentToBox(db, i, customer, order, subscription, plan, now);
            && |db'.intents| == |db.intents|
            && (result.refund.None? <==> db'.intents[i].releaseReason == Some(OrderFullyRefunded))
            && (result.refund.Some? ==>
                  && result.refund.value.order == order
                  && result.refund.value.subscription == subscription
                  && result.refund.value.intent == i
                  && db'.intents[i].releaseReason == Some(result.refund.value.reason))
  {
    hide ReadCapacityUsage, IsSlugAvailable, StartOperation;
  }

  /** Which way a conversion goes, and what it leaves on the row, case by case. */
  lemma ConversionAnswersExactly(db: Db, i: nat, customer: nat, order: nat, subscription: nat, plan: BoxPlan, now: int)
    requires Sound(db) && i < |db.intents|
    ensures var (db', result) := ConvertCheckoutIntentToBox(db, i, customer, order, subscription, plan, now);
            var row := db.intents[i];
            var decided := row.box.Some? || IsUnfulfillable(row.releaseReason);
            && |db'.intents| == |db.intents|
            && (decided ==> db' == db)
            && (row.box.Some? ==> result == Fulfilled(row.box.value))
            && (row.box.None? && IsUnfulfillable(row.releaseReason) ==> result.Unfulfilled?)
            && (!decided ==>
                  && (RefusedRow(row, db'.intents[i], customer, subscription, CapacityUnavailable) && result.Unfulfilled? <==>
                        !StillAdmitted(db, i, now))
                  && (RefusedRow(row, db'.intents[i], customer, subscription, SlugConflict) && result.Unfulfilled? <==>
                        StillAdmitted(db, i, now) && !(IsValidSlug(row.slug) && !HeldByAnother(db, i, row.slug)))
                  && (result.Fulfilled? <==>
                        StillAdmitted(db, i, now) && IsValidSlug(row.slug) && !HeldByAnother(db, i, row.slug)))
  {
    hide ReadCapacityUsage, IsSlugAvailable, StartOperation, HeldByAnother;
    SlugFreeExactly(db, i);
    ConversionUnfolds(db, i, customer, order, subscription, plan, now);
    RefusalTells(db, i, customer, order, subscription);
    if ConvertCheckoutIntentToBox(db, i, customer, order, subscription, plan, now).1.Fulfilled? && db.intents[i].box.None? {
      BoxIsMade(db, i, customer, order, subscription, plan, now);
    }
  }

  /** A reservation that is not there is not found, and nothing happens. */
  lemma NoReservation(db: Db, i: nat, customer: nat, order: nat, subscription: nat, plan: BoxPlan, now: int)
    requires Sound(db)
    ensures var (db', result) := ConvertCheckoutIntentToBox(db, i, customer, order, subscription, plan, now);
            && (result == NotFound <==> i >= |db.intents|)
            && (result == NotFound ==> db' == db)
            && !result.Aborted?
  {
    hide ReadCapacityUsage, IsSlugAvailable;
    if i < |db.intents| {
      ConversionUnfolds(db, i, customer, order, subscription, plan, now);
    }
  }

  lemma RefusalTells(db: Db, i: nat, customer: nat, order: nat, subscription: nat)
    requires i < |db.intents|
    ensures forall reason: ReleaseReason ::
              var (db', result) := RefuseSale(db, i, customer, order, subscription, reason);
              |db'.intents| == |db.intents| && RefusedRow(db.intents[i], db'.intents[i], customer, subscription, reason)
  {}

  /** The box a conversion makes is the one that was sold, to the account that reserved
    * it; its create operation is open, keyed to it, and counts from now; the row is
    * closed on it. Nothing else moves. */
  lemma BoxIsMade(db: Db, i: nat, customer: nat, order: nat, subscription: nat, plan: BoxPlan, now: int)
    requires Sound(db) && i < |db.intents| && db.intents[i].box.None?
    requires ConvertCheckoutIntentToBox(db, i, customer, order, subscription, plan, now).1.Fulfilled?
    ensures var (db', result) := ConvertCheckoutIntentToBox(db, i, customer, order, subscription, plan, now);
            var row, b := db.intents[i], |db.boxes|;
            && result == Fulfilled(b)
            && db'.boxes == db.boxes + [Box(row.user, row.slug, plan, Creating, Some(subscription))]
            && db'.operations == db.operations + [Operation(b, CreateBox, OpPending, CreateOf(b), None, now)]
            && db'.intents == db.intents[i := row.(status := Converted, checkoutUrl := None, box := Some(b),
                                                   customer := Some(customer), subscription := Some(subscription))]
            && db'.snapshots == db.snapshots && db'.settings == db.settings && db'.created == db.created + 1
  {
    hide ReadCapacityUsage, IsSlugAvailable;
    ConversionUnfolds(db, i, customer, order, subscription, plan, now);
    CreateStartsOn(db, i, customer, subscription, plan, now);
  }

  lemma CreateStartsOn(db: Db, i: nat, customer: nat, subscription: nat, plan: BoxPlan, now: int)
    requires Sound(db) && i < |db.intents|
    ensures var db2, b := Boxed(db, i, customer, subscription, plan), |db.boxes|;
            StartOperation(db2, b, CreateBox, CreateOf(b), None, now).0 ==
            db2.(operations := db.operations + [Operation(b, CreateBox, OpPending, CreateOf(b), None, now)])
  {
    var db2, b := Boxed(db, i, customer, subscription, plan), |db.boxes|;
    forall o | 0 <= o < |db2.operations| ensures db2.operations[o].box != b && db2.operations[o].key != CreateOf(b) {
      assert OperationSound(db, o);
    }
    CreateStarts(db2, b, CreateOf(b), now);
    assert db2.boxes[b := db2.boxes[b]] == db2.boxes;
  }

  // ---- Reservation ----

  /** The slots of the listed reservations. */
  function SlotsOf(intents: seq<Intent>, ids: seq<nat>): nat
    requires forall k :: 0 <= k < |ids| ==> ids[k] < |intents|
  {
    if ids == [] then 0 else SlotsOf(intents, ids[..|ids| - 1]) + SnapshotSlots(intents[ids[|ids| - 1]].plan)
  }

  /** The user's reservations that yield to a new one: the oldest, as many as needed. */
  function Yielding(db: Db, user: nat): (ids: seq<nat>)
    ensures forall k :: 0 <= k < |ids| ==> ids[k] < |db.intents| && OfUser(user)(db.intents[ids[k]])
    ensures Distinct(ids)
  {
    var ids := Select(db.intents, OfUser(user));
    assert forall k :: 0 <= k < |ids| ==> ids[k] in ids;
    Take(ids, YieldCount(db, user))
  }

  /** Which way a reservation goes: a user who holds the slug is handed that
    * reservation back; else the slug must be valid and free, and a box must fit. */
  lemma ReserveAnswersExactly(db: Db, user: nat, slug: string, plan: BoxPlan, now: int)
    requires Sound(db)
    ensures var (db', result) := ReserveCheckoutIntent(db, user, slug, plan, now);
            var mine := exists i :: 0 <= i < |db.intents| && OfUserSlug(user, slug)(db.intents[i]);
            var free := IsValidSlug(slug) && forall h: Holder :: !Holds(db, h, slug);
            && (result.Resumed? <==> mine)
            && (result.SlugUnavailable? <==> !mine && !free)
            && (result.NoCapacity? <==> !mine && free && !ReadCapacityUsage(db, now).CheckoutAvailable())
            && (result.Reserved? <==> !mine && free && ReadCapacityUsage(db, now).CheckoutAvailable())
            && (!result.Reserved? ==> db' == db)
            && (result.Resumed? ==> result.id < |db.intents| && OfUserSlug(user, slug)(db.intents[result.id])
                                    && result.resumption == CheckoutResumption(db.intents[result.id], now))
  {
    hide ReadCapacityUsage, IsSlugAvailable, Select;
    ReserveUnfolds(db, user, slug, plan, now);
    var held := HeldBy(db, user, slug);
    if held.Some? {
      HeldIsFree(db, held.value, user, slug);
    } else {
      AvailableToAll(db, slug);
    }
  }

  lemma HeldIsFree(db: Db, i: nat, user: nat, slug: string)
    requires Sound(db) && i < |db.intents| && OfUserSlug(user, slug)(db.intents[i])
    ensures IsSlugAvailable(db, slug, Ignore(None, Some(i), None))
  {
    assert RowSound(db.intents[i], |db.boxes|) && Holds(db, IntentHolder(i), slug);
    SlugFreeExactly(db, i);
    forall h: Holder | Holds(db, h, slug) ensures h == IntentHolder(i) {
      assert OwnerOf(db, h) == OwnerOf(db, IntentHolder(i));
    }
  }

  /** The new row is what was asked for: this user's, this slug, this plan, nothing paid
    * and no session yet. It is the one its user now holds the slug by; only the oldest
    * of that user's reservations yield to it. */
  lemma ReservedRowIsAsked(db: Db, user: nat, slug: string, plan: BoxPlan, now: int)
    requires Sound(db) && ReserveCheckoutIntent(db, user, slug, plan, now).1.Reserved?
    ensures var (db', result) := ReserveCheckoutIntent(db, user, slug, plan, now);
            && result.id == |db.intents| && |db'.intents| == |db.intents| + 1
            && db' == db.(intents := db'.intents)
            && db'.intents[result.id] ==
               Intent(user, slug, plan, Active, None, None, Some(now + 60 * 60 * 1000), None, None, None, None, None, None)
            && HeldBy(db', user, slug) == Some(result.id)
            && (forall j :: 0 <= j < |db.intents| ==>
                  db'.intents[j] ==
                  if j in Yielding(db, user) then
                    db.intents[j].(status := Released, checkoutUrl := None,
                                   releaseReason := Some(OtherReason("superseded_by_new_reservation")))
                  else db.intents[j])
  {
    hide ReserveCheckoutIntent, ReadCapacityUsage, IsSlugAvailable, Select, IsExpiryBatch, HeldBy, Sound, Yielding;
    ReservedTables(db, user, slug, plan, now);
    ReserveAnswersExactly(db, user, slug, plan, now);
    var db' := ReserveCheckoutIntent(db, user, slug, plan, now).0;
    AppendedIsHeld(db, db', user, slug);
  }

  /** No expiry sweep takes the new row within the hour. */
  lemma NewRowIsNotSwept(db: Db, user: nat, slug: string, plan: BoxPlan, now: int, batch: seq<nat>, t: int)
    requires Sound(db) && ReserveCheckoutIntent(db, user, slug, plan, now).1.Reserved?
    requires IsExpiryBatch(ReserveCheckoutIntent(db, user, slug, plan, now).0, batch, t) && t < now + 60 * 60 * 1000
    ensures ReserveCheckoutIntent(db, user, slug, plan, now).1.id !in batch
  {
    hide ReserveCheckoutIntent, ReadCapacityUsage, IsSlugAvailable, IsExpiryBatch, Sound;
    ReservedRowIsAsked(db, user, slug, plan, now);
    var (db', result) := ReserveCheckoutIntent(db, user, slug, plan, now);
    if result.id in batch {
      SweptIsExpired(db', batch, t, result.id);
    }
  }

  lemma ReservedTables(db: Db, user: nat, slug: string, plan: BoxPlan, now: int)
    requires Sound(db) && ReserveCheckoutIntent(db, user, slug, plan, now).1.Reserved?
    ensures var (db', result) := ReserveCheckoutIntent(db, user, slug, plan, now);
            && result.id == |db.intents|
            && db' == db.(intents := ReleaseRows(db.intents, Yielding(db, user), OtherReason("superseded_by_new_reservation"), Released)
                                     + [FreshIntent(user, slug, plan, now)])
  {
    hide ReserveCheckoutIntent, ReadCapacityUsage, IsSlugAvailable, Select;
    ReserveUnfolds(db, user, slug, plan, now);
    YieldingRows(db, user);
  }

  lemma YieldingRows(db: Db, user: nat)
    requires YieldCount(db, user) <= |Select(db.intents, OfUser(user))|
    ensures Yielding(db, user) == Select(db.intents, OfUser(user))[..YieldCount(db, user)]
  {}

  lemma SweptIsExpired(db: Db, batch: seq<nat>, t: int, i: nat)
    requires IsExpiryBatch(db, batch, t) && i in batch
    ensures i < |db.intents| && ExpiredBy(t)(db.intents[i])
  {}

  lemma AppendedIsHeld(db: Db, db': Db, user: nat, slug: string)
    requires forall j :: 0 <= j < |db.intents| ==> !OfUserSlug(user, slug)(db.intents[j])
    requires |db'.intents| == |db.intents| + 1 && OfUserSlug(user, slug)(db'.intents[|db.intents|])
    requires forall j :: 0 <= j < |db.intents| ==>
               db'.intents[j].user == db.intents[j].user && db'.intents[j].slug == db.intents[j].slug
               && (db'.intents[j].status == Active ==> db.intents[j].status == Active)
    ensures HeldBy(db', user, slug) == Some(|db.intents|)
  {
    forall j | 0 <= j < |db.intents| ensures !OfUserSlug(user, slug)(db'.intents[j]) {
      assert !OfUserSlug(user, slug)(db.intents[j]);
    }
    OnlyHolder(db', user, slug, |db.intents|);
  }

  lemma OnlyHolder(db: Db, user: nat, slug: string, i: nat)
    requires i < |db.intents| && OfUserSlug(user, slug)(db.intents[i])
    requires forall j :: 0 <= j < i ==> !OfUserSlug(user, slug)(db.intents[j])
    requires |db.intents| == i + 1
    ensures HeldBy(db, user, slug) == Some(i)
  {}

  lemma {:induction false} SlotsReleased(intents: seq<Intent>, ids: seq<nat>, reason: ReleaseReason)
    requires Distinct(ids) && forall k :: 0 <= k < |ids| ==> ids[k] < |intents| && OpenReservation()(intents[ids[k]])
    ensures SlotsByTable(ReleaseRows(intents, ids, reason, Released)) == SlotsByTable(intents) - SlotsOf(intents, ids)
  {
    if ids == [] {
      assert ReleaseRows(intents, ids, reason, Released) == intents;
    } else {
      hide SlotsByTable, Distinct;
      var last := |ids| - 1;
      var done := ReleaseRows(intents, ids[..last], reason, Released);
      PrefixDistinct(ids);
      SlotsReleased(intents, ids[..last], reason);
      OneMoreReleased(intents, ids, reason);
      SlotsWithout(done, ids[last], ReleaseDoc(intents[ids[last]], reason, Released));
    }
  }

  lemma PrefixDistinct(ids: seq<nat>)
    requires ids != [] && Distinct(ids)
    ensures Distinct(ids[..|ids| - 1]) && ids[|ids| - 1] !in ids[..|ids| - 1]
  {}

  lemma OneMoreReleased(intents: seq<Intent>, ids: seq<nat>, reason: ReleaseReason)
    requires ids != [] && ids[|ids| - 1] !in ids[..|ids| - 1] && ids[|ids| - 1] < |intents|
    ensures var last := |ids| - 1;
            var done := ReleaseRows(intents, ids[..last], reason, Released);
            && done[ids[last]] == intents[ids[last]]
            && ReleaseRows(intents, ids, reason, Released) == done[ids[last] := ReleaseDoc(intents[ids[last]], reason, Released)]
  {
    hide ReleaseDoc;
    assert ids == ids[..|ids| - 1] + [ids[|ids| - 1]];
  }

  lemma YieldingAreOpen(db: Db, user: nat)
    requires Sound(db)
    ensures var ids := Yielding(db, user);
            forall k :: 0 <= k < |ids| ==> ids[k] < |db.intents| && OpenReservation()(db.intents[ids[k]])
  {
    var ids := Yielding(db, user);
    forall k | 0 <= k < |ids| ensures OpenReservation()(db.intents[ids[k]]) {
      assert RowSound(db.intents[ids[k]], |db.boxes|);
    }
  }

  /** A reservation commits the slots of the plan it asks for, and frees those of the
    * reservations that yield. */
  lemma ReservationCommits(db: Db, user: nat, slug: string, plan: BoxPlan, now: int)
    requires Sound(db) && ReserveCheckoutIntent(db, user, slug, plan, now).1.Reserved?
    ensures SnapshotCommitments(ReserveCheckoutIntent(db, user, slug, plan, now).0) ==
            SnapshotCommitments(db) + SnapshotSlots(plan) - SlotsOf(db.intents, Yielding(db, user))
  {
    hide SnapshotCommitments, ReadCapacityUsage, IsSlugAvailable, Select;
    ReserveUnfolds(db, user, slug, plan, now);
    var db', ids := ReserveCheckoutIntent(db, user, slug, plan, now).0, Yielding(db, user);
    var freed := Superseded(db, ids);
    YieldingAreOpen(db, user);
    SlotsReleased(db.intents, ids, OtherReason("superseded_by_new_reservation"));
    assert db'.intents == freed.intents + [FreshIntent(user, slug, plan, now)];
    assert db'.intents[..|db'.intents| - 1] == freed.intents;
    CommitmentsByTable(db, now);
    CommitmentsByTable(db', now);
  }

  // ---- Finding by checkout ----

  lemma OldestOf(intents: seq<Intent>, checkout: nat, i: nat)
    requires i < |intents|
    ensures Select(intents, WithCheckout(checkout)) != [] && Select(intents, WithCheckout(checkout))[0] == i <==>
            intents[i].checkout == Some(checkout) && forall j :: 0 <= j < i ==> intents[j].checkout != Some(checkout)
  {
    var ids := Select(intents, WithCheckout(checkout));
    if ids != [] {
      assert ids[0] in ids;
      assert forall j: nat :: j in ids ==> ids[0] <= j;
    }
    if intents[i].checkout == Some(checkout) {
      assert i in ids;
    }
  }

  /** The oldest reservation that has this checkout. */
  ghost predicate IsOldestOf(db: Db, checkout: nat, i: nat) {
    && i < |db.intents| && db.intents[i].checkout == Some(checkout)
    && forall j :: 0 <= j < i ==> db.intents[j].checkout != Some(checkout)
  }

  // ---- Ending a reservation ----

  predicate IsOpenRow(row: Intent) {
    row.status == Active && row.box.None?
  }

  /** A row that has ended: its status, its reason, and no link to pay by. */
  function Ended(row: Intent, reason: ReleaseReason, status: IntentStatus): Intent {
    Intent(row.user, row.slug, row.plan, status, row.checkout, None, row.checkoutExpiresAt, row.customer,
           row.subscription, row.order, row.termsAcceptedAt, Some(reason), row.box)
  }

  /** A release ends an open reservation and nothing else. */
  lemma ReleaseEnds(db: Db, i: nat, reason: ReleaseReason)
    ensures ReleaseCheckoutIntent(db, i, reason) ==
            if i < |db.intents| && IsOpenRow(db.intents[i])
            then db.(intents := db.intents[i := Ended(db.intents[i], reason, Released)]) else db
  {}

  /** A release by checkout ends the oldest reservation of it, if that one is open, the
    * way the caller says. */
  lemma ReleaseByCheckoutEnds(db: Db, checkout: nat, reason: ReleaseReason, expired: bool, i: nat)
    requires IsOldestOf(db, checkout, i)
    ensures ReleaseByCheckout(db, checkout, reason, expired) ==
            if IsOpenRow(db.intents[i])
            then db.(intents := db.intents[i := Ended(db.intents[i], reason, if expired then Expired else Released)]) else db
  {
    OldestOf(db.intents, checkout, i);
  }

  /** A sweep ends up to a hundred reservations as expired, each of them active and past
    * a set time, and all there are when they are fewer. */
  lemma SweepEnds(db: Db, batch: seq<nat>, now: int, i: nat)
    requires IsExpiryBatch(db, batch, now) && i < |db.intents|
    ensures var expired := set j: nat | j < |db.intents| && IsPast(db.intents[j], now);
            && ReleaseExpired(db, batch, now) == db.(intents := ReleaseExpired(db, batch, now).intents)
            && |ReleaseExpired(db, batch, now).intents| == |db.intents|
            && ReleaseExpired(db, batch, now).intents[i] ==
               (if i in batch then Ended(db.intents[i], OtherReason("checkout_expired_sweep"), Expired) else db.intents[i])
            && (i in batch ==> IsPast(db.intents[i], now))
            && |batch| == if |expired| < 100 then |expired| else 100
  {
    var expired := set j: nat | j < |db.intents| && IsPast(db.intents[j], now);
    var ids := Select(db.intents, ExpiredBy(now));
    forall j: nat ensures j in ids <==> j in expired {}
    AscendingCount(ids);
    assert IdSet(ids) == expired;
  }

  predicate IsPast(row: Intent, now: int) {
    row.status == Active && row.checkoutExpiresAt.Some? && row.checkoutExpiresAt.value > 0 && row.checkoutExpiresAt.value <= now
  }

  /** Deleting an account ends every reservation it has active, and no other. */
  lemma AccountDeletionEnds(db: Db, user: nat, i: nat)
    requires i < |db.intents|
    ensures var db' := MarkAccountDeletionPending(db, user);
            && db' == db.(intents := db'.intents) && |db'.intents| == |db.intents|
            && db'.intents[i] ==
               if db.intents[i].user == user && db.intents[i].status == Active
               then Ended(db.intents[i], AccountDeleted, Released) else db.intents[i]
  {}

  // ---- Following the checkout ----

  /** An attach writes the session and the plan it was opened for, and that alone. */
  lemma AttachWrites(db: Db, i: nat, checkout: nat, url: nat, expiresAt: int, plan: BoxPlan, customer: Option<nat>)
    requires i < |db.intents|
    ensures var row := db.intents[i];
            AttachPolarCheckout(db, i, checkout, url, expiresAt, plan, customer) ==
            db.(intents := db.intents[i :=
                Intent(row.user, row.slug, plan, row.status, Some(checkout), Some(url), Some(expiresAt), customer,
                       row.subscription, row.order, row.termsAcceptedAt, row.releaseReason, row.box)])
  {}

  /** A reservation attached to a session is handed back with that session until the
    * session expires, if it was not paid for; one that has no session, no link or no end
    * has nothing to go back to. */
  lemma AttachedIsResumed(db: Db, i: nat, checkout: nat, url: nat, expiresAt: int, plan: BoxPlan, customer: Option<nat>, now: int)
    requires i < |db.intents|
    ensures var row' := AttachPolarCheckout(db, i, checkout, url, expiresAt, plan, customer).intents[i];
            CheckoutResumption(row', now) ==
            if db.intents[i].order.Some? then Paid else if now < expiresAt then Session(checkout, url) else NoSession
    ensures var row := db.intents[i];
            row.checkout.None? || row.checkoutUrl.None? || (row.checkoutExpiresAt.None? && now >= 0) ==>
              CheckoutResumption(row, now) == if row.order.Some? then Paid else NoSession
  {
    hide AttachPolarCheckout;
    AttachWrites(db, i, checkout, url, expiresAt, plan, customer);
  }

  /** The plan follows the checkout while the reservation is open, and is all that moves. */
  lemma PlanFollows(db: Db, i: nat, plan: BoxPlan, checkout: nat)
    ensures RecordCheckoutPlan(db, i, plan) ==
            if i < |db.intents| && IsOpenRow(db.intents[i])
            then db.(intents := db.intents[i := db.intents[i].(plan := plan)]) else db
    ensures IsOldestOf(db, checkout, i) ==> RecordPlanByCheckout(db, checkout, plan) == RecordCheckoutPlan(db, i, plan)
  {
    if i < |db.intents| {
      OldestOf(db.intents, checkout, i);
    }
  }

  // ---- Recording a payment ----

  /** What was there stays: a checkout, an order and a time of acceptance already on the
    * row are kept, the customer and the subscription are the order's. A row taken by
    * another checkout, or by another order or subscription, is refused as that; one
    * that has its box is left alone. */
  lemma RecordingWrites(db: Db, i: nat, checkout: nat, customer: nat, order: nat, subscription: nat, termsAt: int)
    ensures var (db', status) := RecordInitialPaidOrder(db, i, checkout, customer, order, subscription, termsAt);
            && (status == Missing <==> i >= |db.intents|)
            && (status != Recorded ==> db' == db)
            && (i < |db.intents| ==>
                  var row := db.intents[i];
                  var elsewhere := row.checkout.Some? && row.checkout.value != checkout;
                  var another := (row.order.Some? && row.order.value != order)
                                 || (row.subscription.Some? && row.subscription.value != subscription);
                  && (status == CheckoutMismatch <==> elsewhere)
                  && (status == OrderMismatch <==> !elsewhere && another)
                  && (status == AlreadyFulfilled <==> !elsewhere && !another && row.box.Some?)
                  && (status == Recorded <==> !elsewhere && !another && row.box.None?)
                  && (status == Recorded ==>
                        db' == db.(intents := db.intents[i := row.(
                            checkout := Some(checkout), order := Some(order), subscription := Some(subscription),
                            customer := Some(customer),
                            termsAcceptedAt := if row.termsAcceptedAt.Some? then row.termsAcceptedAt else Some(termsAt))])))
  {}

  // ---- A box granted by staff ----

  /** Staff grant a box exactly when the slug is valid and free and a box fits - and the
    * key of the grant is not in use; then the box is the account's, of that plan, with
    * no subscription, its create operation open. Otherwise nothing moves. */
  lemma GrantWrites(db: Db, user: nat, slug: string, plan: BoxPlan, key: string, now: int)
    requires Sound(db)
    ensures var db' := GrantComp(db, user, slug, plan, key, now);
            var grants :=
              && IsValidSlug(slug) && (forall h: Holder :: !Holds(db, h, slug))
              && ReadCapacityUsage(db, now).CheckoutAvailable()
              && (forall o :: 0 <= o < |db.operations| && IsActiveOperation(db.operations[o]) ==> db.operations[o].key != Keyed(key));
            && (!grants ==> db' == db)
            && (grants ==>
                  db' == db.(boxes := db.boxes + [Box(user, slug, plan, Creating, None)],
                             operations := db.operations + [Operation(|db.boxes|, CreateBox, OpPending, Keyed(key), None, now)],
                             created := db.created + 1))
  {
    hide ReadCapacityUsage, IsSlugAvailable, Select;
    AvailableToAll(db, slug);
    GrantStarts(db, user, slug, plan, key, now);
  }

  lemma GrantStarts(db: Db, user: nat, slug: string, plan: BoxPlan, key: string, now: int)
    requires Sound(db)
    ensures var (db1, box) := InsertBox(db, Box(user, slug, plan, Creating, None));
            var (db2, started) := StartOperation(db1, box, CreateBox, Keyed(key), None, now);
            && (started.Started? <==>
                  forall o :: 0 <= o < |db.operations| && IsActiveOperation(db.operations[o]) ==> db.operations[o].key != Keyed(key))
            && (started.Started? ==>
                  db2 == db1.(operations := db.operations + [Operation(box, CreateBox, OpPending, Keyed(key), None, now)]))
  {
    var (db1, box) := InsertBox(db, Box(user, slug, plan, Creating, None));
    forall o | 0 <= o < |db.operations| ensures !ActiveForBox(box)(db.operations[o]) {
      assert OperationSound(db, o);
    }
    NothingSelected(db.operations, ActiveForBox(box));
    var busy := Select(db.operations, ActiveWithKey(Keyed(key)));
    if busy == [] {
      NoneSelected(db.operations, ActiveWithKey(Keyed(key)));
      forall o | 0 <= o < |db.operations| && IsActiveOperation(db.operations[o]) ensures db.operations[o].key != Keyed(key) {
        assert !ActiveWithKey(Keyed(key))(db.operations[o]);
      }
      assert db1.boxes[box := db1.boxes[box]] == db1.boxes;
    } else {
      assert busy[0] in busy;
    }
  }
}
