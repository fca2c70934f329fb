/** Reservations: made, resumed, released, paid for and turned into boxes. */
module Checkout {
  import opened Tables
  import opened Vocabulary
  import opened Store
  import opened SlugAvailability
  import opened Capacity
  import opened Operations

  const MAX_ACTIVE_INTENTS_PER_USER: nat := 50
  const CHECKOUT_ATTACH_GRACE_MS: int := 3_600_000
  const EXPIRY_SWEEP_BATCH: nat := 100

  // ---- Ending a reservation ----

  function ReleaseDoc(row: Intent, reason: ReleaseReason, status: IntentStatus): Intent {
    row.(status := status, checkoutUrl := None, releaseReason := Some(reason))
  }

  function ReleaseRows(intents: seq<Intent>, ids: seq<nat>, reason: ReleaseReason, status: IntentStatus): (rows: seq<Intent>)
    ensures |rows| == |intents|
    ensures forall i :: 0 <= i < |rows| ==>
              rows[i] == if i in ids then ReleaseDoc(intents[i], reason, status) else intents[i]
  {
    seq(|intents|, i requires 0 <= i < |intents| => if i in ids then ReleaseDoc(intents[i], reason, status) else intents[i])
  }

  predicate Releasable(db: Db, i: nat) {
    i < |db.intents| && db.intents[i].status == Active && db.intents[i].box.None?
  }

  function ReleaseCheckoutIntent(db: Db, i: nat, reason: ReleaseReason): Db {
    if !Releasable(db, i) then db else
      db.(intents := db.intents[i := ReleaseDoc(db.intents[i], reason, Released)])
  }

  /** The reservation a checkout belongs to: the oldest that names it. */
  function IntentByCheckout(db: Db, checkout: nat): (found: Option<nat>)
    ensures found.Some? ==> found.value < |db.intents| && db.intents[found.value].checkout == Some(checkout)
    ensures found.None? ==> forall i: nat :: i < |db.intents| ==> db.intents[i].checkout != Some(checkout)
  {
    var ids := Select(db.intents, WithCheckout(checkout));
    if ids == [] then
      assert forall i: nat :: i !in ids;
      None
    else
      assert ids[0] in ids;
      Some(ids[0])
  }

  function ReleaseByCheckout(db: Db, checkout: nat, reason: ReleaseReason, expired: bool): Db {
    var found := IntentByCheckout(db, checkout);
    if found.None? || !Releasable(db, found.value) then db else
      db.(intents := db.intents[found.value :=
          ReleaseDoc(db.intents[found.value], reason, if expired then Expired else Released)])
  }

  /** A batch the expiry sweep may read: up to 100 expired reservations, all of
    * them when there are fewer, in whatever order the index lists them. */
  predicate IsExpiryBatch(db: Db, batch: seq<nat>, now: int) {
    && (forall k :: 0 <= k < |batch| ==> batch[k] < |db.intents| && ExpiredBy(now)(db.intents[batch[k]]))
    && (forall j, k :: 0 <= j < k < |batch| ==> batch[j] != batch[k])
    && |batch| == Min(EXPIRY_SWEEP_BATCH, |Select(db.intents, ExpiredBy(now))|)
  }

  function ReleaseExpired(db: Db, batch: seq<nat>, now: int): Db {
    if !IsExpiryBatch(db, batch, now) then db else
      db.(intents := ReleaseRows(db.intents, batch, OtherReason("checkout_expired_sweep"), Expired))
  }

  /** Account deletion ends every reservation the account still holds. */
  function MarkAccountDeletionPending(db: Db, user: nat): Db {
    db.(intents := ReleaseRows(db.intents, Select(db.intents, OfUser(user)), AccountDeleted, Released))
  }

  // ---- Reserving ----

  /** How many of the oldest reservations yield to a new one; none on a count or a
    * cap that is out of bounds, where the program throws. */
  function ReservationsToRelease(activeCount: nat, cap: nat): Option<nat> {
    if activeCount > MAX_ACTIVE_INTENTS_PER_USER then None
    else if cap < 1 || cap > MAX_ACTIVE_INTENTS_PER_USER then None
    else Some(Max(0, activeCount - cap + 1))
  }

  datatype Resumption = NoSession | Paid | Session(checkout: nat, url: nat)

  function CheckoutResumption(row: Intent, now: int): Resumption {
    if row.order.Some? then Paid
    else if row.checkout.None? || row.checkoutUrl.None? then NoSession
    else if (if row.checkoutExpiresAt.Some? then row.checkoutExpiresAt.value else 0) <= now then NoSession
    else Session(row.checkout.value, row.checkoutUrl.value)
  }

  datatype ReserveResult =
    | Reserved(id: nat)
    | Resumed(id: nat, resumption: Resumption)
    | SlugUnavailable
    | NoCapacity
    | OutOfBounds

  function HeldBy(db: Db, user: nat, slug: string): (held: Option<nat>)
    ensures held.Some? ==> held.value < |db.intents| && OfUserSlug(user, slug)(db.intents[held.value])
    ensures held.None? ==> forall i: nat :: i < |db.intents| ==> !OfUserSlug(user, slug)(db.intents[i])
  {
    var ids := Select(db.intents, OfUserSlug(user, slug));
    if ids == [] then
      assert forall i: nat :: i !in ids;
      None
    else
      assert ids[0] in ids;
      Some(ids[0])
  }

  function FreshIntent(user: nat, slug: string, plan: BoxPlan, now: int): Intent {
    Intent(user, slug, plan, Active, None, None, Some(now + CHECKOUT_ATTACH_GRACE_MS), None, None, None, None, None, None)
  }

  /** The user's active reservations the mutation reads: one more than the maximum. */
  function ReadActive(db: Db, user: nat): seq<nat> {
    Take(Select(db.intents, OfUser(user)), MAX_ACTIVE_INTENTS_PER_USER + 1)
  }

  function Superseded(db: Db, ids: seq<nat>): Db {
    db.(intents := ReleaseRows(db.intents, ids, OtherReason("superseded_by_new_reservation"), Released))
  }

  function WithIntent(db: Db, row: Intent): Db {
    db.(intents := db.intents + [row])
  }

  /** Reserve a slug, or hand back the reservation its owner already holds. */
  function ReserveCheckoutIntent(db: Db, user: nat, slug: string, plan: BoxPlan, now: int): (Db, ReserveResult) {
    var held := HeldBy(db, user, slug);
    if !IsSlugAvailable(db, slug, Ignore(None, held, None)) then (db, SlugUnavailable)
    else if held.Some? then (db, Resumed(held.value, CheckoutResumption(db.intents[held.value], now)))
    else if !ReadCapacityUsage(db, now).CheckoutAvailable() then (db, NoCapacity)
    else
      var active := ReadActive(db, user);
      var yielding := ReservationsToRelease(|active|, db.settings.maxActiveIntents);
      if yielding.None? then (db, OutOfBounds) else
        (WithIntent(Superseded(db, Take(active, yielding.value)), FreshIntent(user, slug, plan, now)),
         Reserved(|db.intents|))
  }

  // ---- Following the Polar checkout ----

  function AttachPolarCheckout(
    db: Db, i: nat, checkout: nat, url: nat, expiresAt: int, plan: BoxPlan, customer: Option<nat>): Db
  {
    if i >= |db.intents| then db else
      db.(intents := db.intents[i := db.intents[i].(
          plan := plan, checkout := Some(checkout), checkoutUrl := Some(url),
          checkoutExpiresAt := Some(expiresAt), customer := customer)])
  }

  function RecordCheckoutPlan(db: Db, i: nat, plan: BoxPlan): Db {
    if !Releasable(db, i) then db else db.(intents := db.intents[i := db.intents[i].(plan := plan)])
  }

  function RecordPlanByCheckout(db: Db, checkout: nat, plan: BoxPlan): Db {
    var found := IntentByCheckout(db, checkout);
    if found.None? then db else RecordCheckoutPlan(db, found.value, plan)
  }

  // ---- Payment ----

  /** The facts a paid order carries; they are the same on every delivery. */
  datatype Order = Order(
    id: nat,
    opensSubscription: bool,
    subscription: Option<nat>,
    soldPlan: Option<BoxPlan>,
    checkout: Option<nat>,
    namedIntent: Option<nat>,
    termsAccepted: bool,
    customer: nat)

  datatype RecordStatus = Missing | CheckoutMismatch | OrderMismatch | AlreadyFulfilled | Recorded

  function PaidOrderRecordingStatus(row: Intent, checkout: nat, order: nat, subscription: nat): RecordStatus {
    if row.checkout.Some? && row.checkout != Some(checkout) then CheckoutMismatch
    else if (row.order.Some? && row.order != Some(order)) || (row.subscription.Some? && row.subscription != Some(subscription))
    then OrderMismatch
    else if row.box.Some? then AlreadyFulfilled
    else Recorded
  }

  function OrElse<T>(a: Option<T>, b: T): Option<T> {
    if a.Some? then a else Some(b)
  }

  function RecordInitialPaidOrder(
    db: Db, i: nat, checkout: nat, customer: nat, order: nat, subscription: nat, termsAt: int): (Db, RecordStatus)
  {
    if i >= |db.intents| then (db, Missing) else
      var row := db.intents[i];
      var status := PaidOrderRecordingStatus(row, checkout, order, subscription);
      if status != Recorded then (db, status) else
        (db.(intents := db.intents[i := row.(
            checkout := OrElse(row.checkout, checkout),
            customer := Some(customer),
            subscription := Some(subscription),
            order := OrElse(row.order, order),
            termsAcceptedAt := OrElse(row.termsAcceptedAt, termsAt))]), Recorded)
  }

  // ---- Fulfilment ----

  predicate IsUnfulfillable(reason: Option<ReleaseReason>) {
    reason.Some? && !reason.value.OtherReason?
  }

  /** What the caller must give back, keyed by why and by which reservation. */
  datatype Refund = Refund(reason: ReleaseReason, intent: nat, order: nat, subscription: nat)

  datatype Conversion =
    | NotFound
    | Fulfilled(box: nat)
    | Unfulfilled(refund: Option<Refund>)
    | Aborted

  /** A fully refunded order needs no second refund. */
  function UnfulfilledBecause(reason: ReleaseReason, i: nat, order: nat, subscription: nat): Conversion {
    Unfulfilled(if reason.OrderFullyRefunded? then None else Some(Refund(reason, i, order, subscription)))
  }

  function RefuseSale(db: Db, i: nat, customer: nat, order: nat, subscription: nat, reason: ReleaseReason): (Db, Conversion)
    requires i < |db.intents|
  {
    (db.(intents := db.intents[i := ReleaseDoc(db.intents[i], reason, Released).(
         customer := Some(customer), subscription := Some(subscription))]),
     UnfulfilledBecause(reason, i, order, subscription))
  }

  function ConvertCheckoutIntentToBox(
    db: Db, i: nat, customer: nat, order: nat, subscription: nat, plan: BoxPlan, now: int): (Db, Conversion)
  {
    if i >= |db.intents| then (db, NotFound) else
      var row := db.intents[i];
      if row.box.Some? then (db, Fulfilled(row.box.value))
      else if IsUnfulfillable(row.releaseReason) then
        (db, UnfulfilledBecause(row.releaseReason.value, i, order, subscription))
      else if row.status != Active && !ReadCapacityUsage(db, now).CheckoutAvailable() then
        RefuseSale(db, i, customer, order, subscription, CapacityUnavailable)
      else if !IsSlugAvailable(db, row.slug, Ignore(None, Some(i), None)) then
        RefuseSale(db, i, customer, order, subscription, SlugConflict)
      else
        var (db1, box) := InsertBox(db, Box(row.user, row.slug, plan, Creating, Some(subscription)));
        var db2 := db1.(intents := db1.intents[i := row.(
            status := Converted, customer := Some(customer), subscription := Some(subscription),
            box := Some(box), checkoutUrl := None)]);
        var (db3, started) := StartOperation(db2, box, CreateBox, CreateOf(box), None, now);
        if started.Started? then (db3, Fulfilled(box)) else (db, Aborted)
  }

  /** A box granted by staff passes the same gates as a paid one. */
  function GrantComp(db: Db, user: nat, slug: string, plan: BoxPlan, key: string, now: int): Db {
    if !IsSlugAvailable(db, slug, IGNORE_NOTHING) || !ReadCapacityUsage(db, now).CheckoutAvailable() then db else
      var (db1, box) := InsertBox(db, Box(user, slug, plan, Creating, None));
      var (db2, started) := StartOperation(db1, box, CreateBox, Keyed(key), None, now);
      if started.Started? then db2 else db
  }
}
