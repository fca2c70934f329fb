/** Every way the checkout tables move, as one machine: owners, staff, sweeps,
  * workflows, and Polar webhooks delivered any number of times, each in several
  * transactions that anything may interleave with. */
module Webhooks {
  import opened Tables
  import opened Vocabulary
  import opened Store
  import opened SlugAvailability
  import opened Capacity
  import opened Operations
  import opened Checkout

  /** Polar's idempotency key for a refund, and the alert raised with it. */
  datatype RefundKey =
    | UnsellableProduct(order: nat)
    | UnmatchedCheckout(order: nat)
    | MissingTerms(order: nat)
    | IntentMismatch(order: nat)
    | SaleRefused(reason: ReleaseReason, intent: nat)

  /** How one delivery of `order.paid` ends. */
  datatype Verdict = NotASale | NeedsPerson | BoxDelivered(box: nat) | Refunded(key: RefundKey) | MoneyAlreadyBack

  datatype Front = Settled(verdict: Verdict) | Proceed(intent: nat)

  function IntentIdForOrder(db: Db, order: Order): Option<nat>
    requires order.checkout.Some?
  {
    if order.namedIntent.Some? && order.namedIntent.value < |db.intents| then order.namedIntent
    else IntentByCheckout(db, order.checkout.value)
  }

  /** What a delivery decides before it writes anything. */
  function PaidOrderFront(db: Db, order: Order): Front {
    if !order.opensSubscription then Settled(NotASale)
    else if order.subscription.None? then Settled(NeedsPerson)
    else if order.soldPlan.None? then Settled(Refunded(UnsellableProduct(order.id)))
    else
      var intent := if order.checkout.Some? then IntentIdForOrder(db, order) else None;
      if intent.None? then Settled(Refunded(UnmatchedCheckout(order.id)))
      else if !order.termsAccepted then Settled(Refunded(MissingTerms(order.id)))
      else Proceed(intent.value)
  }

  function ConversionVerdict(result: Conversion): Verdict
    requires result.Fulfilled? || result.Unfulfilled?
  {
    match result
    case Fulfilled(box) => BoxDelivered(box)
    case Unfulfilled(refund) =>
      if refund.None? then MoneyAlreadyBack else Refunded(SaleRefused(refund.value.reason, refund.value.intent))
  }

  /** A delivery between its transactions. */
  datatype Flight = Flight(order: Order, intent: nat)
  datatype Outcome = Outcome(order: Order, verdict: Verdict)

  /** The tables, and the deliveries made of them: orders seen, deliveries past the
    * front, deliveries past recording, and every verdict reached so far. */
  datatype World = World(
    db: Db, seen: set<Order>, underway: set<Flight>, cleared: set<Flight>, outcomes: seq<Outcome>)

  datatype Action =
    | Reserve(user: nat, slug: string, plan: BoxPlan, now: int)
    | Attach(intent: nat, checkout: nat, url: nat, expiresAt: int, plan: BoxPlan, customer: Option<nat>)
    | SetPlan(intent: nat, plan: BoxPlan)
    | SetPlanByCheckout(checkout: nat, plan: BoxPlan)
    | Release(intent: nat, reason: ReleaseReason)
    | CloseCheckout(checkout: nat, reason: ReleaseReason, expired: bool)
    | SweepExpired(batch: seq<nat>, now: int)
    | DeleteAccount(user: nat)
    | OpenOrder(order: Order)
    | RecordOrder(flight: Flight, termsAt: int)
    | ConvertOrder(flight: Flight, now: int)
    | Comp(user: nat, slug: string, plan: BoxPlan, key: string, now: int)
    | Start(box: nat, kind: OperationType, key: string, reservedSlug: Option<string>, now: int)
    | Run(operation: nat)
    | Settle(operation: nat, succeeded: bool, boxStatus: BoxStatus)
    | Rename(operation: nat, slug: string)
    | WriteSettings(settings: Settings)
    | MoveSnapshots(rows: seq<SnapshotImage>)

  function OpenPaidOrder(w: World, order: Order): World {
    var w1 := w.(seen := w.seen + {order});
    match PaidOrderFront(w.db, order)
    case Settled(verdict) => w1.(outcomes := w.outcomes + [Outcome(order, verdict)])
    case Proceed(intent) => w1.(underway := w.underway + {Flight(order, intent)})
  }

  function RecordPaidOrder(w: World, flight: Flight, termsAt: int): World {
    var order := flight.order;
    if flight !in w.underway || order.checkout.None? || order.subscription.None? then w else
      var (db', status) := RecordInitialPaidOrder(
        w.db, flight.intent, order.checkout.value, order.customer, order.id, order.subscription.value, termsAt);
      if status in {Recorded, AlreadyFulfilled} then w.(db := db', cleared := w.cleared + {flight})
      else w.(outcomes := w.outcomes + [Outcome(order, Refunded(IntentMismatch(order.id)))])
  }

  function ConvertPaidOrder(w: World, flight: Flight, now: int): World {
    var order := flight.order;
    if flight !in w.cleared || order.subscription.None? || order.soldPlan.None? then w else
      var (db', result) := ConvertCheckoutIntentToBox(
        w.db, flight.intent, order.customer, order.id, order.subscription.value, order.soldPlan.value, now);
      if !result.Fulfilled? && !result.Unfulfilled? then w
      else w.(db := db', outcomes := w.outcomes + [Outcome(order, ConversionVerdict(result))])
  }

  /** One transaction; an action that is not possible changes nothing. */
  function Apply(w: World, a: Action): World {
    match a
    case Reserve(user, slug, plan, now) => w.(db := ReserveCheckoutIntent(w.db, user, slug, plan, now).0)
    case Attach(i, checkout, url, expiresAt, plan, customer) =>
      w.(db := AttachPolarCheckout(w.db, i, checkout, url, expiresAt, plan, customer))
    case SetPlan(i, plan) => w.(db := RecordCheckoutPlan(w.db, i, plan))
    case SetPlanByCheckout(checkout, plan) => w.(db := RecordPlanByCheckout(w.db, checkout, plan))
    case Release(i, reason) => w.(db := ReleaseCheckoutIntent(w.db, i, reason))
    case CloseCheckout(checkout, reason, expired) => w.(db := ReleaseByCheckout(w.db, checkout, reason, expired))
    case SweepExpired(batch, now) => w.(db := ReleaseExpired(w.db, batch, now))
    case DeleteAccount(user) => w.(db := MarkAccountDeletionPending(w.db, user))
    case OpenOrder(order) => OpenPaidOrder(w, order)
    case RecordOrder(flight, termsAt) => RecordPaidOrder(w, flight, termsAt)
    case ConvertOrder(flight, now) => ConvertPaidOrder(w, flight, now)
    case Comp(user, slug, plan, key, now) => w.(db := GrantComp(w.db, user, slug, plan, key, now))
    case Start(box, kind, key, reservedSlug, now) =>
      w.(db := StartOperation(w.db, box, kind, Keyed(key), reservedSlug, now).0)
    case Run(operation) => w.(db := MarkOperationRunning(w.db, operation))
    case Settle(operation, succeeded, boxStatus) => w.(db := SettleOperation(w.db, operation, succeeded, boxStatus))
    case Rename(operation, slug) => w.(db := SwapSlug(w.db, operation, slug))
    case WriteSettings(settings) =>
      if 1 <= settings.maxActiveIntents <= MAX_ACTIVE_INTENTS_PER_USER then w.(db := w.db.(settings := settings)) else w
    case MoveSnapshots(rows) => w.(db := w.db.(snapshots := rows))
  }

  function Exec(w: World, actions: seq<Action>): World {
    if actions == [] then w else Apply(Exec(w, actions[..|actions| - 1]), actions[|actions| - 1])
  }

  /** A new deployment: no rows yet, any valid settings. */
  function Deployed(settings: Settings): World {
    World(Db([], [], [], [], settings, 0), {}, {}, {}, [])
  }

  predicate ValidSettings(settings: Settings) {
    1 <= settings.maxActiveIntents <= MAX_ACTIVE_INTENTS_PER_USER
  }
}
