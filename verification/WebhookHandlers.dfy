/** The webhook handlers as the program writes them - lookups, mutations and early
  * returns in order - when nothing interleaves with a delivery. */
module WebhookHandlers {
  import opened Tables
  import opened Vocabulary
  import opened Store
  import opened SlugAvailability
  import opened Capacity
  import opened Operations
  import opened Checkout
  import opened CheckoutInvariant
  import opened CheckoutSteps
  import opened Webhooks
  import CheckoutRuns
  import CheckoutTables

  /** A whole delivery of `order.paid`: decide, record, convert. */
  function PaidOrderAtOnce(db: Db, order: Order, termsAt: int, now: int): (Db, Verdict)
    requires Sound(db)
  {
    match PaidOrderFront(db, order)
    case Settled(verdict) => (db, verdict)
    case Proceed(i) =>
      var (db1, status) :=
        RecordInitialPaidOrder(db, i, order.checkout.value, order.customer, order.id, order.subscription.value, termsAt);
      if status !in {Recorded, AlreadyFulfilled} then (db1, Refunded(IntentMismatch(order.id)))
      else
        RecordKeepsSound(db, i, order, termsAt);
        ConversionUnfolds(db1, i, order.customer, order.id, order.subscription.value, order.soldPlan.value, now);
        var (db2, result) := ConvertCheckoutIntentToBox(
          db1, i, order.customer, order.id, order.subscription.value, order.soldPlan.value, now);
        (db2, ConversionVerdict(result))
  }

  lemma RecordKeepsSound(db: Db, i: nat, order: Order, termsAt: int)
    requires Sound(db) && i < |db.intents| && order.checkout.Some? && order.subscription.Some?
    ensures var db' := RecordInitialPaidOrder(
              db, i, order.checkout.value, order.customer, order.id, order.subscription.value, termsAt).0;
            Sound(db') && |db'.intents| == |db.intents|
  {
    var db' := RecordInitialPaidOrder(
      db, i, order.checkout.value, order.customer, order.id, order.subscription.value, termsAt).0;
    if db' != db {
      CheckoutRuns.PatchedRowKeepsSound(db, i, db'.intents[i]);
    }
  }

  lemma ConversionDecides(db: Db, i: nat, customer: nat, order: nat, subscription: nat, plan: BoxPlan, now: int)
    requires Sound(db) && i < |db.intents|
    ensures var result := ConvertCheckoutIntentToBox(db, i, customer, order, subscription, plan, now).1;
            result.Fulfilled? || result.Unfulfilled?
  {
    hide ReadCapacityUsage, IsSlugAvailable;
    ConversionUnfolds(db, i, customer, order, subscription, plan, now);
  }

  // ---- The same delivery again ----

  /** The row of a recorded order carries it. */
  predicate Carries(row: Intent, order: Order) {
    && order.checkout.Some? && order.subscription.Some?
    && row.checkout == order.checkout && row.order == Some(order.id)
    && row.subscription == order.subscription && row.customer == Some(order.customer) && row.termsAcceptedAt.Some?
  }

  /** Recording an order the row carries changes nothing. */
  lemma RecordedAgain(db: Db, i: nat, order: Order, termsAt: int)
    requires i < |db.intents| && Carries(db.intents[i], order)
    ensures RecordInitialPaidOrder(db, i, order.checkout.value, order.customer, order.id, order.subscription.value, termsAt) ==
            (db, if db.intents[i].box.Some? then AlreadyFulfilled else Recorded)
  {
    var row := db.intents[i];
    assert db.intents[i := row] == db.intents;
  }

  /** A conversion that has answered gives the same answer, and changes nothing. */
  lemma ConvertedAgain(
    db: Db, i: nat, customer: nat, order: nat, subscription: nat, plan: BoxPlan, now: int, plan': BoxPlan, later: int)
    requires Sound(db) && i < |db.intents|
    ensures var (db', result) := ConvertCheckoutIntentToBox(db, i, customer, order, subscription, plan, now);
            ConvertCheckoutIntentToBox(db', i, customer, order, subscription, plan', later) == (db', result)
  {
    hide ReadCapacityUsage, IsSlugAvailable, IsOperationAllowed;
    ConversionUnfolds(db, i, customer, order, subscription, plan, now);
  }

  /** It leaves the row's order where it was. */
  lemma ConversionCarries(db: Db, i: nat, order: Order, plan: BoxPlan, now: int)
    requires i < |db.intents| && Carries(db.intents[i], order)
    ensures var db' := ConvertCheckoutIntentToBox(db, i, order.customer, order.id, order.subscription.value, plan, now).0;
            |db'.intents| == |db.intents| && Carries(db'.intents[i], order)
            && forall j :: 0 <= j < |db.intents| ==> db'.intents[j].checkout == db.intents[j].checkout
  {
    hide ReadCapacityUsage, IsSlugAvailable, IsOperationAllowed, Select;
  }

  lemma RecordingCarries(db: Db, i: nat, order: Order, termsAt: int)
    requires i < |db.intents| && order.checkout.Some? && order.subscription.Some?
    ensures var (db', status) :=
              RecordInitialPaidOrder(db, i, order.checkout.value, order.customer, order.id, order.subscription.value, termsAt);
            && (status == Recorded ==> |db'.intents| == |db.intents| && Carries(db'.intents[i], order))
            && (status != Recorded ==> db' == db)
            && (forall j :: 0 <= j < |db.intents| && db.intents[j].checkout.Some? ==> db'.intents[j].checkout == db.intents[j].checkout)
  {}

  /** The lookup by checkout finds the same reservation while the column stands. */
  lemma FoundAgain(db: Db, db': Db, order: Order, i: nat)
    requires PaidOrderFront(db, order) == Proceed(i) && |db'.intents| == |db.intents|
    requires forall j :: 0 <= j < |db.intents| && db.intents[j].checkout.Some? ==> db'.intents[j].checkout == db.intents[j].checkout
    requires forall j :: 0 <= j < |db.intents| && j != i ==> db'.intents[j].checkout == db.intents[j].checkout
    ensures PaidOrderFront(db', order) == Proceed(i)
  {}

  lemma {:induction false} SameSelected<T>(rows: seq<T>, rows': seq<T>, p: T -> bool)
    requires |rows'| == |rows| && forall j :: 0 <= j < |rows| ==> p(rows[j]) == p(rows'[j])
    ensures Select(rows', p) == Select(rows, p)
  {
    if rows != [] {
      SameSelected(rows[..|rows| - 1], rows'[..|rows| - 1], p);
    }
  }

  lemma RecordedDeliveryAgrees(db: Db, order: Order, i: nat, termsAt: int, now: int, termsAt': int, later: int)
    requires Sound(db) && PaidOrderFront(db, order) == Proceed(i)
    requires RecordInitialPaidOrder(db, i, order.checkout.value, order.customer, order.id, order.subscription.value, termsAt).1
             == Recorded
    ensures var (db', verdict) := PaidOrderAtOnce(db, order, termsAt, now);
            Sound(db') && PaidOrderAtOnce(db', order, termsAt', later) == (db', verdict)
  {
    hide ConvertCheckoutIntentToBox, RecordInitialPaidOrder, PaidOrderFront, Sound, Carries;
    Proceeds(db, order, i);
    var db1 := RecordInitialPaidOrder(
      db, i, order.checkout.value, order.customer, order.id, order.subscription.value, termsAt).0;
    RecordKeepsSound(db, i, order, termsAt);
    RecordingCarries(db, i, order, termsAt);
    RecordedColumn(db, i, order, termsAt);
    ConversionUnfolds(db1, i, order.customer, order.id, order.subscription.value, order.soldPlan.value, now);
    ConversionCarries(db1, i, order, order.soldPlan.value, now);
    ConvertKeepsSound(db1, i, order.customer, order.id, order.subscription.value, order.soldPlan.value, now);
    var db2 := ConvertCheckoutIntentToBox(
      db1, i, order.customer, order.id, order.subscription.value, order.soldPlan.value, now).0;
    FoundAgain(db, db2, order, i);
    RecordedAgain(db2, i, order, termsAt');
    ConvertedAgain(db1, i, order.customer, order.id, order.subscription.value, order.soldPlan.value, now,
                   order.soldPlan.value, later);
  }

  lemma Proceeds(db: Db, order: Order, i: nat)
    requires PaidOrderFront(db, order) == Proceed(i)
    ensures i < |db.intents| && order.checkout.Some? && order.subscription.Some? && order.soldPlan.Some?
  {}

  lemma RecordedColumn(db: Db, i: nat, order: Order, termsAt: int)
    requires i < |db.intents| && order.checkout.Some? && order.subscription.Some?
    ensures var db' := RecordInitialPaidOrder(
              db, i, order.checkout.value, order.customer, order.id, order.subscription.value, termsAt).0;
            |db'.intents| == |db.intents|
            && forall j :: 0 <= j < |db.intents| && j != i ==> db'.intents[j].checkout == db.intents[j].checkout
  {}

  lemma FulfilledDeliveryAgrees(db: Db, order: Order, i: nat, termsAt: int, now: int)
    requires Sound(db) && PaidOrderFront(db, order) == Proceed(i)
    requires RecordInitialPaidOrder(db, i, order.checkout.value, order.customer, order.id, order.subscription.value, termsAt).1
             == AlreadyFulfilled
    ensures PaidOrderAtOnce(db, order, termsAt, now) == (db, BoxDelivered(db.intents[i].box.value))
  {}

  /** A row fulfilled or mismatched is so whatever the time. */
  lemma RecordingIgnoresTheClock(db: Db, i: nat, order: Order, termsAt: int, termsAt': int)
    requires i < |db.intents| && order.checkout.Some? && order.subscription.Some?
    ensures var (db', status) :=
              RecordInitialPaidOrder(db, i, order.checkout.value, order.customer, order.id, order.subscription.value, termsAt);
            status != Recorded ==>
              (db', status) ==
              RecordInitialPaidOrder(db, i, order.checkout.value, order.customer, order.id, order.subscription.value, termsAt')
  {}

  /** Delivered again, whenever and with whatever clock, any order ends the way it
    * ended the first time and changes nothing. */
  lemma RedeliveryAgrees(db: Db, order: Order, termsAt: int, now: int, termsAt': int, later: int)
    requires Sound(db)
    ensures var (db', verdict) := PaidOrderAtOnce(db, order, termsAt, now);
            Sound(db') && PaidOrderAtOnce(db', order, termsAt', later) == (db', verdict)
  {
    hide ConvertCheckoutIntentToBox, RecordInitialPaidOrder, PaidOrderFront, Sound;
    var front := PaidOrderFront(db, order);
    if front.Proceed? {
      Proceeds(db, order, front.intent);
      RecordingIgnoresTheClock(db, front.intent, order, termsAt, termsAt');
      RecordingCarries(db, front.intent, order, termsAt);
      var status := RecordInitialPaidOrder(
        db, front.intent, order.checkout.value, order.customer, order.id, order.subscription.value, termsAt).1;
      if status == Recorded {
        RecordedDeliveryAgrees(db, order, front.intent, termsAt, now, termsAt', later);
      } else if status == AlreadyFulfilled {
        FulfilledDeliveryAgrees(db, order, front.intent, termsAt, now);
        FulfilledDeliveryAgrees(db, order, front.intent, termsAt', later);
      }
    }
  }

  // ---- Refunds and closed checkouts ----

  datatype RefundedOrder = RefundedOrder(
    refundableAmount: nat, subscription: Option<nat>, checkout: Option<nat>, namedIntent: Option<nat>)

  function IntentOfRefund(db: Db, order: RefundedOrder): Option<nat> {
    if order.namedIntent.Some? && order.namedIntent.value < |db.intents| then order.namedIntent
    else if order.checkout.None? then None
    else IntentByCheckout(db, order.checkout.value)
  }

  predicate BoxHasSubscription(db: Db, subscription: nat) {
    exists b :: 0 <= b < |db.boxes| && db.boxes[b].subscription == Some(subscription)
  }

  /** A full refund releases the reservation it can find. */
  function RefundedAtOnce(db: Db, order: RefundedOrder): Db {
    if order.refundableAmount != 0 || order.subscription.None? || IntentOfRefund(db, order).None? then db
    else ReleaseCheckoutIntent(db, IntentOfRefund(db, order).value, OrderFullyRefunded)
  }

  datatype CheckoutStatus = CheckoutExpired | CheckoutFailed | CheckoutOpen

  function UpdatedAtOnce(db: Db, checkout: nat, status: CheckoutStatus, soldPlan: Option<BoxPlan>): Db {
    match status
    case CheckoutExpired => ReleaseByCheckout(db, checkout, OtherReason("checkout_expired"), true)
    case CheckoutFailed => ReleaseByCheckout(db, checkout, OtherReason("checkout_failed"), false)
    case CheckoutOpen => if soldPlan.None? then db else RecordPlanByCheckout(db, checkout, soldPlan.value)
  }

  // ---- As the program writes them ----

  method HandlePaidOrder(tables: CheckoutTables.Mutations, order: Order, termsAt: int, now: int) returns (verdict: Verdict)
    requires tables.Valid()
    modifies tables
    ensures tables.Valid()
    ensures (tables.Tables(), verdict) == PaidOrderAtOnce(old(tables.Tables()), order, termsAt, now)
  {
    hide Sound, ReadCapacityUsage, IsSlugAvailable, ConvertCheckoutIntentToBox, RecordInitialPaidOrder;
    if !order.opensSubscription {
      return NotASale;
    }
    if order.subscription.None? {
      return NeedsPerson;
    }
    if order.soldPlan.None? {
      return Refunded(UnsellableProduct(order.id));
    }
    var intent := if order.checkout.Some? then IntentIdForOrder(tables.Tables(), order) else None;
    if intent.None? {
      return Refunded(UnmatchedCheckout(order.id));
    }
    if !order.termsAccepted {
      return Refunded(MissingTerms(order.id));
    }
    Proceeds(tables.Tables(), order, intent.value);
    RecordKeepsSound(tables.Tables(), intent.value, order, termsAt);
    var status := tables.RecordInitialPaidOrder(
      intent.value, order.checkout.value, order.customer, order.id, order.subscription.value, termsAt);
    if status != Recorded && status != AlreadyFulfilled {
      return Refunded(IntentMismatch(order.id));
    }
    ConversionDecides(tables.Tables(), intent.value, order.customer, order.id, order.subscription.value,
                      order.soldPlan.value, now);
    var conversion := tables.ConvertCheckoutIntentToBox(
      intent.value, order.customer, order.id, order.subscription.value, order.soldPlan.value, now);
    verdict := ConversionVerdict(conversion);
  }

  /** `revoked` is whether the subscription is revoked with Polar. */
  method HandleRefundedOrder(tables: CheckoutTables.Mutations, order: RefundedOrder) returns (revoked: bool)
    requires tables.Valid()
    modifies tables
    ensures tables.Valid()
    ensures tables.Tables() == RefundedAtOnce(old(tables.Tables()), order)
    ensures revoked <==>
              order.refundableAmount == 0 && order.subscription.Some?
              && (IntentOfRefund(old(tables.Tables()), order).Some?
                  || BoxHasSubscription(old(tables.Tables()), order.subscription.value))
  {
    if order.refundableAmount != 0 || order.subscription.None? {
      return false;
    }
    var intent := IntentOfRefund(tables.Tables(), order);
    var hasBox := BoxHasSubscription(tables.Tables(), order.subscription.value);
    if intent.None? && !hasBox {
      return false;
    }
    if intent.Some? {
      var released := tables.ReleaseCheckoutIntent(intent.value, OrderFullyRefunded);
    }
    revoked := true;
  }

  method HandleUpdatedCheckout(
    tables: CheckoutTables.Mutations, checkout: nat, status: CheckoutStatus, soldPlan: Option<BoxPlan>)
    requires tables.Valid()
    modifies tables
    ensures tables.Valid()
    ensures tables.Tables() == UpdatedAtOnce(old(tables.Tables()), checkout, status, soldPlan)
  {
    if status == CheckoutExpired {
      var released := tables.ReleaseByCheckout(checkout, OtherReason("checkout_expired"), true);
      return;
    }
    if status == CheckoutFailed {
      var released := tables.ReleaseByCheckout(checkout, OtherReason("checkout_failed"), false);
      return;
    }
    if soldPlan.None? {
      return;
    }
    tables.RecordPlanByCheckout(checkout, soldPlan.value);
  }
}
