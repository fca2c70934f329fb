/** Which verdict a paid order gets, told from the order and the tables alone: for one
  * whole delivery exactly, and for every delivery of every run. */
module OrderAnswers {
  import opened Tables
  import opened Vocabulary
  import opened Store
  import opened SlugAvailability
  import opened Capacity
  import opened Operations
  import opened Checkout
  import opened CheckoutInvariant
  import opened CheckoutSteps
  import opened Webhooks
  import opened WebhookHandlers
  import opened CheckoutAnswers
  import CheckoutRuns
  import CheckoutFinality

  // ---- What an order says ----

  /** It opens a subscription, and carries one. */
  predicate IsSubscriptionOrder(order: Order) {
    order.opensSubscription && order.subscription.Some?
  }

  /** ... and that for a plan that is sold. */
  predicate IsPlanOrder(order: Order) {
    IsSubscriptionOrder(order) && order.soldPlan.Some?
  }

  /** The reservation an order pays for: the one it names, if that is there, and
    * otherwise the oldest with its checkout. */
  ghost predicate PaysFor(db: Db, order: Order, i: nat) {
    && i < |db.intents| && order.checkout.Some?
    && if order.namedIntent.Some? && order.namedIntent.value < |db.intents| then order.namedIntent.value == i
       else db.intents[i].checkout == order.checkout && forall j :: 0 <= j < i ==> db.intents[j].checkout != order.checkout
  }

  ghost predicate HasReservation(db: Db, order: Order) {
    exists i :: 0 <= i < |db.intents| && PaysFor(db, order, i)
  }

  /** The reservation already belongs to another checkout, order or subscription. */
  predicate IsTaken(row: Intent, order: Order) {
    || (row.checkout.Some? && row.checkout != order.checkout)
    || (row.order.Some? && row.order.value != order.id)
    || (row.subscription.Some? && row.subscription != order.subscription)
  }

  // ---- The front decision ----

  lemma FoundExactly(db: Db, order: Order, i: nat)
    requires order.checkout.Some?
    ensures IntentIdForOrder(db, order) == Some(i) <==> PaysFor(db, order, i)
    ensures IntentIdForOrder(db, order).Some? ==> IntentIdForOrder(db, order).value < |db.intents|
  {
    if i < |db.intents| {
      OldestOf(db.intents, order.checkout.value, i);
    }
  }

  lemma HasReservationExactly(db: Db, order: Order)
    ensures HasReservation(db, order) <==> order.checkout.Some? && IntentIdForOrder(db, order).Some?
  {
    if order.checkout.Some? {
      var found := IntentIdForOrder(db, order);
      if found.Some? {
        FoundExactly(db, order, found.value);
      }
      if HasReservation(db, order) {
        var i :| 0 <= i < |db.intents| && PaysFor(db, order, i);
        FoundExactly(db, order, i);
      }
    }
  }

  /** What a delivery decides before it writes, each answer by its own fact. */
  lemma FrontExactly(db: Db, order: Order)
    ensures var front := PaidOrderFront(db, order);
            && (front == Settled(NotASale) <==> !order.opensSubscription)
            && (front == Settled(NeedsPerson) <==> order.opensSubscription && order.subscription.None?)
            && (front == Settled(Refunded(UnsellableProduct(order.id))) <==> IsSubscriptionOrder(order) && order.soldPlan.None?)
            && (front == Settled(Refunded(UnmatchedCheckout(order.id))) <==> IsPlanOrder(order) && !HasReservation(db, order))
            && (front == Settled(Refunded(MissingTerms(order.id))) <==>
                  IsPlanOrder(order) && HasReservation(db, order) && !order.termsAccepted)
            && (front.Proceed? <==> IsPlanOrder(order) && HasReservation(db, order) && order.termsAccepted)
            && (front.Proceed? ==> PaysFor(db, order, front.intent))
  {
    hide IntentIdForOrder, PaysFor, HasReservation;
    HasReservationExactly(db, order);
    if order.checkout.Some? && IntentIdForOrder(db, order).Some? {
      FoundExactly(db, order, IntentIdForOrder(db, order).value);
    }
  }

  lemma OneReservation(db: Db, order: Order, i: nat, j: nat)
    requires PaysFor(db, order, i) && PaysFor(db, order, j)
    ensures i == j
  {}

  // ---- One delivery ----

  /** It pays for a reservation that is its own or still free. */
  ghost predicate IsMatched(db: Db, order: Order) {
    exists i :: 0 <= i < |db.intents| && PaysFor(db, order, i) && !IsTaken(db.intents[i], order)
  }

  lemma RecordingExactly(row: Intent, order: Order)
    requires order.checkout.Some? && order.subscription.Some?
    ensures var status := PaidOrderRecordingStatus(row, order.checkout.value, order.id, order.subscription.value);
            status in {Recorded, AlreadyFulfilled} <==> !IsTaken(row, order)
  {}

  lemma MatchedExactly(db: Db, order: Order, i: nat)
    requires PaysFor(db, order, i)
    ensures IsMatched(db, order) <==> !IsTaken(db.intents[i], order)
  {
    if IsMatched(db, order) {
      var j :| 0 <= j < |db.intents| && PaysFor(db, order, j) && !IsTaken(db.intents[j], order);
      OneReservation(db, order, i, j);
    }
  }

  /** A delivery may be made into a box, or refused for its reservation. */
  ghost predicate IsConverted(db: Db, order: Order) {
    IsPlanOrder(order) && order.termsAccepted && IsMatched(db, order)
  }

  /** Every verdict by its own facts, and no other verdict: an order is no sale, or
    * lacks its subscription; or it is refunded, under its own id, as unsellable, for a
    * checkout nobody reserved, without terms, or for a reservation taken by another;
    * or its conversion answers. */
  lemma VerdictExactly(db: Db, order: Order, termsAt: int, now: int)
    requires Sound(db)
    ensures var v := PaidOrderAtOnce(db, order, termsAt, now).1;
            && (v == NotASale <==> !order.opensSubscription)
            && (v == NeedsPerson <==> order.opensSubscription && order.subscription.None?)
            && (v == Refunded(UnsellableProduct(order.id)) <==> IsSubscriptionOrder(order) && order.soldPlan.None?)
            && (v == Refunded(UnmatchedCheckout(order.id)) <==> IsPlanOrder(order) && !HasReservation(db, order))
            && (v == Refunded(MissingTerms(order.id)) <==>
                  IsPlanOrder(order) && HasReservation(db, order) && !order.termsAccepted)
            && (v == Refunded(IntentMismatch(order.id)) <==>
                  IsPlanOrder(order) && order.termsAccepted && HasReservation(db, order) && !IsMatched(db, order))
            && (v.BoxDelivered? || v == MoneyAlreadyBack || (v.Refunded? && v.key.SaleRefused?) <==> IsConverted(db, order))
  {
    hide PaysFor, HasReservation, IsMatched, IsTaken, Sound, ConvertCheckoutIntentToBox, RecordInitialPaidOrder;
    FrontExactly(db, order);
    var front := PaidOrderFront(db, order);
    if front.Proceed? {
      PaidIsThere(db, order, front.intent);
      MatchedExactly(db, order, front.intent);
      RecordingExactly(db.intents[front.intent], order);
      RecordedStatus(db, front.intent, order, termsAt);
    } else {
      OnlyFoundAreMatched(db, order);
    }
  }

  lemma PaidIsThere(db: Db, order: Order, i: nat)
    requires PaysFor(db, order, i)
    ensures i < |db.intents| && order.checkout.Some?
  {}

  lemma OnlyFoundAreMatched(db: Db, order: Order)
    ensures IsMatched(db, order) ==> HasReservation(db, order)
  {}

  lemma RecordedStatus(db: Db, i: nat, order: Order, termsAt: int)
    requires i < |db.intents| && order.checkout.Some? && order.subscription.Some?
    ensures RecordInitialPaidOrder(db, i, order.checkout.value, order.customer, order.id, order.subscription.value, termsAt).1
            == PaidOrderRecordingStatus(db.intents[i], order.checkout.value, order.id, order.subscription.value)
  {}

  /** What stands in the tables after a delivery that was converted: a box bound to the
    * reservation that was paid for, or on that reservation the reason for the refund -
    * unless that reason is that the money is back already. */
  lemma DeliveryStands(db: Db, order: Order, i: nat, termsAt: int, now: int)
    requires Sound(db) && IsConverted(db, order) && PaysFor(db, order, i)
    ensures var (db', v) := PaidOrderAtOnce(db, order, termsAt, now);
            && |db'.intents| == |db.intents|
            && (v.BoxDelivered? ==> db'.intents[i].box == Some(v.box))
            && (v.Refunded? ==> v.key.SaleRefused? && v.key.intent == i && db'.intents[i].releaseReason == Some(v.key.reason)
                                && v.key.reason != OrderFullyRefunded && db'.intents[i].box.None?)
            && (v == MoneyAlreadyBack ==> db'.intents[i].releaseReason == Some(OrderFullyRefunded) && db'.intents[i].box.None?)
  {
    hide ConvertCheckoutIntentToBox, RecordInitialPaidOrder, Sound, PaysFor, HasReservation, IsMatched, IsTaken;
    FrontExactly(db, order);
    OnlyFoundAreMatched(db, order);
    var front := PaidOrderFront(db, order);
    OneReservation(db, order, i, front.intent);
    PaidIsThere(db, order, i);
    MatchedExactly(db, order, i);
    RecordingExactly(db.intents[i], order);
    RecordedStatus(db, i, order, termsAt);
    RecordKeepsSound(db, i, order, termsAt);
    var db1 := RecordInitialPaidOrder(
      db, i, order.checkout.value, order.customer, order.id, order.subscription.value, termsAt).0;
    AnswerStands(db1, i, order.customer, order.id, order.subscription.value, order.soldPlan.value, now);
    var (db2, result) := ConvertCheckoutIntentToBox(
      db1, i, order.customer, order.id, order.subscription.value, order.soldPlan.value, now);
    assert PaidOrderAtOnce(db, order, termsAt, now) == (db2, ConversionVerdict(result));
    if result.Unfulfilled? && result.refund.Some? {
      var refund := result.refund.value;
      assert ConversionVerdict(result) == Refunded(SaleRefused(refund.reason, refund.intent));
    }
  }

  lemma AnswerStands(db: Db, i: nat, customer: nat, order: nat, subscription: nat, plan: BoxPlan, now: int)
    requires Sound(db) && i < |db.intents|
    ensures var (db', result) := ConvertCheckoutIntentToBox(db, i, customer, order, subscription, plan, now);
            && |db'.intents| == |db.intents|
            && (result.Fulfilled? ==> db'.intents[i].box == Some(result.box))
            && (result.Unfulfilled? ==> db'.intents[i].box.None?)
            && (result.Unfulfilled? && result.refund.Some? ==>
                  result.refund.value.intent == i && db'.intents[i].releaseReason == Some(result.refund.value.reason)
                  && result.refund.value.reason != OrderFullyRefunded)
            && (result.Unfulfilled? && result.refund.None? ==> db'.intents[i].releaseReason == Some(OrderFullyRefunded))
            && (result.Fulfilled? || result.Unfulfilled?)
  {
    hide ConvertCheckoutIntentToBox, IsSlugAvailable, ReadCapacityUsage, StillAdmitted, HeldByAnother;
    ConversionAnswersExactly(db, i, customer, order, subscription, plan, now);
    NoReservation(db, i, customer, order, subscription, plan, now);
    if ConvertCheckoutIntentToBox(db, i, customer, order, subscription, plan, now).1.Unfulfilled? {
      RefundNamesTheSale(db, i, customer, order, subscription, plan, now);
    } else if db.intents[i].box.None? {
      BoxIsMade(db, i, customer, order, subscription, plan, now);
    }
  }

  /** The row of a payment that was recorded: whose it is, and for what. */
  function Paid(row: Intent, order: Order, termsAt: int): Intent
    requires order.checkout.Some? && order.subscription.Some?
  {
    row.(checkout := order.checkout, order := Some(order.id), subscription := order.subscription,
         customer := Some(order.customer),
         termsAcceptedAt := if row.termsAcceptedAt.Some? then row.termsAcceptedAt else Some(termsAt))
  }

  /** A box made by a delivery is the account's that reserved it, under the reserved slug,
    * of the plan and on the subscription the order was for; the row keeps the order. */
  lemma DeliveryMakes(db: Db, order: Order, i: nat, termsAt: int, now: int)
    requires Sound(db) && IsConverted(db, order) && PaysFor(db, order, i) && db.intents[i].box.None?
    requires PaidOrderAtOnce(db, order, termsAt, now).1.BoxDelivered?
    ensures var (db', v) := PaidOrderAtOnce(db, order, termsAt, now);
            var row, b := db.intents[i], |db.boxes|;
            && v == BoxDelivered(b)
            && db'.boxes == db.boxes + [Box(row.user, row.slug, order.soldPlan.value, Creating, order.subscription)]
            && db'.intents == db.intents[i := Paid(row, order, termsAt).(status := Converted, checkoutUrl := None, box := Some(b))]
            && db'.operations == db.operations + [Operation(b, CreateBox, OpPending, CreateOf(b), None, now)]
  {
    hide ConvertCheckoutIntentToBox, RecordInitialPaidOrder, Sound, HasReservation, IsMatched;
    var db1 := PaymentRecorded(db, order, i, termsAt, now);
    BoxIsMade(db1, i, order.customer, order.id, order.subscription.value, order.soldPlan.value, now);
  }

  /** A refused delivery leaves the payment on the row, and the reason with it. */
  lemma DeliveryRefuses(db: Db, order: Order, i: nat, termsAt: int, now: int)
    requires Sound(db) && IsConverted(db, order) && PaysFor(db, order, i) && db.intents[i].box.None?
    requires !IsUnfulfillable(db.intents[i].releaseReason) && PaidOrderAtOnce(db, order, termsAt, now).1.Refunded?
    ensures var (db', v) := PaidOrderAtOnce(db, order, termsAt, now);
            && v.key.SaleRefused?
            && db' == db.(intents := db.intents[i := Paid(db.intents[i], order, termsAt).(
                           status := Released, checkoutUrl := None, releaseReason := Some(v.key.reason))])
  {
    hide ConvertCheckoutIntentToBox, RecordInitialPaidOrder, Sound, HasReservation, IsMatched, StillAdmitted, HeldByAnother;
    var db1 := PaymentRecorded(db, order, i, termsAt, now);
    DeliveryStands(db, order, i, termsAt, now);
    ConversionAnswersExactly(db1, i, order.customer, order.id, order.subscription.value, order.soldPlan.value, now);
    RefusalMovesOneRow(db1, i, order.customer, order.id, order.subscription.value, order.soldPlan.value, now);
  }

  lemma RefusalMovesOneRow(db: Db, i: nat, customer: nat, order: nat, subscription: nat, plan: BoxPlan, now: int)
    requires i < |db.intents|
    ensures var (db', result) := ConvertCheckoutIntentToBox(db, i, customer, order, subscription, plan, now);
            result.Unfulfilled? ==> |db'.intents| == |db.intents| && db' == db.(intents := db.intents[i := db'.intents[i]])
  {
    hide ReadCapacityUsage, IsSlugAvailable, StartOperation;
  }

  /** A converted delivery records the payment first. */
  lemma PaymentRecorded(db: Db, order: Order, i: nat, termsAt: int, now: int) returns (db1: Db)
    requires Sound(db) && IsConverted(db, order) && PaysFor(db, order, i) && db.intents[i].box.None?
    ensures Sound(db1) && db1 == db.(intents := db.intents[i := Paid(db.intents[i], order, termsAt)])
    ensures var (db2, result) :=
              ConvertCheckoutIntentToBox(db1, i, order.customer, order.id, order.subscription.value, order.soldPlan.value, now);
            && (result.Fulfilled? || result.Unfulfilled?)
            && PaidOrderAtOnce(db, order, termsAt, now) == (db2, ConversionVerdict(result))
  {
    hide ConvertCheckoutIntentToBox, RecordInitialPaidOrder, Sound, PaysFor, HasReservation, IsMatched, IsTaken;
    FrontExactly(db, order);
    OnlyFoundAreMatched(db, order);
    OneReservation(db, order, i, PaidOrderFront(db, order).intent);
    PaidIsThere(db, order, i);
    MatchedExactly(db, order, i);
    RecordingExactly(db.intents[i], order);
    RecordKeepsSound(db, i, order, termsAt);
    PaidIsRecorded(db, i, order, termsAt);
    db1 := RecordInitialPaidOrder(
      db, i, order.checkout.value, order.customer, order.id, order.subscription.value, termsAt).0;
    ConversionDecides(db1, i, order.customer, order.id, order.subscription.value, order.soldPlan.value, now);
  }

  lemma PaidIsRecorded(db: Db, i: nat, order: Order, termsAt: int)
    requires i < |db.intents| && order.checkout.Some? && order.subscription.Some?
    requires db.intents[i].box.None? && !IsTaken(db.intents[i], order)
    ensures RecordInitialPaidOrder(db, i, order.checkout.value, order.customer, order.id, order.subscription.value, termsAt)
            == (db.(intents := db.intents[i := Paid(db.intents[i], order, termsAt)]), Recorded)
  {
    hide RecordInitialPaidOrder;
    RecordingWrites(db, i, order.checkout.value, order.customer, order.id, order.subscription.value, termsAt);
  }

  /** The same of the steps of a delivery in pieces: recording writes the payment of its
    * own order, and a conversion that makes a box makes the one its order is for. */
  lemma StepsWriteTheirOrder(w: World, f: Flight, termsAt: int, now: int)
    requires Sound(w.db) && FlightFits(w.db, f) && w.db.intents[f.intent].box.None?
    ensures var row := w.db.intents[f.intent];
            f in w.underway && !IsTaken(row, f.order) ==>
              Apply(w, RecordOrder(f, termsAt)) ==
              w.(db := w.db.(intents := w.db.intents[f.intent := Paid(row, f.order, termsAt)]), cleared := w.cleared + {f})
    ensures var row, db' := w.db.intents[f.intent], Apply(w, ConvertOrder(f, now)).db;
            |db'.boxes| > |w.db.boxes| ==>
              db'.boxes == w.db.boxes + [Box(row.user, row.slug, f.order.soldPlan.value, Creating, f.order.subscription)]
              && |db'.intents| == |w.db.intents| && db'.intents[f.intent].customer == Some(f.order.customer)
  {
    hide ConvertCheckoutIntentToBox, RecordInitialPaidOrder, Sound, IsTaken;
    var order := f.order;
    if !IsTaken(w.db.intents[f.intent], order) {
      PaidIsRecorded(w.db, f.intent, order, termsAt);
    }
    var (db', result) := ConvertCheckoutIntentToBox(
      w.db, f.intent, order.customer, order.id, order.subscription.value, order.soldPlan.value, now);
    ConversionDecides(w.db, f.intent, order.customer, order.id, order.subscription.value, order.soldPlan.value, now);
    if result.Fulfilled? {
      BoxIsMade(w.db, f.intent, order.customer, order.id, order.subscription.value, order.soldPlan.value, now);
    } else {
      RefusalMovesOneRow(w.db, f.intent, order.customer, order.id, order.subscription.value, order.soldPlan.value, now);
    }
  }

  // ---- Every delivery of every run ----

  predicate BoundTo(db: Db, box: nat) {
    exists i :: 0 <= i < |db.intents| && db.intents[i].box == Some(box)
  }

  predicate RefusedRowOf(db: Db, i: nat, reason: ReleaseReason) {
    i < |db.intents| && db.intents[i].box.None? && db.intents[i].releaseReason == Some(reason)
  }

  predicate MoneyReturned(db: Db) {
    exists i :: 0 <= i < |db.intents| && db.intents[i].box.None? && db.intents[i].releaseReason == Some(OrderFullyRefunded)
  }

  predicate IsPaidPlanOrder(order: Order) {
    IsPlanOrder(order) && order.checkout.Some? && order.termsAccepted
  }

  /** What the key of a refund says. */
  predicate KeyFits(db: Db, order: Order, key: RefundKey) {
    match key
    case UnsellableProduct(id) => id == order.id && IsSubscriptionOrder(order) && order.soldPlan.None?
    case UnmatchedCheckout(id) => id == order.id && IsPlanOrder(order)
    case MissingTerms(id) => id == order.id && IsPlanOrder(order) && order.checkout.Some? && !order.termsAccepted
    case IntentMismatch(id) => id == order.id && IsPaidPlanOrder(order)
    case SaleRefused(reason, i) => IsPaidPlanOrder(order) && RefusedRowOf(db, i, reason) && IsUnfulfillable(Some(reason))
  }

  /** What a verdict says, of the order and of the tables as they are. */
  predicate VerdictFits(db: Db, order: Order, verdict: Verdict) {
    match verdict
    case NotASale => !order.opensSubscription
    case NeedsPerson => order.opensSubscription && order.subscription.None?
    case BoxDelivered(box) => IsPaidPlanOrder(order) && BoundTo(db, box)
    case MoneyAlreadyBack => IsPaidPlanOrder(order) && MoneyReturned(db)
    case Refunded(key) => KeyFits(db, order, key)
  }

  predicate FlightFits(db: Db, f: Flight) {
    IsPaidPlanOrder(f.order) && f.intent < |db.intents|
  }

  ghost predicate AllFit(w: World) {
    && (forall f :: f in w.underway ==> FlightFits(w.db, f))
    && w.cleared <= w.underway
    && (forall k :: 0 <= k < |w.outcomes| ==> VerdictFits(w.db, w.outcomes[k].order, w.outcomes[k].verdict))
  }

  ghost predicate FinalDb(db: Db, db': Db) {
    && |db.intents| <= |db'.intents|
    && forall i :: 0 <= i < |db.intents| ==> CheckoutFinality.Final(db.intents[i], db'.intents[i])
  }

  lemma VerdictStillFits(db: Db, db': Db, order: Order, verdict: Verdict)
    requires Sound(db) && FinalDb(db, db') && VerdictFits(db, order, verdict)
    ensures VerdictFits(db', order, verdict)
  {
    if verdict.BoxDelivered? {
      var i :| 0 <= i < |db.intents| && db.intents[i].box == Some(verdict.box);
      assert CheckoutFinality.Final(db.intents[i], db'.intents[i]);
    } else if verdict.MoneyAlreadyBack? {
      var i :| 0 <= i < |db.intents| && db.intents[i].box.None? && db.intents[i].releaseReason == Some(OrderFullyRefunded);
      assert CheckoutFinality.Final(db.intents[i], db'.intents[i]);
    } else if verdict.Refunded? && verdict.key.SaleRefused? {
      assert CheckoutFinality.Final(db.intents[verdict.key.intent], db'.intents[verdict.key.intent]);
    }
  }

  lemma FrontFits(db: Db, order: Order)
    ensures var front := PaidOrderFront(db, order);
            && (front.Settled? ==> VerdictFits(db, order, front.verdict))
            && (front.Proceed? ==> FlightFits(db, Flight(order, front.intent)))
  {
    FrontExactly(db, order);
  }

  lemma ConversionFits(db: Db, f: Flight, now: int)
    requires Sound(db) && FlightFits(db, f)
    ensures var (db', result) := ConvertCheckoutIntentToBox(
              db, f.intent, f.order.customer, f.order.id, f.order.subscription.value, f.order.soldPlan.value, now);
            (result.Fulfilled? || result.Unfulfilled?) && VerdictFits(db', f.order, ConversionVerdict(result))
  {
    hide ConvertCheckoutIntentToBox, Sound;
    var order := f.order;
    AnswerStands(db, f.intent, order.customer, order.id, order.subscription.value, order.soldPlan.value, now);
    RefusalIsTerminal(db, f.intent, order.customer, order.id, order.subscription.value, order.soldPlan.value, now);
    var (db', result) :=
      ConvertCheckoutIntentToBox(db, f.intent, order.customer, order.id, order.subscription.value, order.soldPlan.value, now);
    if result.Fulfilled? {
      assert db'.intents[f.intent].box == Some(result.box);
    } else if result.refund.None? {
      assert db'.intents[f.intent].releaseReason == Some(OrderFullyRefunded);
    }
  }

  lemma RefusalIsTerminal(db: Db, i: nat, customer: nat, order: nat, subscription: nat, plan: BoxPlan, now: int)
    requires i < |db.intents|
    ensures var result := ConvertCheckoutIntentToBox(db, i, customer, order, subscription, plan, now).1;
            result.Unfulfilled? && result.refund.Some? ==> IsUnfulfillable(Some(result.refund.value.reason))
  {
    hide ReadCapacityUsage, IsSlugAvailable, StartOperation;
  }

  lemma StepFits(w: World, a: Action)
    requires Sound(w.db) && AllFit(w)
    ensures AllFit(Apply(w, a))
  {
    hide Sound, ConvertCheckoutIntentToBox, RecordInitialPaidOrder, PaidOrderFront, VerdictFits, CheckoutFinality.Final;
    var w' := Apply(w, a);
    CheckoutFinality.ApplyIsFinal(w, a);
    forall k | 0 <= k < |w.outcomes| ensures VerdictFits(w'.db, w.outcomes[k].order, w.outcomes[k].verdict) {
      VerdictStillFits(w.db, w'.db, w.outcomes[k].order, w.outcomes[k].verdict);
    }
    if a.OpenOrder? {
      FrontFits(w.db, a.order);
    } else if a.RecordOrder? {
      if a.flight in w.underway {
        MismatchFits(w'.db, a.flight.order);
      }
    } else if a.ConvertOrder? {
      if a.flight in w.cleared {
        ConversionFits(w.db, a.flight, a.now);
      }
    } else {
      OnlyTablesMove(w, a);
    }
  }

  lemma OnlyTablesMove(w: World, a: Action)
    requires !a.OpenOrder? && !a.RecordOrder? && !a.ConvertOrder?
    ensures Apply(w, a) == w.(db := Apply(w, a).db)
  {
    hide ReserveCheckoutIntent, GrantComp, StartOperation, SettleOperation, SwapSlug;
  }

  lemma MismatchFits(db: Db, order: Order)
    requires IsPaidPlanOrder(order)
    ensures VerdictFits(db, order, Refunded(IntentMismatch(order.id)))
  {}

  lemma {:induction false} RunsFit(settings: Settings, actions: seq<Action>)
    requires ValidSettings(settings)
    ensures AllFit(Exec(Deployed(settings), actions))
  {
    if actions != [] {
      RunsFit(settings, actions[..|actions| - 1]);
      CheckoutRuns.RunsStaySound(settings, actions[..|actions| - 1]);
      StepFits(Exec(Deployed(settings), actions[..|actions| - 1]), actions[|actions| - 1]);
    }
  }

  /** No delivery is ignored: opening one either ends it there or puts it under way for
    * the reservation it pays for; recording lets it pass, or ends it if that reservation
    * is taken; a delivery that has passed ends when it is converted. */
  lemma EveryDeliveryAnswers(w: World, order: Order, f: Flight, termsAt: int, now: int)
    requires Sound(w.db) && AllFit(w)
    ensures var w', sale := Apply(w, OpenOrder(order)), IsPlanOrder(order) && HasReservation(w.db, order) && order.termsAccepted;
            && order in w'.seen && w'.db == w.db && w'.cleared == w.cleared
            && (!sale ==> |w'.outcomes| == |w.outcomes| + 1 && w'.outcomes[..|w.outcomes|] == w.outcomes
                          && w'.outcomes[|w.outcomes|].order == order && w'.underway == w.underway)
            && (sale ==> w'.outcomes == w.outcomes
                         && exists i :: 0 <= i < |w.db.intents| && PaysFor(w.db, order, i)
                                        && w'.underway == w.underway + {Flight(order, i)})
    ensures f in w.underway ==>
              var w' := Apply(w, RecordOrder(f, termsAt));
              if IsTaken(w.db.intents[f.intent], f.order)
              then w' == w.(outcomes := w.outcomes + [Outcome(f.order, Refunded(IntentMismatch(f.order.id)))])
              else w'.cleared == w.cleared + {f} && w'.outcomes == w.outcomes
    ensures f in w.cleared ==>
              var w' := Apply(w, ConvertOrder(f, now));
              && |w'.outcomes| == |w.outcomes| + 1 && w'.outcomes[..|w.outcomes|] == w.outcomes
              && w'.outcomes[|w.outcomes|].order == f.order
  {
    hide ConvertCheckoutIntentToBox, RecordInitialPaidOrder, PaidOrderFront, Sound, PaysFor, HasReservation, IsTaken,
         VerdictFits, PaidOrderRecordingStatus;
    FrontExactly(w.db, order);
    FrontFits(w.db, order);
    if f in w.underway {
      RecordedStatus(w.db, f.intent, f.order, termsAt);
      RecordingExactly(w.db.intents[f.intent], f.order);
      RefusedRecordingWrites(w.db, f, termsAt);
    }
    if f in w.cleared {
      ConversionDecides(w.db, f.intent, f.order.customer, f.order.id, f.order.subscription.value, f.order.soldPlan.value, now);
    }
  }

  lemma RefusedRecordingWrites(db: Db, f: Flight, termsAt: int)
    requires FlightFits(db, f)
    ensures var order := f.order;
            var (db', status) := RecordInitialPaidOrder(
              db, f.intent, order.checkout.value, order.customer, order.id, order.subscription.value, termsAt);
            status != Recorded ==> db' == db
  {}

  /** In every run, however deliveries interleave and whatever is attached late: a
    * delivery ends as no sale, for a person, or as unsellable exactly when its order says
    * so; any other ends as a refund under its own facts, as money already back, or as a
    * box - of an order with a plan, a checkout and accepted terms, bound to a
    * reservation to this day. */
  lemma EveryVerdictFits(settings: Settings, actions: seq<Action>, k: nat)
    requires ValidSettings(settings) && k < |Exec(Deployed(settings), actions).outcomes|
    ensures var w := Exec(Deployed(settings), actions);
            var order, v := w.outcomes[k].order, w.outcomes[k].verdict;
            && VerdictFits(w.db, order, v)
            && (v == NotASale <==> !order.opensSubscription)
            && (v == NeedsPerson <==> order.opensSubscription && order.subscription.None?)
            && (v == Refunded(UnsellableProduct(order.id)) <==> IsSubscriptionOrder(order) && order.soldPlan.None?)
            && (IsPlanOrder(order) ==> v.BoxDelivered? || v.MoneyAlreadyBack? || (v.Refunded? && !v.key.UnsellableProduct?))
  {
    RunsFit(settings, actions);
  }

  // ---- Refunds and closed checkouts ----

  /** The reservation a refunded order was for: the one it names, if that is there, and
    * otherwise the oldest with its checkout. */
  ghost predicate WasFor(db: Db, order: RefundedOrder, i: nat) {
    && i < |db.intents|
    && if order.namedIntent.Some? && order.namedIntent.value < |db.intents| then order.namedIntent.value == i
       else order.checkout.Some? && IsOldestOf(db, order.checkout.value, i)
  }

  lemma RefundFinds(db: Db, order: RefundedOrder, i: nat)
    ensures IntentOfRefund(db, order) == Some(i) <==> WasFor(db, order, i)
  {
    if order.checkout.Some? && i < |db.intents| {
      OldestOf(db.intents, order.checkout.value, i);
    }
  }

  /** A refund in full of a subscription's order ends the reservation it was for, if that
    * is still open, as refunded; a partial one, and one of anything else, moves nothing. */
  lemma FullRefundEnds(db: Db, order: RefundedOrder)
    ensures var db' := RefundedAtOnce(db, order);
            && (order.refundableAmount > 0 || order.subscription.None? ==> db' == db)
            && (order.refundableAmount == 0 && order.subscription.Some? ==>
                  && (forall i :: 0 <= i < |db.intents| && WasFor(db, order, i) ==>
                        db' == if IsOpenRow(db.intents[i])
                               then db.(intents := db.intents[i := Ended(db.intents[i], OrderFullyRefunded, Released)]) else db)
                  && ((forall i :: 0 <= i < |db.intents| ==> !WasFor(db, order, i)) ==> db' == db))
  {
    hide WasFor, IntentOfRefund, ReleaseCheckoutIntent;
    forall i: nat {:trigger WasFor(db, order, i)} ensures ReleaseCheckoutIntent(db, i, OrderFullyRefunded) ==
      if i < |db.intents| && IsOpenRow(db.intents[i])
      then db.(intents := db.intents[i := Ended(db.intents[i], OrderFullyRefunded, Released)]) else db
    {
      ReleaseEnds(db, i, OrderFullyRefunded);
    }
    forall i: nat ensures IntentOfRefund(db, order) == Some(i) <==> WasFor(db, order, i) {
      RefundFinds(db, order, i);
    }
    RefundInRange(db, order);
  }

  lemma RefundInRange(db: Db, order: RefundedOrder)
    ensures IntentOfRefund(db, order).Some? ==> IntentOfRefund(db, order).value < |db.intents|
  {}

  /** An update of a checkout that expired or failed ends the oldest reservation of it, if
    * that is open, under its own reason, as expired only when it did expire; any other
    * update moves that reservation to the plan now in the checkout, if it sells one. */
  lemma UpdateMeans(db: Db, checkout: nat, soldPlan: Option<BoxPlan>, i: nat)
    requires IsOldestOf(db, checkout, i)
    ensures var row := db.intents[i];
            && UpdatedAtOnce(db, checkout, CheckoutExpired, soldPlan) ==
               (if IsOpenRow(row) then db.(intents := db.intents[i := Ended(row, OtherReason("checkout_expired"), Expired)]) else db)
            && UpdatedAtOnce(db, checkout, CheckoutFailed, soldPlan) ==
               (if IsOpenRow(row) then db.(intents := db.intents[i := Ended(row, OtherReason("checkout_failed"), Released)]) else db)
            && UpdatedAtOnce(db, checkout, CheckoutOpen, soldPlan) ==
               (if IsOpenRow(row) && soldPlan.Some? then db.(intents := db.intents[i := row.(plan := soldPlan.value)]) else db)
  {
    hide ReleaseByCheckout, RecordPlanByCheckout, RecordCheckoutPlan;
    ReleaseByCheckoutEnds(db, checkout, OtherReason("checkout_expired"), true, i);
    ReleaseByCheckoutEnds(db, checkout, OtherReason("checkout_failed"), false, i);
    if soldPlan.Some? {
      PlanFollows(db, i, soldPlan.value, checkout);
    }
  }

  /** An update of a checkout nobody has reserved moves nothing. */
  lemma UnknownUpdate(db: Db, checkout: nat, status: CheckoutStatus, soldPlan: Option<BoxPlan>)
    requires forall i :: 0 <= i < |db.intents| ==> db.intents[i].checkout != Some(checkout)
    ensures UpdatedAtOnce(db, checkout, status, soldPlan) == db
  {
    NothingSelected(db.intents, WithCheckout(checkout));
  }
}
