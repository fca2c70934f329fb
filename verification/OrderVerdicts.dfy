/** One paid order, one verdict: however often an order is delivered and whatever
  * happens in between, every delivery that ends ends the same way - and what
  * breaks that. */
module OrderVerdicts {
  import opened Tables
  import opened Vocabulary
  import opened Store
  import opened SlugAvailability
  import opened Capacity
  import opened Operations
  import opened Checkout
  import opened CheckoutInvariant
  import opened CheckoutSteps
  import opened Webhooks
  import opened CheckoutRuns

  // ---- What a row remembers ----

  predicate Mismatched(row: Intent, order: Order)
    requires order.checkout.Some? && order.subscription.Some?
  {
    PaidOrderRecordingStatus(row, order.checkout.value, order.id, order.subscription.value)
      in {CheckoutMismatch, OrderMismatch}
  }

  /** The row is bound to this order. */
  predicate Bound(row: Intent, order: Order) {
    row.order == Some(order.id) && row.subscription == order.subscription && row.checkout == order.checkout
  }

  /** What every further conversion of the row answers, once it has an answer. */
  function RowVerdict(row: Intent, i: nat): Option<Verdict> {
    if row.box.Some? then Some(BoxDelivered(row.box.value))
    else if IsUnfulfillable(row.releaseReason) then
      Some(if row.releaseReason.value.OrderFullyRefunded? then MoneyAlreadyBack
           else Refunded(SaleRefused(row.releaseReason.value, i)))
    else None
  }

  /** Billing facts stay once written, and an answer stays the answer. */
  predicate Remembers(row: Intent, row': Intent) {
    && (row.checkout.Some? ==> row'.checkout == row.checkout)
    && (row.order.Some? ==> row'.order == row.order)
    && (row.subscription.Some? ==> row'.subscription == row.subscription)
    && (row.box.Some? ==> row'.box == row.box)
    && (row.box.None? && IsUnfulfillable(row.releaseReason) ==> row'.box.None? && row'.releaseReason == row.releaseReason)
  }

  predicate AllRemember(db: Db, db': Db) {
    && |db.intents| <= |db'.intents|
    && forall i :: 0 <= i < |db.intents| ==> Remembers(db.intents[i], db'.intents[i])
  }

  lemma RememberedVerdict(row: Intent, row': Intent, i: nat)
    requires Remembers(row, row') && RowVerdict(row, i).Some?
    ensures RowVerdict(row', i) == RowVerdict(row, i)
  {}

  // ---- What the world keeps ----

  /** An order names a reservation only after that reservation exists. */
  predicate Causal(db: Db, order: Order) {
    order.namedIntent.Some? ==> order.namedIntent.value < |db.intents|
  }

  predicate IsSale(order: Order) {
    order.opensSubscription && order.checkout.Some?
  }

  /** The orders of a checkout carry the metadata it was opened with. A checkout may
    * well have several orders, of different subscriptions and customers. */
  predicate OneNamePerCheckout(orders: set<Order>) {
    forall o, p :: o in orders && p in orders && IsSale(o) && IsSale(p) && o.checkout == p.checkout ==>
      o.namedIntent == p.namedIntent
  }

  /** The verdict is the one the tables still give. */
  predicate Explained(w: World, outcome: Outcome) {
    var order := outcome.order;
    match PaidOrderFront(w.db, order)
    case Settled(verdict) => outcome.verdict == verdict
    case Proceed(i) =>
      && i < |w.db.intents| && order.checkout.Some? && order.subscription.Some?
      && if Flight(order, i) in w.cleared then RowVerdict(w.db.intents[i], i) == Some(outcome.verdict)
         else Mismatched(w.db.intents[i], order) && outcome.verdict == Refunded(IntentMismatch(order.id))
  }

  predicate FlightSound(w: World, f: Flight) {
    f.order in w.seen && PaidOrderFront(w.db, f.order) == Proceed(f.intent) && f.intent < |w.db.intents|
  }

  /** Only a recorded payment makes a box. */
  predicate BilledBoxes(db: Db) {
    forall i :: 0 <= i < |db.intents| && db.intents[i].box.Some? ==>
      db.intents[i].order.Some? && db.intents[i].subscription.Some? && db.intents[i].checkout.Some?
  }

  predicate WorldSound(w: World) {
    && OneNamePerCheckout(w.seen)
    && BilledBoxes(w.db)
    && (forall o :: o in w.seen ==> Causal(w.db, o))
    && (forall f :: f in w.underway ==> FlightSound(w, f))
    && w.cleared <= w.underway
    && (forall f :: f in w.cleared ==> f.intent < |w.db.intents| && Bound(w.db.intents[f.intent], f.order))
    && (forall k :: 0 <= k < |w.outcomes| ==> w.outcomes[k].order in w.seen && Explained(w, w.outcomes[k]))
  }

  // ---- The front decision does not move ----

  /** No reservation gains or loses the checkout of a sale already seen. */
  predicate CheckoutColumnKept(orders: set<Order>, db: Db, db': Db) {
    && |db.intents| <= |db'.intents|
    && forall o, i :: o in orders && IsSale(o) && o.namedIntent.None? && 0 <= i < |db'.intents| ==>
         (db'.intents[i].checkout == o.checkout <==> i < |db.intents| && db.intents[i].checkout == o.checkout)
  }

  lemma FrontKept(orders: set<Order>, db: Db, db': Db, order: Order)
    requires CheckoutColumnKept(orders, db, db') && order in orders && Causal(db, order)
    ensures PaidOrderFront(db', order) == PaidOrderFront(db, order)
  {}

  lemma KeptOutcome(w: World, w': World, outcome: Outcome)
    requires Explained(w, outcome) && outcome.order in w.seen
    requires PaidOrderFront(w'.db, outcome.order) == PaidOrderFront(w.db, outcome.order)
    requires AllRemember(w.db, w'.db)
    requires forall f :: f in w'.cleared && f !in w.cleared ==> f.order != outcome.order
    requires w.cleared <= w'.cleared
    ensures Explained(w', outcome)
  {}

  /** Steps that only move the tables keep every delivery and every verdict. */
  lemma TablesMoved(w: World, db': Db)
    requires WorldSound(w) && AllRemember(w.db, db') && CheckoutColumnKept(w.seen, w.db, db') && BilledBoxes(db')
    ensures WorldSound(w.(db := db'))
  {
    var w' := w.(db := db');
    forall f | f in w'.underway ensures FlightSound(w', f) {
      assert FlightSound(w, f);
      FrontKept(w.seen, w.db, db', f.order);
    }
    forall k | 0 <= k < |w'.outcomes| ensures Explained(w', w'.outcomes[k]) {
      assert Explained(w, w.outcomes[k]);
      FrontKept(w.seen, w.db, db', w.outcomes[k].order);
      KeptOutcome(w, w', w.outcomes[k]);
    }
    forall f | f in w'.cleared ensures Bound(db'.intents[f.intent], f.order) {
      assert f in w.cleared && FlightSound(w, f);
      assert Remembers(w.db.intents[f.intent], db'.intents[f.intent]);
    }
  }

  // ---- Steps ----

  /** What a step outside payment may do to a row: end it if it is active. */
  predicate Gentle(row: Intent, row': Intent) {
    && row'.checkout == row.checkout && row'.order == row.order && row'.subscription == row.subscription
    && row'.box == row.box
    && (row.status != Active ==> row'.status == row.status && row'.releaseReason == row.releaseReason)
  }

  predicate GentleStep(db: Db, db': Db) {
    && |db.intents| <= |db'.intents|
    && (forall i :: 0 <= i < |db.intents| ==> Gentle(db.intents[i], db'.intents[i]))
    && (forall i :: |db.intents| <= i < |db'.intents| ==> db'.intents[i].checkout.None? && db'.intents[i].box.None?)
  }

  lemma GentleStepKeeps(w: World, db': Db)
    requires WorldSound(w) && Sound(w.db) && GentleStep(w.db, db')
    ensures WorldSound(w.(db := db'))
  {
    forall i | 0 <= i < |w.db.intents| ensures Remembers(w.db.intents[i], db'.intents[i]) {
      assert RowSound(w.db.intents[i], |w.db.boxes|) && Gentle(w.db.intents[i], db'.intents[i]);
    }
    forall o, i | o in w.seen && IsSale(o) && o.namedIntent.None? && 0 <= i < |db'.intents|
      ensures db'.intents[i].checkout == o.checkout <==> i < |w.db.intents| && w.db.intents[i].checkout == o.checkout
    {
      if i < |w.db.intents| { assert Gentle(w.db.intents[i], db'.intents[i]); }
    }
    forall i | 0 <= i < |db'.intents| && db'.intents[i].box.Some?
      ensures db'.intents[i].order.Some? && db'.intents[i].subscription.Some? && db'.intents[i].checkout.Some?
    { assert Gentle(w.db.intents[i], db'.intents[i]); }
    TablesMoved(w, db');
  }

  predicate IsPaymentStep(a: Action) {
    a.Attach? || a.OpenOrder? || a.RecordOrder? || a.ConvertOrder?
  }

  lemma SupersededIsGentle(db: Db, user: nat, n: nat)
    requires n <= |Select(db.intents, OfUser(user))|
    ensures GentleStep(db, Superseded(db, Select(db.intents, OfUser(user))[..n]))
  {}

  lemma ReserveIsGentle(db: Db, user: nat, slug: string, plan: BoxPlan, now: int)
    requires Sound(db)
    ensures GentleStep(db, ReserveCheckoutIntent(db, user, slug, plan, now).0)
  {
    hide ReadCapacityUsage, IsSlugAvailable;
    ReserveUnfolds(db, user, slug, plan, now);
    var (db', result) := ReserveCheckoutIntent(db, user, slug, plan, now);
    if result.Reserved? {
      var ids, n := Select(db.intents, OfUser(user)), YieldCount(db, user);
      SupersededIsGentle(db, user, n);
      var db1 := Superseded(db, ids[..n]);
      assert db'.intents == db1.intents + [FreshIntent(user, slug, plan, now)];
    }
  }

  lemma PlanStepsAreGentle(w: World, a: Action)
    requires a.SetPlan? || a.SetPlanByCheckout?
    ensures GentleStep(w.db, Apply(w, a).db)
  {}

  lemma ReleasesAreGentle(w: World, a: Action)
    requires a.Release? || a.CloseCheckout?
    ensures GentleStep(w.db, Apply(w, a).db)
  {}

  lemma BatchesAreGentle(w: World, a: Action)
    requires a.SweepExpired? || a.DeleteAccount?
    ensures GentleStep(w.db, Apply(w, a).db)
  {}

  lemma OtherStepsAreGentle(w: World, a: Action)
    requires Sound(w.db) && !IsPaymentStep(a)
    ensures GentleStep(w.db, Apply(w, a).db)
    ensures Apply(w, a) == w.(db := Apply(w, a).db)
  {
    hide ReadCapacityUsage, IsSlugAvailable;
    if a.Reserve? {
      ReserveIsGentle(w.db, a.user, a.slug, a.plan, a.now);
    } else if a.SetPlan? || a.SetPlanByCheckout? {
      PlanStepsAreGentle(w, a);
    } else if a.Release? || a.CloseCheckout? {
      ReleasesAreGentle(w, a);
    } else if a.SweepExpired? || a.DeleteAccount? {
      BatchesAreGentle(w, a);
    } else {
      assert Apply(w, a).db.intents == w.db.intents;
    }
  }

  // ---- Attaching a session after an order arrived ----

  /** What a fresh delivery of an order would come to, short of converting. */
  datatype Delivery = Ends(verdict: Verdict) | Refuses(intent: nat) | Accepts(intent: nat)

  function DeliveryOf(db: Db, order: Order): Delivery {
    match PaidOrderFront(db, order)
    case Settled(verdict) => Ends(verdict)
    case Proceed(i) => if Mismatched(db.intents[i], order) then Refuses(i) else Accepts(i)
  }

  /** An order refused for itself, whatever its reservation. */
  predicate OfAnotherOrder(row: Intent, order: Order) {
    (row.order.Some? && row.order != Some(order.id)) || (row.subscription.Some? && row.subscription != order.subscription)
  }

  /** Attaching `checkout` to reservation `i` stands clear of an order: of one that
    * names `i`, unless it makes or unmakes the match of their checkouts; of one that
    * is looked up by its checkout, unless it takes that checkout away from the oldest
    * reservation that has it or gives it to an older one. */
  predicate StandsClear(db: Db, i: nat, checkout: nat, order: Order)
    requires i < |db.intents|
  {
    order.checkout.Some? ==>
      var row := db.intents[i];
      if order.namedIntent.Some? then
        order.namedIntent == Some(i) && !OfAnotherOrder(row, order) ==>
          (Some(checkout) == order.checkout <==> row.checkout.None? || row.checkout == order.checkout)
      else
        var found := IntentByCheckout(db, order.checkout.value);
        if found == Some(i) then Some(checkout) == order.checkout
        else Some(checkout) == order.checkout ==> found.Some? && found.value < i
  }

  lemma OldestByCheckout(db: Db, checkout: nat, j: nat)
    requires j < |db.intents| && db.intents[j].checkout == Some(checkout)
    ensures IntentByCheckout(db, checkout).Some? && IntentByCheckout(db, checkout).value <= j
  {
    var ids := Select(db.intents, WithCheckout(checkout));
    assert j in ids;
  }

  /** The lookup after an attach that stands clear, and after one that does not. */
  lemma LookupAfterAttach(db: Db, db': Db, i: nat, checkout: nat, wanted: nat)
    requires i < |db.intents| && |db'.intents| == |db.intents| && db'.intents[i].checkout == Some(checkout)
    requires forall j :: 0 <= j < |db.intents| && j != i ==> db'.intents[j].checkout == db.intents[j].checkout
    ensures var found, found' := IntentByCheckout(db, wanted), IntentByCheckout(db', wanted);
            found' == found <==>
              if found == Some(i) then checkout == wanted else checkout == wanted ==> found.Some? && found.value < i
  {
    var found, found' := IntentByCheckout(db, wanted), IntentByCheckout(db', wanted);
    if found.Some? && (found.value != i || checkout == wanted) { OldestByCheckout(db', wanted, found.value); }
    if found'.Some? && (found'.value != i || db.intents[i].checkout == Some(wanted)) { OldestByCheckout(db, wanted, found'.value); }
    if checkout == wanted { OldestByCheckout(db', wanted, i); }
  }

  predicate IsSellable(order: Order) {
    order.opensSubscription && order.subscription.Some? && order.soldPlan.Some? && order.checkout.Some? && order.termsAccepted
  }

  function Attached(db: Db, a: Action): Db
    requires a.Attach?
  {
    AttachPolarCheckout(db, a.intent, a.checkout, a.url, a.expiresAt, a.plan, a.customer)
  }

  lemma NamedDelivery(db: Db, a: Action, order: Order)
    requires a.Attach? && a.intent < |db.intents| && Causal(db, order) && IsSellable(order) && order.namedIntent.Some?
    ensures PaidOrderFront(Attached(db, a), order) == PaidOrderFront(db, order) == Proceed(order.namedIntent.value)
    ensures DeliveryOf(Attached(db, a), order) == DeliveryOf(db, order) <==> StandsClear(db, a.intent, a.checkout, order)
  {}

  lemma LookedUpDelivery(db: Db, a: Action, order: Order)
    requires a.Attach? && a.intent < |db.intents| && IsSellable(order) && order.namedIntent.None?
    ensures DeliveryOf(Attached(db, a), order) == DeliveryOf(db, order) <==> StandsClear(db, a.intent, a.checkout, order)
  {
    var db' := Attached(db, a);
    LookupAfterAttach(db, db', a.intent, a.checkout, order.checkout.value);
    var found := IntentByCheckout(db, order.checkout.value);
    if found.Some? && StandsClear(db, a.intent, a.checkout, order) {
      assert db'.intents[found.value].checkout == db.intents[found.value].checkout;
    }
  }

  /** An attach leaves what a delivery of a sellable order would come to as it is if
    * and only if it stands clear of that order. */
  lemma AttachMovesAnOrderExactly(db: Db, a: Action, order: Order)
    requires a.Attach? && a.intent < |db.intents| && Causal(db, order) && IsSellable(order)
    ensures DeliveryOf(Attached(db, a), order) == DeliveryOf(db, order) <==> StandsClear(db, a.intent, a.checkout, order)
  {
    if order.namedIntent.Some? { NamedDelivery(db, a, order); } else { LookedUpDelivery(db, a, order); }
  }

  /** Nothing has come of the order yet: no verdict, and no recorded payment. */
  predicate Undecided(w: World, order: Order) {
    && (forall k :: 0 <= k < |w.outcomes| ==> w.outcomes[k].order != order)
    && (forall f :: f in w.cleared ==> f.order != order)
  }

  /** An attach disturbs no order that arrived: it stands clear of each, or nothing
    * has come yet of an order that names its reservation. */
  predicate Undisturbing(w: World, i: nat, checkout: nat) {
    i < |w.db.intents| ==>
      forall o :: o in w.seen ==> StandsClear(w.db, i, checkout, o) || (o.namedIntent.Some? && Undecided(w, o))
  }

  /** An attach is timely when it comes before any delivered order of that
    * reservation or of that checkout. */
  predicate TimelyAttach(w: World, intent: nat, checkout: nat) {
    && (forall o :: o in w.seen ==> o.checkout != Some(checkout))
    && (forall o :: o in w.seen ==> o.namedIntent != Some(intent))
    && (forall o :: o in w.seen && o.checkout.Some? ==>
          intent < |w.db.intents| ==> w.db.intents[intent].checkout != o.checkout)
  }

  /** A timely attach disturbs nothing. */
  lemma TimelyIsUndisturbing(w: World, intent: nat, checkout: nat)
    requires TimelyAttach(w, intent, checkout)
    ensures Undisturbing(w, intent, checkout)
  {}

  /** What Polar and the clock guarantee of one more delivery, and the one thing the
    * program does not: that an attach disturbs no order that arrived before it. */
  predicate Orderly(w: World, a: Action) {
    match a
    case OpenOrder(order) => Causal(w.db, order) && OneNamePerCheckout(w.seen + {order})
    case Attach(intent, checkout, _, _, _, _) => Undisturbing(w, intent, checkout)
    case _ => true
  }

  lemma AttachKeepsFront(w: World, a: Action, order: Order)
    requires WorldSound(w) && a.Attach? && Orderly(w, a) && order in w.seen && a.intent < |w.db.intents|
    ensures PaidOrderFront(Attached(w.db, a), order) == PaidOrderFront(w.db, order)
  {
    assert Causal(w.db, order);
    if order.checkout.Some? && order.namedIntent.None? {
      LookupAfterAttach(w.db, Attached(w.db, a), a.intent, a.checkout, order.checkout.value);
    }
  }

  lemma AttachKeepsBound(w: World, a: Action, f: Flight)
    requires WorldSound(w) && a.Attach? && Orderly(w, a) && f in w.cleared && a.intent < |w.db.intents|
    ensures Bound(Attached(w.db, a).intents[f.intent], f.order)
  {
    assert FlightSound(w, f) && Bound(w.db.intents[f.intent], f.order);
    assert !Undecided(w, f.order);
    if f.intent == a.intent {
      assert StandsClear(w.db, a.intent, a.checkout, f.order);
    }
  }

  lemma AttachKeepsOutcome(w: World, a: Action, k: nat)
    requires WorldSound(w) && a.Attach? && Orderly(w, a) && k < |w.outcomes| && a.intent < |w.db.intents|
    ensures Explained(w.(db := Attached(w.db, a)), w.outcomes[k])
  {
    var order := w.outcomes[k].order;
    assert Explained(w, w.outcomes[k]);
    AttachKeepsFront(w, a, order);
    assert !Undecided(w, order) && StandsClear(w.db, a.intent, a.checkout, order);
  }

  lemma AttachKeeps(w: World, a: Action)
    requires WorldSound(w) && a.Attach? && Orderly(w, a)
    ensures WorldSound(Apply(w, a))
  {
    if a.intent < |w.db.intents| {
      var w' := w.(db := Attached(w.db, a));
      forall o | o in w.seen ensures PaidOrderFront(w'.db, o) == PaidOrderFront(w.db, o) {
        AttachKeepsFront(w, a, o);
      }
      forall f | f in w'.underway ensures FlightSound(w', f) {
        assert FlightSound(w, f);
      }
      forall k | 0 <= k < |w'.outcomes| ensures Explained(w', w'.outcomes[k]) {
        AttachKeepsOutcome(w, a, k);
      }
      forall f | f in w'.cleared ensures Bound(w'.db.intents[f.intent], f.order) {
        AttachKeepsBound(w, a, f);
      }
    }
  }

  lemma OpenKeeps(w: World, a: Action)
    requires WorldSound(w) && a.OpenOrder? && Orderly(w, a)
    ensures WorldSound(Apply(w, a))
  {
    var w' := Apply(w, a);
    forall f | f in w'.underway ensures FlightSound(w', f) {
      if f in w.underway { assert FlightSound(w, f); }
    }
    forall k | 0 <= k < |w'.outcomes| ensures w'.outcomes[k].order in w'.seen && Explained(w', w'.outcomes[k]) {
      if k < |w.outcomes| { assert Explained(w, w.outcomes[k]); }
    }
  }

  /** An order whose delivery is newly cleared has no verdict yet. */
  lemma NewlyClearedUndecided(w: World, f: Flight)
    requires WorldSound(w) && f in w.underway && f !in w.cleared
    requires f.order.checkout.Some? && f.order.subscription.Some?
    requires !Mismatched(w.db.intents[f.intent], f.order)
    ensures forall k :: 0 <= k < |w.outcomes| ==> w.outcomes[k].order != f.order
  {}

  predicate CanRecord(w: World, f: Flight) {
    f in w.underway && f.order.checkout.Some? && f.order.subscription.Some? && f.intent < |w.db.intents|
  }

  function StatusOf(w: World, f: Flight): RecordStatus
    requires CanRecord(w, f)
  {
    PaidOrderRecordingStatus(w.db.intents[f.intent], f.order.checkout.value, f.order.id, f.order.subscription.value)
  }

  lemma RecordingKeepsColumn(w: World, f: Flight, db': Db)
    requires WorldSound(w) && CanRecord(w, f) && StatusOf(w, f) == Recorded
    requires exists termsAt: int :: db' == RecordInitialPaidOrder(w.db, f.intent, f.order.checkout.value, f.order.customer,
                                                                  f.order.id, f.order.subscription.value, termsAt).0
    ensures AllRemember(w.db, db') && CheckoutColumnKept(w.seen, w.db, db') && BilledBoxes(db')
    ensures Bound(db'.intents[f.intent], f.order)
  {}

  lemma ClearedKeeps(w: World, f: Flight, db': Db)
    requires WorldSound(w) && CanRecord(w, f) && StatusOf(w, f) in {Recorded, AlreadyFulfilled}
    requires AllRemember(w.db, db') && CheckoutColumnKept(w.seen, w.db, db') && BilledBoxes(db')
    requires Bound(db'.intents[f.intent], f.order)
    ensures WorldSound(w.(db := db', cleared := w.cleared + {f}))
  {
    TablesMoved(w, db');
    var w1, w' := w.(db := db'), w.(db := db', cleared := w.cleared + {f});
    forall g | g in w'.underway ensures FlightSound(w', g) {
      assert FlightSound(w1, g);
    }
    if f !in w.cleared { NewlyClearedUndecided(w, f); }
    forall k | 0 <= k < |w'.outcomes| ensures Explained(w', w'.outcomes[k]) {
      assert Explained(w1, w1.outcomes[k]);
    }
  }

  lemma RecordKeeps(w: World, a: Action)
    requires WorldSound(w) && Sound(w.db) && a.RecordOrder?
    ensures WorldSound(Apply(w, a))
  {
    hide ReadCapacityUsage, IsSlugAvailable;
    var w', f := Apply(w, a), a.flight;
    if f in w.underway { assert FlightSound(w, f); }
    if CanRecord(w, f) {
      if StatusOf(w, f) == Recorded {
        RecordingKeepsColumn(w, f, w'.db);
        ClearedKeeps(w, f, w'.db);
      } else if StatusOf(w, f) == AlreadyFulfilled {
        assert forall i :: 0 <= i < |w.db.intents| ==> Remembers(w.db.intents[i], w.db.intents[i]);
        ClearedKeeps(w, f, w.db);
      } else {
        assert f !in w.cleared;
        forall g | g in w'.underway ensures FlightSound(w', g) { assert FlightSound(w, g); }
        forall k | 0 <= k < |w'.outcomes| ensures w'.outcomes[k].order in w'.seen && Explained(w', w'.outcomes[k]) {
          if k < |w.outcomes| { assert Explained(w, w.outcomes[k]); }
        }
      }
    }
  }

  /** A conversion leaves the row with the answer it gave. */
  lemma ConversionAnswers(db: Db, i: nat, customer: nat, order: nat, subscription: nat, plan: BoxPlan, now: int)
    requires Sound(db) && i < |db.intents| && db.intents[i].subscription == Some(subscription)
    ensures var (db', result) := ConvertCheckoutIntentToBox(db, i, customer, order, subscription, plan, now);
            && (result.Fulfilled? || result.Unfulfilled?)
            && |db'.intents| == |db.intents|
            && RowVerdict(db'.intents[i], i) == Some(ConversionVerdict(result))
            && Remembers(db.intents[i], db'.intents[i])
            && db'.intents[i].order == db.intents[i].order
            && db'.intents[i].checkout == db.intents[i].checkout
            && db'.intents[i].subscription == db.intents[i].subscription
            && forall j :: 0 <= j < |db.intents| && j != i ==> db'.intents[j] == db.intents[j]
  {
    hide ReadCapacityUsage, IsSlugAvailable;
    ConversionUnfolds(db, i, customer, order, subscription, plan, now);
  }

  lemma AppendedOutcome(w: World, outcome: Outcome)
    requires WorldSound(w) && outcome.order in w.seen && Explained(w, outcome)
    ensures WorldSound(w.(outcomes := w.outcomes + [outcome]))
  {}

  lemma ConvertedTables(w: World, f: Flight, now: int)
    requires WorldSound(w) && Sound(w.db) && f in w.cleared
    requires f.order.subscription.Some? && f.order.soldPlan.Some?
    ensures var order := f.order;
            var (db', result) := ConvertCheckoutIntentToBox(
              w.db, f.intent, order.customer, order.id, order.subscription.value, order.soldPlan.value, now);
            && WorldSound(w.(db := db'))
            && (result.Fulfilled? || result.Unfulfilled?)
            && Explained(w.(db := db'), Outcome(order, ConversionVerdict(result)))
  {
    hide ReadCapacityUsage, IsSlugAvailable;
    var order := f.order;
    assert FlightSound(w, f) && Bound(w.db.intents[f.intent], order);
    ConversionAnswers(w.db, f.intent, order.customer, order.id, order.subscription.value, order.soldPlan.value, now);
    var db' := ConvertCheckoutIntentToBox(
      w.db, f.intent, order.customer, order.id, order.subscription.value, order.soldPlan.value, now).0;
    assert forall i :: 0 <= i < |w.db.intents| ==> Remembers(w.db.intents[i], db'.intents[i]);
    TablesMoved(w, db');
    FrontKept(w.seen, w.db, db', order);
  }

  lemma ConvertKeeps(w: World, a: Action)
    requires WorldSound(w) && Sound(w.db) && a.ConvertOrder?
    ensures WorldSound(Apply(w, a))
  {
    var f, order := a.flight, a.flight.order;
    if f in w.cleared && order.subscription.Some? && order.soldPlan.Some? {
      ConvertedTables(w, f, a.now);
      var (db', result) := ConvertCheckoutIntentToBox(
        w.db, f.intent, order.customer, order.id, order.subscription.value, order.soldPlan.value, a.now);
      assert FlightSound(w, f);
      AppendedOutcome(w.(db := db'), Outcome(order, ConversionVerdict(result)));
    }
  }

  lemma ApplyKeepsWorld(w: World, a: Action)
    requires WorldSound(w) && Sound(w.db) && Orderly(w, a)
    ensures WorldSound(Apply(w, a))
  {
    if a.Attach? { AttachKeeps(w, a); }
    else if a.OpenOrder? { OpenKeeps(w, a); }
    else if a.RecordOrder? { RecordKeeps(w, a); }
    else if a.ConvertOrder? { ConvertKeeps(w, a); }
    else {
      OtherStepsAreGentle(w, a);
      GentleStepKeeps(w, Apply(w, a).db);
    }
  }

  // ---- Runs ----

  predicate OrderlyRun(w: World, actions: seq<Action>) {
    actions == [] ||
    (OrderlyRun(w, actions[..|actions| - 1])
     && Orderly(Exec(w, actions[..|actions| - 1]), actions[|actions| - 1]))
  }

  lemma {:induction false} OrderlyRunsStaySound(settings: Settings, actions: seq<Action>)
    requires ValidSettings(settings) && OrderlyRun(Deployed(settings), actions)
    ensures WorldSound(Exec(Deployed(settings), actions))
  {
    if actions != [] {
      var before := actions[..|actions| - 1];
      OrderlyRunsStaySound(settings, before);
      RunsStaySound(settings, before);
      ApplyKeepsWorld(Exec(Deployed(settings), before), actions[|actions| - 1]);
    }
  }

  /** Over every orderly run, all deliveries of one order that reach a verdict
    * reach the same one: the same box, or the same refund under the same key, or
    * none. */
  lemma OneVerdictPerOrder(settings: Settings, actions: seq<Action>, j: nat, k: nat)
    requires ValidSettings(settings) && OrderlyRun(Deployed(settings), actions)
    requires var outcomes := Exec(Deployed(settings), actions).outcomes;
             j < |outcomes| && k < |outcomes| && outcomes[j].order == outcomes[k].order
    ensures var outcomes := Exec(Deployed(settings), actions).outcomes;
            outcomes[j].verdict == outcomes[k].verdict
  {
    OrderlyRunsStaySound(settings, actions);
    var w := Exec(Deployed(settings), actions);
    assert Explained(w, w.outcomes[j]) && Explained(w, w.outcomes[k]);
  }

  /** Over every orderly run a reservation is bound to one order, one subscription
    * and one checkout: two cleared deliveries on it agree on all three. */
  lemma OneOrderPerReservation(settings: Settings, actions: seq<Action>, f: Flight, g: Flight)
    requires ValidSettings(settings) && OrderlyRun(Deployed(settings), actions)
    requires var w := Exec(Deployed(settings), actions); f in w.cleared && g in w.cleared && f.intent == g.intent
    ensures f.order.id == g.order.id && f.order.subscription == g.order.subscription && f.order.checkout == g.order.checkout
  {
    OrderlyRunsStaySound(settings, actions);
    var w := Exec(Deployed(settings), actions);
    assert FlightSound(w, f) && FlightSound(w, g);
    assert Bound(w.db.intents[f.intent], f.order) && Bound(w.db.intents[g.intent], g.order);
  }

}
