/** A session attached after an order arrived: exactly when the next delivery of that
  * order ends otherwise than the last. */
module LateAttach {
  import opened Tables
  import opened Vocabulary
  import opened Store
  import opened SlugAvailability
  import opened Capacity
  import opened Operations
  import opened Checkout
  import opened CheckoutInvariant
  import opened CheckoutSteps
  import opened Webhooks
  import opened CheckoutRuns
  import opened OrderVerdicts

  /** A whole delivery of the order, in its three transactions. */
  function Redelivered(w: World, f: Flight, termsAt: int, now: int): World {
    Apply(Apply(Apply(w, OpenOrder(f.order)), RecordOrder(f, termsAt)), ConvertOrder(f, now))
  }

  /** Two deliveries of the order have ended differently. */
  predicate TwoVerdicts(w: World, order: Order) {
    exists j, k :: 0 <= j < |w.outcomes| && 0 <= k < |w.outcomes|
                   && w.outcomes[j].order == order && w.outcomes[k].order == order
                   && w.outcomes[j].verdict != w.outcomes[k].verdict
  }

  predicate AllEnd(w: World, order: Order, verdict: Verdict) {
    forall k :: 0 <= k < |w.outcomes| && w.outcomes[k].order == order ==> w.outcomes[k].verdict == verdict
  }

  lemma OneEndIsOneVerdict(w: World, order: Order, verdict: Verdict)
    requires AllEnd(w, order, verdict)
    ensures !TwoVerdicts(w, order)
  {}

  // ---- The three transactions of a delivery ----

  lemma OpenedAgain(w: World, f: Flight)
    requires PaidOrderFront(w.db, f.order) == Proceed(f.intent)
    ensures Apply(w, OpenOrder(f.order)) == w.(seen := w.seen + {f.order}, underway := w.underway + {f})
  {}

  lemma RefusedRecording(w: World, f: Flight, termsAt: int)
    requires f in w.underway && IsSellable(f.order) && f.intent < |w.db.intents| && Mismatched(w.db.intents[f.intent], f.order)
    ensures Apply(w, RecordOrder(f, termsAt)) ==
            w.(outcomes := w.outcomes + [Outcome(f.order, Refunded(IntentMismatch(f.order.id)))])
  {}

  lemma AcceptedRecording(w: World, f: Flight, termsAt: int)
    requires f in w.underway && IsSellable(f.order) && f.intent < |w.db.intents| && !Mismatched(w.db.intents[f.intent], f.order)
    requires BilledBoxes(w.db)
    ensures var w' := Apply(w, RecordOrder(f, termsAt));
            && f in w'.cleared && w'.outcomes == w.outcomes && f.intent < |w'.db.intents|
            && w'.db.intents[f.intent].subscription == f.order.subscription
            && RowVerdict(w'.db.intents[f.intent], f.intent) == RowVerdict(w.db.intents[f.intent], f.intent)
  {}

  lemma UnclearedConversion(w: World, f: Flight, now: int)
    requires f !in w.cleared
    ensures Apply(w, ConvertOrder(f, now)) == w
  {}

  /** A conversion ends in the verdict its row gives, and never as a mismatch. */
  lemma ClearedConversion(w: World, f: Flight, now: int)
    requires Sound(w.db) && f in w.cleared && IsSellable(f.order) && f.intent < |w.db.intents|
    requires w.db.intents[f.intent].subscription == f.order.subscription
    ensures var w' := Apply(w, ConvertOrder(f, now));
            && |w'.outcomes| == |w.outcomes| + 1
            && w'.outcomes == w.outcomes + [w'.outcomes[|w.outcomes|]]
            && w'.outcomes[|w.outcomes|].order == f.order
            && w'.outcomes[|w.outcomes|].verdict != Refunded(IntentMismatch(f.order.id))
            && (RowVerdict(w.db.intents[f.intent], f.intent).Some? ==>
                  w'.outcomes[|w.outcomes|].verdict == RowVerdict(w.db.intents[f.intent], f.intent).value)
  {
    var order := f.order;
    hide ReadCapacityUsage, IsSlugAvailable;
    ConversionAnswers(w.db, f.intent, order.customer, order.id, order.subscription.value, order.soldPlan.value, now);
    if RowVerdict(w.db.intents[f.intent], f.intent).Some? {
      ConversionRemembers(w.db, f.intent, order.customer, order.id, order.subscription.value, order.soldPlan.value, now);
    }
  }

  lemma ConversionRemembers(db: Db, i: nat, customer: nat, order: nat, subscription: nat, plan: BoxPlan, now: int)
    requires Sound(db) && i < |db.intents| && db.intents[i].subscription == Some(subscription)
    requires RowVerdict(db.intents[i], i).Some?
    ensures var (db', result) := ConvertCheckoutIntentToBox(db, i, customer, order, subscription, plan, now);
            (result.Fulfilled? || result.Unfulfilled?) && ConversionVerdict(result) == RowVerdict(db.intents[i], i).value
  {
    ConversionAnswers(db, i, customer, order, subscription, plan, now);
    var db' := ConvertCheckoutIntentToBox(db, i, customer, order, subscription, plan, now).0;
    RememberedVerdict(db.intents[i], db'.intents[i], i);
  }

  // ---- A whole delivery ----

  /** Refused, and nothing else. */
  lemma RefusedDelivery(w: World, f: Flight, termsAt: int, now: int)
    requires PaidOrderFront(w.db, f.order) == Proceed(f.intent) && IsSellable(f.order) && f.intent < |w.db.intents|
    requires Mismatched(w.db.intents[f.intent], f.order) && f !in w.cleared
    ensures Redelivered(w, f, termsAt, now).outcomes == w.outcomes + [Outcome(f.order, Refunded(IntentMismatch(f.order.id)))]
  {
    hide Apply;
    OpenedAgain(w, f);
    RefusedRecording(Apply(w, OpenOrder(f.order)), f, termsAt);
    UnclearedConversion(Apply(Apply(w, OpenOrder(f.order)), RecordOrder(f, termsAt)), f, now);
  }

  /** Accepted: whatever verdict it ends in, it is the one its row gives, if it gives
    * one, and no mismatch. */
  lemma AcceptedDelivery(w: World, f: Flight, termsAt: int, now: int)
    requires PaidOrderFront(w.db, f.order) == Proceed(f.intent) && IsSellable(f.order) && f.intent < |w.db.intents|
    requires !Mismatched(w.db.intents[f.intent], f.order) && Sound(w.db) && BilledBoxes(w.db)
    ensures var w' := Redelivered(w, f, termsAt, now);
            && |w'.outcomes| == |w.outcomes| + 1
            && w'.outcomes == w.outcomes + [w'.outcomes[|w.outcomes|]]
            && w'.outcomes[|w.outcomes|].order == f.order
            && w'.outcomes[|w.outcomes|].verdict != Refunded(IntentMismatch(f.order.id))
            && (RowVerdict(w.db.intents[f.intent], f.intent).Some? ==>
                  w'.outcomes[|w.outcomes|].verdict == RowVerdict(w.db.intents[f.intent], f.intent).value)
  {
    var w1 := Apply(w, OpenOrder(f.order));
    OpenedAgain(w, f);
    AcceptedRecording(w1, f, termsAt);
    ApplyKeepsSound(w1, RecordOrder(f, termsAt));
    hide Apply, RowVerdict, Sound;
    ClearedConversion(Apply(w1, RecordOrder(f, termsAt)), f, now);
  }

  /** Refused on recording, then converted all the same, because an earlier delivery
    * had already recorded it. */
  lemma RefusedAfterClearing(w: World, f: Flight, termsAt: int, now: int)
    requires PaidOrderFront(w.db, f.order) == Proceed(f.intent) && IsSellable(f.order) && f.intent < |w.db.intents|
    requires Mismatched(w.db.intents[f.intent], f.order) && f in w.cleared && Sound(w.db)
    requires w.db.intents[f.intent].subscription == f.order.subscription
    ensures TwoVerdicts(Redelivered(w, f, termsAt, now), f.order)
  {
    hide Apply, Sound, RowVerdict;
    OpenedAgain(w, f);
    var w1 := Apply(w, OpenOrder(f.order));
    RefusedRecording(w1, f, termsAt);
    var w2 := Apply(w1, RecordOrder(f, termsAt));
    ClearedConversion(w2, f, now);
    var w3 := Apply(w2, ConvertOrder(f, now));
    assert w3.outcomes[|w.outcomes|] == w2.outcomes[|w.outcomes|];
    assert w3.outcomes[|w.outcomes|].verdict != w3.outcomes[|w.outcomes| + 1].verdict;
  }

  // ---- The attach ----

  /** What an attach changes: the session of one row. */
  lemma AttachedRow(w: World, a: Action, order: Order)
    requires a.Attach? && a.intent < |w.db.intents| && BilledBoxes(w.db)
    ensures Apply(w, a) == w.(db := Attached(w.db, a)) && |Attached(w.db, a).intents| == |w.db.intents|
    ensures BilledBoxes(Attached(w.db, a))
    ensures forall i :: 0 <= i < |w.db.intents| ==>
              && Attached(w.db, a).intents[i].subscription == w.db.intents[i].subscription
              && RowVerdict(Attached(w.db, a).intents[i], i) == RowVerdict(w.db.intents[i], i)
  {}

  /** Before the attach every verdict on the order is the one its row explains. */
  lemma VerdictSoFar(w: World, f: Flight)
    requires WorldSound(w) && PaidOrderFront(w.db, f.order) == Proceed(f.intent) && IsSellable(f.order) && f.intent < |w.db.intents|
    ensures f in w.cleared ==>
              && !Mismatched(w.db.intents[f.intent], f.order)
              && w.db.intents[f.intent].subscription == f.order.subscription
              && forall k :: 0 <= k < |w.outcomes| && w.outcomes[k].order == f.order ==>
                   RowVerdict(w.db.intents[f.intent], f.intent) == Some(w.outcomes[k].verdict)
    ensures f !in w.cleared ==>
              && AllEnd(w, f.order, Refunded(IntentMismatch(f.order.id)))
              && (!Undecided(w, f.order) ==>
                    && Mismatched(w.db.intents[f.intent], f.order)
                    && exists k :: 0 <= k < |w.outcomes| && w.outcomes[k].order == f.order)
  {
    if f in w.cleared { assert Bound(w.db.intents[f.intent], f.order); }
    forall k | 0 <= k < |w.outcomes| && w.outcomes[k].order == f.order ensures Explained(w, w.outcomes[k]) {}
    forall g | g in w.cleared ensures g.order == f.order ==> g == f {
      assert FlightSound(w, g);
    }
  }

  lemma DisturbedOrderFlips(w: World, a: Action, f: Flight, termsAt: int, now: int)
    requires WorldSound(w) && Sound(w.db) && a.Attach? && a.intent < |w.db.intents|
    requires f.order in w.seen && IsSellable(f.order) && f.order.namedIntent == Some(f.intent)
    requires !Undecided(w, f.order) && !StandsClear(w.db, a.intent, a.checkout, f.order)
    ensures TwoVerdicts(Redelivered(Apply(w, a), f, termsAt, now), f.order)
  {
    hide Redelivered, Sound, RowVerdict;
    assert Causal(w.db, f.order);
    NamedDelivery(w.db, a, f.order);
    VerdictSoFar(w, f);
    AttachedRow(w, a, f.order);
    ApplyKeepsSound(w, a);
    var w1 := Apply(w, a);
    if f in w.cleared {
      RefusedAfterClearing(w1, f, termsAt, now);
    } else {
      AcceptedDelivery(w1, f, termsAt, now);
      var w' := Redelivered(w1, f, termsAt, now);
      var k :| 0 <= k < |w.outcomes| && w.outcomes[k].order == f.order;
      assert w'.outcomes[k] == w.outcomes[k];
      assert w'.outcomes[k].verdict != w'.outcomes[|w.outcomes|].verdict;
    }
  }

  lemma UndisturbedOrderStays(w: World, a: Action, f: Flight, termsAt: int, now: int)
    requires WorldSound(w) && Sound(w.db) && a.Attach? && a.intent < |w.db.intents|
    requires f.order in w.seen && IsSellable(f.order) && f.order.namedIntent == Some(f.intent)
    requires !Undecided(w, f.order) && StandsClear(w.db, a.intent, a.checkout, f.order)
    ensures !TwoVerdicts(Redelivered(Apply(w, a), f, termsAt, now), f.order)
  {
    hide Redelivered, Sound, RowVerdict;
    assert Causal(w.db, f.order);
    NamedDelivery(w.db, a, f.order);
    VerdictSoFar(w, f);
    AttachedRow(w, a, f.order);
    ApplyKeepsSound(w, a);
    var w1 := Apply(w, a);
    var w' := Redelivered(w1, f, termsAt, now);
    if f in w.cleared {
      AcceptedDelivery(w1, f, termsAt, now);
      OneEndIsOneVerdict(w', f.order, w'.outcomes[|w.outcomes|].verdict);
    } else {
      RefusedDelivery(w1, f, termsAt, now);
      OneEndIsOneVerdict(w', f.order, Refunded(IntentMismatch(f.order.id)));
    }
  }

  /** In every orderly run: a session attached after something came of an order makes
    * the next delivery of that order end differently if and only if the attach does
    * not stand clear of it - for an order recorded on the reservation, if and only if
    * the session is another one. */
  lemma LateAttachFlipsTheVerdict(
    settings: Settings, actions: seq<Action>, a: Action, f: Flight, termsAt: int, now: int)
    requires ValidSettings(settings) && OrderlyRun(Deployed(settings), actions)
    requires var w := Exec(Deployed(settings), actions);
             && a.Attach? && a.intent < |w.db.intents| && f.order in w.seen && !Undecided(w, f.order)
             && IsSellable(f.order) && f.order.namedIntent == Some(f.intent)
    ensures var w := Exec(Deployed(settings), actions);
            TwoVerdicts(Redelivered(Apply(w, a), f, termsAt, now), f.order)
            <==> !StandsClear(w.db, a.intent, a.checkout, f.order)
    ensures var w := Exec(Deployed(settings), actions);
            f in w.cleared ==>
              (StandsClear(w.db, a.intent, a.checkout, f.order) <==>
               a.intent == f.intent ==> Some(a.checkout) == f.order.checkout)
  {
    var w := Exec(Deployed(settings), actions);
    OrderlyRunsStaySound(settings, actions);
    RunsStaySound(settings, actions);
    if f in w.cleared { assert Bound(w.db.intents[f.intent], f.order); }
    if StandsClear(w.db, a.intent, a.checkout, f.order) {
      UndisturbedOrderStays(w, a, f, termsAt, now);
    } else {
      DisturbedOrderFlips(w, a, f, termsAt, now);
    }
  }
}
