/** Concrete runs of the payment protocol: a sale that goes well, a second order of its
  * checkout, a session attached too late, and a refund that stops nothing. */
module OrderScenarios {
  import opened Tables
  import opened Vocabulary
  import opened Store
  import opened SlugAvailability
  import opened Capacity
  import opened Operations
  import opened Checkout
  import opened CheckoutInvariant
  import opened CheckoutSteps
  import opened Webhooks
  import opened CheckoutRuns
  import opened OrderVerdicts
  import opened LateAttach
  import opened CheckoutFinality

  /** An order of the first reservation of a deployment. */
  predicate IsFirstSale(order: Order) {
    IsSellable(order) && order.namedIntent == Some(0)
  }

  function WithPayment(row: Intent, order: Order, termsAt: int): Intent
    requires IsSellable(order)
  {
    row.(checkout := OrElse(row.checkout, order.checkout.value), customer := Some(order.customer),
         subscription := order.subscription, order := OrElse(row.order, order.id),
         termsAcceptedAt := OrElse(row.termsAcceptedAt, termsAt))
  }

  // ---- A sale, step by step ----

  lemma AfterReserving(settings: Settings, user: nat, slug: string)
    requires RoomForOne(settings) && IsValidSlug(slug)
    ensures Exec(Deployed(settings), [Reserve(user, slug, Air, 0)]) ==
            Deployed(settings).(db := Alone(FreshIntent(user, slug, Air, 0), settings))
  {
    var w := Deployed(settings);
    assert [Reserve(user, slug, Air, 0)][..0] == [];
    ReservedAlone(w.db, user, slug);
    OneReserve(w, user, slug);
  }

  lemma OneReserve(w: World, user: nat, slug: string)
    ensures Apply(w, Reserve(user, slug, Air, 0)) == w.(db := ReserveCheckoutIntent(w.db, user, slug, Air, 0).0)
  {}

  /** Opened and recorded on a row nobody paid for yet. */
  lemma OpenedAndRecorded(w: World, f: Flight, termsAt: int)
    requires IsFirstSale(f.order) && f.intent == 0 && |w.db.intents| == 1 && w.cleared == {}
    requires w.db.intents[0].order.None? && w.db.intents[0].subscription.None? && w.db.intents[0].box.None?
    requires w.db.intents[0].checkout.None?
    ensures Apply(Apply(w, OpenOrder(f.order)), RecordOrder(f, termsAt)) ==
            w.(db := w.db.(intents := [WithPayment(w.db.intents[0], f.order, termsAt)]),
               seen := w.seen + {f.order}, underway := w.underway + {f}, cleared := {f})
  {
    OpenedAgain(w, f);
  }

  /** Converting an active row makes the box. */
  lemma ActiveSale(w: World, f: Flight, now: int)
    requires Sound(w.db) && f in w.cleared && IsSellable(f.order) && f.intent < |w.db.intents|
    requires w.db.intents[f.intent].status == Active
    ensures var w' := Apply(w, ConvertOrder(f, now));
            && w'.outcomes == w.outcomes + [Outcome(f.order, BoxDelivered(|w.db.boxes|))]
            && w'.seen == w.seen && w'.underway == w.underway && w'.cleared == w.cleared
            && |w'.db.intents| == |w.db.intents|
  {
    hide ReadCapacityUsage, IsSlugAvailable;
    var order := f.order;
    ActiveConverts(w.db, f.intent, order.customer, order.id, order.subscription.value, order.soldPlan.value, now);
    ConversionWritesOneRow(w.db, f.intent, order.customer, order.id, order.subscription.value, order.soldPlan.value, now);
  }

  function SaleRun(user: nat, slug: string, f: Flight, termsAt: int, now: int): seq<Action> {
    [Reserve(user, slug, Air, 0)] + [OpenOrder(f.order)] + [RecordOrder(f, termsAt)] + [ConvertOrder(f, now)]
  }

  /** Reserve, pay, and the box is there; the run is an orderly one. */
  lemma SaleSucceeds(settings: Settings, user: nat, slug: string, f: Flight, termsAt: int, now: int)
    requires RoomForOne(settings) && IsValidSlug(slug) && IsFirstSale(f.order) && f.intent == 0
    ensures OrderlyRun(Deployed(settings), SaleRun(user, slug, f, termsAt, now))
    ensures var w := Exec(Deployed(settings), SaleRun(user, slug, f, termsAt, now));
            && w.outcomes == [Outcome(f.order, BoxDelivered(0))]
            && w.seen == {f.order} && w.underway == {f} && w.cleared == {f} && |w.db.intents| == 1
  {
    hide Exec, Apply, Sound, OrderlyRun;
    var w0 := Deployed(settings);
    var r1 := [Reserve(user, slug, Air, 0)];
    var r2 := r1 + [OpenOrder(f.order)];
    var r3 := r2 + [RecordOrder(f, termsAt)];
    AfterReserving(settings, user, slug);
    RunExtended(w0, r1, OpenOrder(f.order));
    RunExtended(w0, r2, RecordOrder(f, termsAt));
    RunExtended(w0, r3, ConvertOrder(f, now));
    OpenedAndRecorded(Exec(w0, r1), f, termsAt);
    RunsStaySound(settings, r3);
    ActiveSale(Exec(w0, r3), f, now);
    SaleIsOrderly(settings, user, slug, f, termsAt, now);
  }

  lemma OrderlyExtended(w: World, run: seq<Action>, a: Action)
    requires OrderlyRun(w, run) && Orderly(Exec(w, run), a)
    ensures OrderlyRun(w, run + [a])
  {
    assert (run + [a])[..|run|] == run;
  }

  lemma SaleIsOrderly(settings: Settings, user: nat, slug: string, f: Flight, termsAt: int, now: int)
    requires RoomForOne(settings) && IsValidSlug(slug) && IsFirstSale(f.order) && f.intent == 0
    ensures OrderlyRun(Deployed(settings), SaleRun(user, slug, f, termsAt, now))
  {
    hide Exec, OrderlyRun;
    var w0 := Deployed(settings);
    var r1 := [Reserve(user, slug, Air, 0)];
    StartsOrderly(w0, Reserve(user, slug, Air, 0));
    AfterReserving(settings, user, slug);
    OrderlyExtended(w0, r1, OpenOrder(f.order));
    OrderlyExtended(w0, r1 + [OpenOrder(f.order)], RecordOrder(f, termsAt));
    OrderlyExtended(w0, r1 + [OpenOrder(f.order)] + [RecordOrder(f, termsAt)], ConvertOrder(f, now));
  }

  lemma StartsOrderly(w: World, a: Action)
    requires a.Reserve?
    ensures OrderlyRun(w, [a])
  {
    assert [a][..0] == [];
  }

  // ---- A second order of the checkout ----

  /** Another order of the same checkout and reservation: it is refused and refunded,
    * and the first keeps its box - within an orderly run. */
  lemma SecondOrderIsRefunded(
    settings: Settings, user: nat, slug: string, f: Flight, termsAt: int, now: int, second: Order, termsAt': int)
    requires RoomForOne(settings) && IsValidSlug(slug) && IsFirstSale(f.order) && f.intent == 0
    requires IsFirstSale(second) && second.checkout == f.order.checkout && second.id != f.order.id
    ensures var run := SaleRun(user, slug, f, termsAt, now);
            var more := run + [OpenOrder(second)] + [RecordOrder(Flight(second, 0), termsAt')];
            && OrderlyRun(Deployed(settings), more)
            && Exec(Deployed(settings), more).db == Exec(Deployed(settings), run).db
            && Exec(Deployed(settings), more).outcomes ==
               [Outcome(f.order, BoxDelivered(0)), Outcome(second, Refunded(IntentMismatch(second.id)))]
  {
    hide Exec, OrderlyRun;
    var w0 := Deployed(settings);
    var run := SaleRun(user, slug, f, termsAt, now);
    var w := Exec(w0, run);
    SaleSucceeds(settings, user, slug, f, termsAt, now);
    OrderlyRunsStaySound(settings, run);
    assert Bound(w.db.intents[0], f.order);
    OrderlyExtended(w0, run, OpenOrder(second));
    OrderlyExtended(w0, run + [OpenOrder(second)], RecordOrder(Flight(second, 0), termsAt'));
    RunExtended(w0, run, OpenOrder(second));
    RunExtended(w0, run + [OpenOrder(second)], RecordOrder(Flight(second, 0), termsAt'));
    OpenedAgain(w, Flight(second, 0));
    RefusedRecording(Apply(w, OpenOrder(second)), Flight(second, 0), termsAt');
  }

  // ---- A session attached too late ----

  /** The box is there, another session is attached, and the same order delivered
    * again is refunded. */
  lemma LateAttachRefundsADeliveredBox(
    settings: Settings, user: nat, slug: string, f: Flight, termsAt: int, now: int, a: Action, termsAt': int, later: int)
    requires RoomForOne(settings) && IsValidSlug(slug) && IsFirstSale(f.order) && f.intent == 0
    requires a.Attach? && a.intent == 0 && Some(a.checkout) != f.order.checkout
    ensures var run := SaleRun(user, slug, f, termsAt, now);
            var more := run + [a] + [OpenOrder(f.order)] + [RecordOrder(f, termsAt')] + [ConvertOrder(f, later)];
            && Exec(Deployed(settings), run).outcomes == [Outcome(f.order, BoxDelivered(0))]
            && TwoVerdicts(Exec(Deployed(settings), more), f.order)
  {
    hide Exec, OrderlyRun, TwoVerdicts;
    var w0 := Deployed(settings);
    var run := SaleRun(user, slug, f, termsAt, now);
    SaleSucceeds(settings, user, slug, f, termsAt, now);
    assert !Undecided(Exec(w0, run), f.order);
    LateAttachFlipsTheVerdict(settings, run, a, f, termsAt', later);
    RunExtended(w0, run, a);
    RunExtended(w0, run + [a], OpenOrder(f.order));
    RunExtended(w0, run + [a] + [OpenOrder(f.order)], RecordOrder(f, termsAt'));
    RunExtended(w0, run + [a] + [OpenOrder(f.order)] + [RecordOrder(f, termsAt')], ConvertOrder(f, later));
  }

  // ---- A refund that stops nothing ----

  function RefundRun(user: nat, slug: string, f: Flight, termsAt: int): seq<Action> {
    [Reserve(user, slug, Air, 0), SweepExpired([0], CHECKOUT_ATTACH_GRACE_MS)]
    + [OpenOrder(f.order)] + [RecordOrder(f, termsAt)] + [Release(0, OrderFullyRefunded)]
  }

  lemma ReleasedNothing(w: World, reason: ReleaseReason)
    requires |w.db.intents| == 1 && w.db.intents[0].status != Active
    ensures Apply(w, Release(0, reason)) == w
  {}

  lemma AfterLapsing(settings: Settings, user: nat, slug: string)
    requires RoomForOne(settings) && IsValidSlug(slug)
    ensures Exec(Deployed(settings), [Reserve(user, slug, Air, 0), SweepExpired([0], CHECKOUT_ATTACH_GRACE_MS)]) ==
            Deployed(settings).(db := Alone(LapsedRow(user, slug), settings))
  {
    var w0, a1, a2 := Deployed(settings), Reserve(user, slug, Air, 0), SweepExpired([0], CHECKOUT_ATTACH_GRACE_MS);
    LapsedIsReachable(settings, user, slug);
    RunOfTwo(w0, a1, a2);
    OneReserve(w0, user, slug);
    assert Apply(Apply(w0, a1), a2) == Apply(w0, a1).(db := Apply(Apply(w0, a1), a2).db);
  }

  /** A lapsed row, its payment recorded. */
  function RefundedRow(user: nat, slug: string, order: Order, termsAt: int): Intent
    requires IsSellable(order)
  {
    WithPayment(LapsedRow(user, slug), order, termsAt)
  }

  lemma AfterRefunding(settings: Settings, user: nat, slug: string, f: Flight, termsAt: int)
    requires RoomForOne(settings) && IsValidSlug(slug) && IsFirstSale(f.order) && f.intent == 0
    ensures Exec(Deployed(settings), RefundRun(user, slug, f, termsAt)) ==
            World(Alone(RefundedRow(user, slug, f.order, termsAt), settings), {f.order}, {f}, {f}, [])
  {
    hide Exec;
    var w0 := Deployed(settings);
    var r := [Reserve(user, slug, Air, 0), SweepExpired([0], CHECKOUT_ATTACH_GRACE_MS)];
    AfterLapsing(settings, user, slug);
    RunExtended(w0, r, OpenOrder(f.order));
    RunExtended(w0, r + [OpenOrder(f.order)], RecordOrder(f, termsAt));
    RunExtended(w0, r + [OpenOrder(f.order)] + [RecordOrder(f, termsAt)], Release(0, OrderFullyRefunded));
    OpenedAndRecorded(Exec(w0, r), f, termsAt);
    ReleasedNothing(Exec(w0, r + [OpenOrder(f.order)] + [RecordOrder(f, termsAt)]), OrderFullyRefunded);
  }

  lemma LapsedSale(w: World, f: Flight, now: int)
    requires f in w.cleared && IsSellable(f.order) && f.intent < |w.db.intents|
    requires PaysForABox(w.db, f.intent, w.db.intents[f.intent].user, f.order.customer, f.order.id,
                         f.order.subscription.value, f.order.soldPlan.value, now)
    ensures var w' := Apply(w, ConvertOrder(f, now));
            && |w'.outcomes| == |w.outcomes| + 1
            && w'.outcomes[|w.outcomes|].order == f.order && w'.outcomes[|w.outcomes|].verdict.BoxDelivered?
            && |w'.db.boxes| == |w.db.boxes| + 1 && IsLive(w'.db.boxes[|w.db.boxes|])
  {
    hide ConvertCheckoutIntentToBox;
  }

  /** The reservation lapsed, was paid for late, and the order refunded in full before
    * the delivery got to convert it: the box is made all the same. */
  lemma RefundedOrderGetsABox(settings: Settings, user: nat, slug: string, f: Flight, termsAt: int, now: int)
    requires RoomForOne(settings) && IsValidSlug(slug) && IsFirstSale(f.order) && f.intent == 0
    ensures var w := Exec(Deployed(settings), RefundRun(user, slug, f, termsAt) + [ConvertOrder(f, now)]);
            && |w.outcomes| == 1 && w.outcomes[0].order == f.order && w.outcomes[0].verdict.BoxDelivered?
            && |w.db.boxes| == 1 && IsLive(w.db.boxes[0])
  {
    hide Exec, Apply, PaysForABox, Sound, LapsedWithRoom;
    var w0, run := Deployed(settings), RefundRun(user, slug, f, termsAt);
    var db := Alone(RefundedRow(user, slug, f.order, termsAt), settings);
    AfterRefunding(settings, user, slug, f, termsAt);
    RunsStaySound(settings, run);
    LapsedHasRoom(db, now);
    LapsedPaysExactly(db, 0, f.order.customer, f.order.id, f.order.subscription.value, f.order.soldPlan.value, now);
    RunExtended(w0, run, ConvertOrder(f, now));
    LapsedSale(Exec(w0, run), f, now);
  }
}
