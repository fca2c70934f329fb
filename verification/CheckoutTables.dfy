/** The checkout mutations as the program performs them: read, patch, insert, one
  * row at a time, each proved to leave the tables its transaction is meant to leave
  * and to keep the checkout invariant. */
module CheckoutTables {
  import opened Tables
  import opened Vocabulary
  import opened Store
  import opened SlugAvailability
  import opened Capacity
  import Operations
  import Checkout
  import CheckoutInvariant
  import CheckoutSteps
  import CheckoutRuns
  import CheckoutFinality
  import CheckoutAnswers

  type Intents = seq<Intent>

  /** Releasing one more row is one more patch, even of a row released already. */
  lemma ReleasedOneMore(rows: Intents, ids: seq<nat>, k: nat, reason: ReleaseReason, status: IntentStatus)
    requires k < |ids| && ids[k] < |rows|
    ensures var done := Checkout.ReleaseRows(rows, ids[..k], reason, status);
            Checkout.ReleaseRows(rows, ids[..k + 1], reason, status) ==
            done[ids[k] := Checkout.ReleaseDoc(done[ids[k]], reason, status)]
  {}

  lemma ReleasedNone(rows: Intents, reason: ReleaseReason, status: IntentStatus)
    ensures Checkout.ReleaseRows(rows, [], reason, status) == rows
  {}

  class Mutations {
    var intents: seq<Intent>
    var boxes: seq<Box>
    var operations: seq<Operation>
    var snapshots: seq<SnapshotImage>
    var settings: Settings
    /** The one row of the counter table, absent before the first box. */
    var counts: Option<nat>

    constructor (initial: Settings)
      requires 1 <= initial.maxActiveIntents <= Checkout.MAX_ACTIVE_INTENTS_PER_USER
      ensures Valid() && Tables() == Db([], [], [], [], initial, 0)
    {
      intents, boxes, operations, snapshots, settings, counts := [], [], [], [], initial, None;
      new;
      CheckoutRuns.RunsStaySound(initial, []);
    }

    function ReadBoxesCreated(): nat
      reads this
    {
      if counts.Some? then counts.value else 0
    }

    function Tables(): Db
      reads this
    {
      Db(intents, boxes, operations, snapshots, settings, ReadBoxesCreated())
    }

    ghost predicate Valid()
      reads this
    {
      CheckoutInvariant.Sound(Tables())
    }

    /** Patch every listed row, one after the other. */
    method ReleaseEach(ids: seq<nat>, reason: ReleaseReason, status: IntentStatus)
      requires forall k :: 0 <= k < |ids| ==> ids[k] < |intents|
      modifies `intents
      ensures intents == Checkout.ReleaseRows(old(intents), ids, reason, status)
    {
      ReleasedNone(intents, reason, status);
      for k := 0 to |ids|
        invariant |intents| == |old(intents)|
        invariant intents == Checkout.ReleaseRows(old(intents), ids[..k], reason, status)
      {
        ReleasedOneMore(old(intents), ids, k, reason, status);
        intents := intents[ids[k] := Checkout.ReleaseDoc(intents[ids[k]], reason, status)];
      }
      assert ids[..|ids|] == ids;
    }

    /** The oldest reservations yield until one more fits under the cap. */
    method MakeRoom(user: nat) returns (inBounds: bool)
      modifies `intents
      ensures var active := Checkout.ReadActive(old(Tables()), user);
              var yielding := Checkout.ReservationsToRelease(|active|, settings.maxActiveIntents);
              && (inBounds <==> yielding.Some?)
              && Tables() == if inBounds then Checkout.Superseded(old(Tables()), Take(active, yielding.value)) else old(Tables())
    {
      var active := Checkout.ReadActive(Tables(), user);
      var yielding := Checkout.ReservationsToRelease(|active|, settings.maxActiveIntents);
      if yielding.None? {
        return false;
      }
      assert forall k :: 0 <= k < |active| ==> active[k] in Select(intents, OfUser(user));
      ReleaseEach(Take(active, yielding.value), OtherReason("superseded_by_new_reservation"), Released);
      inBounds := true;
    }

    /** The transaction, without the invariant. */
    method Reserve(user: nat, slug: string, plan: BoxPlan, now: int) returns (result: Checkout.ReserveResult)
      modifies `intents
      ensures (Tables(), result) == Checkout.ReserveCheckoutIntent(old(Tables()), user, slug, plan, now)
    {
      hide ReadCapacityUsage, IsSlugAvailable;
      var held := Checkout.HeldBy(Tables(), user, slug);
      if !IsSlugAvailable(Tables(), slug, Ignore(None, held, None)) {
        return Checkout.SlugUnavailable;
      }
      if held.Some? {
        return Checkout.Resumed(held.value, Checkout.CheckoutResumption(intents[held.value], now));
      }
      if !ReadCapacityUsage(Tables(), now).CheckoutAvailable() {
        return Checkout.NoCapacity;
      }
      var inBounds := MakeRoom(user);
      if !inBounds {
        return Checkout.OutOfBounds;
      }
      result := Checkout.Reserved(|intents|);
      intents := intents + [Checkout.FreshIntent(user, slug, plan, now)];
    }

    method ReserveCheckoutIntent(user: nat, slug: string, plan: BoxPlan, now: int) returns (result: Checkout.ReserveResult)
      requires Valid()
      modifies `intents
      ensures (Tables(), result) == Checkout.ReserveCheckoutIntent(old(Tables()), user, slug, plan, now)
      ensures Valid() && !result.OutOfBounds?
      ensures result.Reserved? ==> |Select(intents, OfUser(user))| <= settings.maxActiveIntents
    {
      CheckoutInvariant.ReserveKeepsSound(Tables(), user, slug, plan, now);
      CheckoutInvariant.ReservationKeepsTheCap(Tables(), user, slug, plan, now);
      result := Reserve(user, slug, plan, now);
    }

    method AttachPolarCheckout(i: nat, checkout: nat, url: nat, expiresAt: int, plan: BoxPlan, customer: Option<nat>)
      requires Valid() && i < |intents|
      modifies `intents
      ensures Tables() == Checkout.AttachPolarCheckout(old(Tables()), i, checkout, url, expiresAt, plan, customer)
      ensures Valid()
    {
      ghost var before := Tables();
      intents := intents[i := intents[i].(
        plan := plan, checkout := Some(checkout), checkoutUrl := Some(url),
        checkoutExpiresAt := Some(expiresAt), customer := customer)];
      CheckoutInvariant.QuietKeepsSound(before, Tables());
    }

    method ReleaseCheckoutIntent(i: nat, reason: ReleaseReason) returns (released: bool)
      requires Valid()
      modifies `intents
      ensures Tables() == Checkout.ReleaseCheckoutIntent(old(Tables()), i, reason)
      ensures released <==> Checkout.Releasable(old(Tables()), i)
      ensures Valid()
    {
      if i >= |intents| || intents[i].status != Active || intents[i].box.Some? {
        return false;
      }
      ghost var before := Tables();
      intents := intents[i := Checkout.ReleaseDoc(intents[i], reason, Released)];
      CheckoutInvariant.QuietKeepsSound(before, Tables());
      released := true;
    }

    method ReleaseByCheckout(checkout: nat, reason: ReleaseReason, expired: bool) returns (released: bool)
      requires Valid()
      modifies `intents
      ensures Tables() == Checkout.ReleaseByCheckout(old(Tables()), checkout, reason, expired)
      ensures var found := Checkout.IntentByCheckout(old(Tables()), checkout);
              released <==> found.Some? && Checkout.Releasable(old(Tables()), found.value)
      ensures released <==> Tables() != old(Tables())
      ensures Valid()
    {
      var found := Checkout.IntentByCheckout(Tables(), checkout);
      if found.None? || intents[found.value].status != Active || intents[found.value].box.Some? {
        return false;
      }
      ghost var before := Tables();
      var i := found.value;
      intents := intents[i := Checkout.ReleaseDoc(intents[i], reason, if expired then Expired else Released)];
      CheckoutInvariant.QuietKeepsSound(before, Tables());
      assert intents[i].status != before.intents[i].status;
      released := true;
    }

    method RecordPlan(i: nat, plan: BoxPlan)
      requires Valid()
      modifies `intents
      ensures Tables() == Checkout.RecordCheckoutPlan(old(Tables()), i, plan)
      ensures Valid()
    {
      if i >= |intents| || intents[i].status != Active || intents[i].box.Some? || intents[i].plan == plan {
        assert i < |intents| ==> intents[i := intents[i]] == intents;
        return;
      }
      ghost var before := Tables();
      intents := intents[i := intents[i].(plan := plan)];
      CheckoutInvariant.QuietKeepsSound(before, Tables());
    }

    method RecordPlanByCheckout(checkout: nat, plan: BoxPlan)
      requires Valid()
      modifies `intents
      ensures Tables() == Checkout.RecordPlanByCheckout(old(Tables()), checkout, plan)
      ensures Valid()
    {
      var found := Checkout.IntentByCheckout(Tables(), checkout);
      if found.Some? {
        RecordPlan(found.value, plan);
      }
    }

    method ReleaseExpired(batch: seq<nat>, now: int)
      requires Valid() && Checkout.IsExpiryBatch(Tables(), batch, now)
      modifies `intents
      ensures Tables() == Checkout.ReleaseExpired(old(Tables()), batch, now)
      ensures Valid()
    {
      CheckoutRuns.ReleasedRowsKeepSound(Tables(), batch, OtherReason("checkout_expired_sweep"), Expired);
      ReleaseEach(batch, OtherReason("checkout_expired_sweep"), Expired);
    }

    method MarkAccountDeletionPending(user: nat)
      requires Valid()
      modifies `intents
      ensures Tables() == Checkout.MarkAccountDeletionPending(old(Tables()), user)
      ensures Valid()
      ensures forall i :: 0 <= i < |intents| ==> !OfUser(user)(intents[i])
      ensures |intents| == |old(intents)|
      ensures forall i :: 0 <= i < |intents| ==>
                intents[i] == if OfUser(user)(old(intents)[i]) then CheckoutAnswers.Ended(old(intents)[i], AccountDeleted, Released)
                              else old(intents)[i]
    {
      forall i | 0 <= i < |intents| { CheckoutAnswers.AccountDeletionEnds(Tables(), user, i); }
      var held := Select(intents, OfUser(user));
      assert forall k :: 0 <= k < |held| ==> held[k] in held;
      CheckoutRuns.ReleasedRowsKeepSound(Tables(), held, AccountDeleted, Released);
      ReleaseEach(held, AccountDeleted, Released);
    }

    method RecordInitialPaidOrder(i: nat, checkout: nat, customer: nat, order: nat, subscription: nat, termsAt: int)
      returns (status: Checkout.RecordStatus)
      requires Valid()
      modifies `intents
      ensures (Tables(), status) ==
              Checkout.RecordInitialPaidOrder(old(Tables()), i, checkout, customer, order, subscription, termsAt)
      ensures Valid()
    {
      if i >= |intents| {
        return Checkout.Missing;
      }
      var row := intents[i];
      status := Checkout.PaidOrderRecordingStatus(row, checkout, order, subscription);
      if status != Checkout.Recorded {
        return;
      }
      ghost var before := Tables();
      intents := intents[i := row.(
        checkout := Checkout.OrElse(row.checkout, checkout),
        customer := Some(customer),
        subscription := Some(subscription),
        order := Checkout.OrElse(row.order, order),
        termsAcceptedAt := Checkout.OrElse(row.termsAcceptedAt, termsAt))];
      CheckoutInvariant.QuietKeepsSound(before, Tables());
    }

    /** The row and the counter, together. */
    method InsertBox(box: Box) returns (id: nat)
      modifies `boxes, `counts
      ensures (Tables(), id) == Operations.InsertBox(old(Tables()), box)
      ensures ReadBoxesCreated() == old(ReadBoxesCreated()) + 1
    {
      id := |boxes|;
      boxes := boxes + [box];
      if counts.Some? {
        counts := Some(counts.value + 1);
      } else {
        counts := Some(1);
      }
    }

    /** The transaction, without the invariant. */
    method StartOperation(box: nat, kind: OperationType, key: OperationKey, reservedSlug: Option<string>, now: int)
      returns (result: Operations.StartResult)
      modifies `boxes, `operations
      ensures (Tables(), result) == Operations.StartOperation(old(Tables()), box, kind, key, reservedSlug, now)
    {
      hide ReadCapacityUsage, IsSlugAvailable, Select;
      if box >= |boxes| {
        return Operations.BoxNotFound;
      }
      if Select(operations, Operations.ActiveWithKey(key)) != [] {
        return Operations.AlreadyActive;
      }
      if Select(operations, Operations.ActiveForBox(box)) != [] {
        return Operations.Busy;
      }
      if !IsOperationAllowed(boxes[box].status, kind) {
        return Operations.NotAllowed;
      }
      if reservedSlug.Some? && !IsSlugAvailable(Tables(), reservedSlug.value, Ignore(Some(box), None, None)) {
        return Operations.SlugTaken;
      }
      result := Operations.Started(|operations|);
      operations := operations + [Operation(box, kind, OpPending, key, reservedSlug, now)];
      var status := StatusDuring(kind);
      if status.Some? {
        boxes := boxes[box := boxes[box].(status := status.value)];
      }
    }

    /** Started, the operation is the only one open on its box and the slug it
      * reserves is the box's alone; refused, nothing moved. */
    method StartBoxOperation(box: nat, kind: OperationType, key: OperationKey, reservedSlug: Option<string>, now: int)
      returns (result: Operations.StartResult)
      requires Valid()
      requires key.CreateOf? ==> key.box < |boxes|
      modifies `boxes, `operations
      ensures (Tables(), result) == Operations.StartOperation(old(Tables()), box, kind, key, reservedSlug, now)
      ensures Valid()
      ensures !result.Started? ==> Tables() == old(Tables())
      ensures result.Started? ==> Select(operations, Operations.ActiveForBox(box)) == [result.id]
      ensures result.Started? && reservedSlug.Some? ==> HeldOnlyBy(Tables(), reservedSlug.value, OwnerBox(box))
    {
      hide Operations.StartOperation, Select, CheckoutInvariant.Sound, HeldOnlyBy;
      CheckoutSteps.StartOperationKeepsSound(Tables(), box, kind, key, reservedSlug, now);
      CheckoutSteps.RefusedStartsKeepTables(Tables(), box, kind, key, reservedSlug, now);
      if Operations.StartOperation(Tables(), box, kind, key, reservedSlug, now).1.Started? {
        CheckoutSteps.StartedIsAlone(Tables(), box, kind, key, reservedSlug, now);
      }
      result := StartOperation(box, kind, key, reservedSlug, now);
    }

    /** A reason the program refunds on closes the reservation for good. */
    method RefuseSale(i: nat, customer: nat, order: nat, subscription: nat, reason: ReleaseReason)
      returns (result: Checkout.Conversion)
      requires Valid() && i < |intents| && intents[i].box.None?
      modifies `intents
      ensures (Tables(), result) == Checkout.RefuseSale(old(Tables()), i, customer, order, subscription, reason)
      ensures Valid()
      ensures !reason.OtherReason? ==> CheckoutFinality.RefusesForGood(Tables(), i, reason)
    {
      ghost var before := Tables();
      assert CheckoutInvariant.RowSound(intents[i], |boxes|);
      intents := intents[i := Checkout.ReleaseDoc(intents[i], reason, Released).(
        customer := Some(customer), subscription := Some(subscription))];
      CheckoutInvariant.QuietKeepsSound(before, Tables());
      if !reason.OtherReason? {
        CheckoutFinality.RefusedForGood(Tables(), i, reason);
      }
      result := Checkout.UnfulfilledBecause(reason, i, order, subscription);
    }

    /** Insert the box, close the reservation, start the create operation - whose key
      * names the box just inserted, so the last assertion cannot fail. */
    method ConvertCheckoutIntentToBox(i: nat, customer: nat, order: nat, subscription: nat, plan: BoxPlan, now: int)
      returns (result: Checkout.Conversion)
      requires Valid()
      modifies this
      ensures (Tables(), result) ==
              Checkout.ConvertCheckoutIntentToBox(old(Tables()), i, customer, order, subscription, plan, now)
      ensures Valid() && !result.Aborted?
      ensures result == Checkout.NotFound <==> i >= |old(intents)|
      ensures ReadBoxesCreated() == |boxes|
    {
      hide ReadCapacityUsage, IsSlugAvailable;
      CheckoutSteps.ConvertKeepsSound(Tables(), i, customer, order, subscription, plan, now);
      if i >= |intents| {
        return Checkout.NotFound;
      }
      CheckoutSteps.ConversionUnfolds(Tables(), i, customer, order, subscription, plan, now);
      var row := intents[i];
      if row.box.Some? {
        return Checkout.Fulfilled(row.box.value);
      }
      if Checkout.IsUnfulfillable(row.releaseReason) {
        return Checkout.UnfulfilledBecause(row.releaseReason.value, i, order, subscription);
      }
      if row.status != Active && !ReadCapacityUsage(Tables(), now).CheckoutAvailable() {
        result := RefuseSale(i, customer, order, subscription, CapacityUnavailable);
        return;
      }
      if !IsSlugAvailable(Tables(), row.slug, Ignore(None, Some(i), None)) {
        result := RefuseSale(i, customer, order, subscription, SlugConflict);
        return;
      }
      CheckoutSteps.BoxedKeepsSound(Tables(), i, customer, subscription, plan);
      var box := InsertBox(Box(row.user, row.slug, plan, Creating, Some(subscription)));
      intents := intents[i := row.(
        status := Converted, customer := Some(customer), subscription := Some(subscription),
        box := Some(box), checkoutUrl := None)];
      assert Tables() == CheckoutSteps.Boxed(old(Tables()), i, customer, subscription, plan);
      var started := StartBoxOperation(box, CreateBox, CreateOf(box), None, now);
      if !started.Started? {
        assert false;
      }
      result := Checkout.Fulfilled(box);
    }
  }
}
