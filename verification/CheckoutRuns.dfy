/** Safety of every run: slugs, the per-user cap, the box count, the promise an
  * open reservation makes, and the server limit. */
module CheckoutRuns {
  import opened Tables
  import opened Vocabulary
  import opened Store
  import opened SlugAvailability
  import opened Capacity
  import opened Operations
  import opened Checkout
  import opened CheckoutInvariant
  import opened CheckoutSteps
  import opened Webhooks

  lemma PatchedRowKeepsSound(db: Db, i: nat, row: Intent)
    requires Sound(db) && i < |db.intents| && QuietRow(db.intents[i], row)
    ensures Sound(db.(intents := db.intents[i := row]))
  {
    QuietKeepsSound(db, db.(intents := db.intents[i := row]));
  }

  lemma ReleasedRowsKeepSound(db: Db, ids: seq<nat>, reason: ReleaseReason, status: IntentStatus)
    requires Sound(db) && status in {Released, Expired}
    requires forall i :: i in ids ==> i < |db.intents| && db.intents[i].status == Active
    ensures Sound(db.(intents := ReleaseRows(db.intents, ids, reason, status)))
  {
    var db' := db.(intents := ReleaseRows(db.intents, ids, reason, status));
    forall i | 0 <= i < |db.intents| ensures QuietRow(db.intents[i], db'.intents[i]) {
      assert RowSound(db.intents[i], |db.boxes|);
    }
    QuietKeepsSound(db, db');
  }

  lemma EnvironmentKeepsSound(db: Db, settings: Settings, rows: seq<SnapshotImage>)
    requires Sound(db) && ValidSettings(settings)
    ensures Sound(db.(settings := settings)) && Sound(db.(snapshots := rows))
  {
    var a, b := db.(settings := settings), db.(snapshots := rows);
    forall o | 0 <= o < |db.operations| ensures OperationSound(a, o) && OperationSound(b, o) {
      assert OperationSound(db, o);
    }
    forall h: Holder, s: string ensures Holds(a, h, s) == Holds(db, h, s) == Holds(b, h, s) {}
    forall h: Holder ensures OwnerOf(a, h) == OwnerOf(db, h) == OwnerOf(b, h) {}
    ExclusiveInherited(db, a);
    ExclusiveInherited(db, b);
  }

  lemma ReservationStepsKeepSound(w: World, a: Action)
    requires Sound(w.db)
    requires a.Attach? || a.SetPlan? || a.SetPlanByCheckout? || a.Release? || a.CloseCheckout?
    ensures Sound(Apply(w, a).db)
  {
    var db := w.db;
    match a
    case Attach(i, checkout, url, expiresAt, plan, customer) =>
      if i < |db.intents| { PatchedRowKeepsSound(db, i, Apply(w, a).db.intents[i]); }
    case SetPlan(i, plan) =>
      if Releasable(db, i) { PatchedRowKeepsSound(db, i, db.intents[i].(plan := plan)); }
    case SetPlanByCheckout(checkout, plan) =>
      var found := IntentByCheckout(db, checkout);
      if found.Some? && Releasable(db, found.value) {
        PatchedRowKeepsSound(db, found.value, db.intents[found.value].(plan := plan));
      }
    case Release(i, reason) =>
      if Releasable(db, i) { PatchedRowKeepsSound(db, i, ReleaseDoc(db.intents[i], reason, Released)); }
    case CloseCheckout(checkout, reason, expired) =>
      var found := IntentByCheckout(db, checkout);
      if found.Some? && Releasable(db, found.value) {
        PatchedRowKeepsSound(db, found.value,
                             ReleaseDoc(db.intents[found.value], reason, if expired then Expired else Released));
      }
  }

  lemma ApplyKeepsSound(w: World, a: Action)
    requires Sound(w.db)
    ensures Sound(Apply(w, a).db)
  {
    hide IntentsSound, OneIntentPerBox, OperationsSound, Exclusive, ReadCapacityUsage, IsSlugAvailable, StartOperation,
         SwapSlug, SettleOperation, GrantComp, ReserveCheckoutIntent, ConvertCheckoutIntentToBox;
    match a
    case Reserve(user, slug, plan, now) => ReserveKeepsSound(w.db, user, slug, plan, now);
    case Attach(_, _, _, _, _, _) => ReservationStepsKeepSound(w, a);
    case SetPlan(_, _) => ReservationStepsKeepSound(w, a);
    case SetPlanByCheckout(_, _) => ReservationStepsKeepSound(w, a);
    case Release(_, _) => ReservationStepsKeepSound(w, a);
    case CloseCheckout(_, _, _) => ReservationStepsKeepSound(w, a);
    case SweepExpired(batch, now) =>
      if IsExpiryBatch(w.db, batch, now) {
        ReleasedRowsKeepSound(w.db, batch, OtherReason("checkout_expired_sweep"), Expired);
      }
    case DeleteAccount(user) =>
      ReleasedRowsKeepSound(w.db, Select(w.db.intents, OfUser(user)), AccountDeleted, Released);
    case OpenOrder(order) =>
    case RecordOrder(flight, termsAt) =>
      if Apply(w, a).db != w.db {
        PatchedRowKeepsSound(w.db, flight.intent, Apply(w, a).db.intents[flight.intent]);
      }
    case ConvertOrder(flight, now) =>
      if Apply(w, a).db != w.db {
        var order := flight.order;
        ConvertKeepsSound(w.db, flight.intent, order.customer, order.id, order.subscription.value, order.soldPlan.value, now);
      }
    case Comp(user, slug, plan, key, now) => GrantCompKeepsSound(w.db, user, slug, plan, key, now);
    case Start(box, kind, key, reservedSlug, now) =>
      StartOperationKeepsSound(w.db, box, kind, Keyed(key), reservedSlug, now);
    case Run(operation) => MarkRunningKeepsSound(w.db, operation);
    case Settle(operation, succeeded, boxStatus) => SettleKeepsSound(w.db, operation, succeeded, boxStatus);
    case Rename(operation, slug) => SwapSlugKeepsSound(w.db, operation, slug);
    case WriteSettings(settings) =>
      SettingsWritten(w, settings);
      if ValidSettings(settings) { EnvironmentKeepsSound(w.db, settings, w.db.snapshots); }
    case MoveSnapshots(rows) => EnvironmentKeepsSound(w.db, w.db.settings, rows);
  }

  lemma {:induction false} RunsStaySound(settings: Settings, actions: seq<Action>)
    requires ValidSettings(settings)
    ensures Sound(Exec(Deployed(settings), actions).db)
  {
    if actions == [] {
      assert Exclusive(Deployed(settings).db);
    } else {
      RunsStaySound(settings, actions[..|actions| - 1]);
      ApplyKeepsSound(Exec(Deployed(settings), actions[..|actions| - 1]), actions[|actions| - 1]);
    }
  }

  // ---- What the invariant means ----

  /** In every reachable state a slug has one owner at most - a live box with its
    * own rename, or one active reservation - and the bounded lookups answer
    * exactly whether anyone but the caller holds it. */
  lemma SlugsAreExclusive(settings: Settings, actions: seq<Action>, slug: string, ignore: Ignore)
    requires ValidSettings(settings)
    ensures var db := Exec(Deployed(settings), actions).db;
            && (forall h1: Holder, h2: Holder :: Holds(db, h1, slug) && Holds(db, h2, slug) ==>
                  OwnerOf(db, h1) == OwnerOf(db, h2) && (h1 == h2 || !h1.IntentHolder?))
            && (IsSlugAvailable(db, slug, ignore) <==>
                IsValidSlug(slug) && forall h: Holder :: Holds(db, h, slug) ==> Ignored(h, ignore))
  {
    var db := Exec(Deployed(settings), actions).db;
    RunsStaySound(settings, actions);
    AvailableExactly(db, slug, ignore);
    forall h1: Holder, h2: Holder | Holds(db, h1, slug) && Holds(db, h2, slug)
      ensures OwnerOf(db, h1) == OwnerOf(db, h2) && (h1 == h2 || !h1.IntentHolder?)
    {}
  }

  /** An open reservation is a promise: whatever happened since it was made, paying
    * for it makes a box. */
  lemma ReservationIsAPromise(
    settings: Settings, actions: seq<Action>, i: nat, customer: nat, order: nat, subscription: nat, plan: BoxPlan, now: int)
    requires ValidSettings(settings)
    requires var db := Exec(Deployed(settings), actions).db; i < |db.intents| && db.intents[i].status == Active
    ensures var db := Exec(Deployed(settings), actions).db;
            ConvertCheckoutIntentToBox(db, i, customer, order, subscription, plan, now).1 == Fulfilled(|db.boxes|)
  {
    var db := Exec(Deployed(settings), actions).db;
    RunsStaySound(settings, actions);
    ActiveConverts(db, i, customer, order, subscription, plan, now);
  }

  lemma ActiveConverts(db: Db, i: nat, customer: nat, order: nat, subscription: nat, plan: BoxPlan, now: int)
    requires Sound(db) && i < |db.intents| && db.intents[i].status == Active
    ensures ConvertCheckoutIntentToBox(db, i, customer, order, subscription, plan, now).1 == Fulfilled(|db.boxes|)
  {
    var row := db.intents[i];
    assert RowSound(row, |db.boxes|);
    assert Holds(db, IntentHolder(i), row.slug);
    AvailableExactly(db, row.slug, Ignore(None, Some(i), None));
    forall h: Holder | Holds(db, h, row.slug) ensures Ignored(h, Ignore(None, Some(i), None)) {
      assert OwnerOf(db, h) == OwnerOf(db, IntentHolder(i));
    }
    ConversionUnfolds(db, i, customer, order, subscription, plan, now);
  }

  /** The counter is the number of boxes ever inserted, no two reservations share a
    * box, and an active reservation never has one. */
  lemma BoxesAreCounted(settings: Settings, actions: seq<Action>)
    requires ValidSettings(settings)
    ensures var db := Exec(Deployed(settings), actions).db;
            && db.created == |db.boxes|
            && (forall i, j :: 0 <= i < j < |db.intents| && db.intents[i].box.Some? ==> db.intents[i].box != db.intents[j].box)
            && (forall i :: 0 <= i < |db.intents| && db.intents[i].box.Some? ==>
                  db.intents[i].status == Converted && db.intents[i].box.value < |db.boxes|)
  {
    var db := Exec(Deployed(settings), actions).db;
    RunsStaySound(settings, actions);
    forall i | 0 <= i < |db.intents| && db.intents[i].box.Some?
      ensures db.intents[i].status == Converted && db.intents[i].box.value < |db.boxes|
    { assert RowSound(db.intents[i], |db.boxes|); }
  }

  /** A new reservation releases exactly the user's oldest ones, as many as it takes
    * to stay within the cap, and touches no other row. */
  ghost predicate KeepsTheCap(db: Db, user: nat, slug: string, plan: BoxPlan, now: int) {
    var held := Select(db.intents, OfUser(user));
    var (db', result) := ReserveCheckoutIntent(db, user, slug, plan, now);
    && !result.OutOfBounds?
    && (result.Reserved? ==>
          && YieldCount(db, user) <= |held|
          && |db'.intents| == |db.intents| + 1
          && Select(db'.intents, OfUser(user)) == held[YieldCount(db, user)..] + [|db.intents|]
          && |Select(db'.intents, OfUser(user))| <= db.settings.maxActiveIntents
          && forall i :: 0 <= i < |db.intents| ==>
               db'.intents[i] == if i in held[..YieldCount(db, user)]
                                 then ReleaseDoc(db.intents[i], OtherReason("superseded_by_new_reservation"), Released)
                                 else db.intents[i])
  }

  /** In every run, whatever the cap was lowered to; the out-of-bounds error is never
    * thrown. */
  lemma ReservationsStayUnderTheCap(
    settings: Settings, actions: seq<Action>, user: nat, slug: string, plan: BoxPlan, now: int)
    requires ValidSettings(settings)
    ensures KeepsTheCap(Exec(Deployed(settings), actions).db, user, slug, plan, now)
  {
    RunsStaySound(settings, actions);
    SoundKeepsTheCap(Exec(Deployed(settings), actions).db, user, slug, plan, now);
  }

  lemma SoundKeepsTheCap(db: Db, user: nat, slug: string, plan: BoxPlan, now: int)
    requires Sound(db)
    ensures KeepsTheCap(db, user, slug, plan, now)
  {
    hide ReadCapacityUsage, IsSlugAvailable;
    ReserveUnfolds(db, user, slug, plan, now);
    ReservationKeepsTheCap(db, user, slug, plan, now);
    hide ReserveCheckoutIntent, Select;
  }

  /** A reservation is sent back to its session exactly until the sweep would take it,
    * and never once it is paid for. */
  lemma ResumableExactlyUntilSwept(row: Intent, now: int)
    requires row.status == Active && row.checkout.Some? && row.checkoutUrl.Some?
    requires row.checkoutExpiresAt.Some? && row.checkoutExpiresAt.value > 0
    ensures CheckoutResumption(row, now).Session? <==> row.order.None? && !ExpiredBy(now)(row)
    ensures CheckoutResumption(row, now).Paid? <==> row.order.Some?
    ensures CheckoutResumption(row, now).Session? ==>
              CheckoutResumption(row, now) == Session(row.checkout.value, row.checkoutUrl.value)
  {}

  // ---- The server limit ----

  lemma AppendedCount<T>(rows: seq<T>, row: T, p: T -> bool)
    ensures |Select(rows + [row], p)| == |Select(rows, p)| + if p(row) then 1 else 0
  {}

  /** A step after which every open reservation and live box was one before. */
  lemma NothingPromised(db: Db, db': Db)
    requires |db.intents| == |db'.intents| && |db.boxes| == |db'.boxes|
    requires forall i :: 0 <= i < |db.intents| && OpenReservation()(db'.intents[i]) ==> OpenReservation()(db.intents[i])
    requires forall b :: 0 <= b < |db.boxes| && IsLive(db'.boxes[b]) ==> IsLive(db.boxes[b])
    ensures PromisedServers(db') <= PromisedServers(db)
  {
    SelectShrinks(db.intents, db'.intents, OpenReservation());
    SelectShrinks(db.boxes, db'.boxes, LiveBox());
  }

  lemma ReservePromises(db: Db, user: nat, slug: string, plan: BoxPlan, now: int)
    requires Sound(db)
    ensures var (db', result) := ReserveCheckoutIntent(db, user, slug, plan, now);
            || PromisedServers(db') <= PromisedServers(db)
            || (PromisedServers(db') <= PromisedServers(db) + 1 && ReadCapacityUsage(db, now).CheckoutAvailable())
  {
    hide ReadCapacityUsage, IsSlugAvailable;
    ReserveUnfolds(db, user, slug, plan, now);
    var (db', result) := ReserveCheckoutIntent(db, user, slug, plan, now);
    if result.Reserved? {
      var db1 := Superseded(db, Select(db.intents, OfUser(user))[..YieldCount(db, user)]);
      NothingPromised(db, db1);
      AppendedCount(db1.intents, FreshIntent(user, slug, plan, now), OpenReservation());
    }
  }

  /** Giving a reservation its box takes it out of the open ones, if it was one. */
  lemma BoxedLeavesOpen(intents: seq<Intent>, i: nat, row: Intent)
    requires i < |intents| && intents[i].box.None? && row.box.Some?
    ensures |Select(intents[i := row], OpenReservation())| ==
            |Select(intents, OpenReservation())| - if intents[i].status == Active then 1 else 0
  {
    hide Select;
    var open, open' := Select(intents, OpenReservation()), Select(intents[i := row], OpenReservation());
    AscendingCount(open);
    AscendingCount(open');
    if intents[i].status == Active {
      assert IdSet(open') == IdSet(open) - {i};
      assert i in IdSet(open);
    } else {
      assert IdSet(open') == IdSet(open);
    }
  }

  /** Converting an open reservation moves its promise to the box. */
  lemma BoxedPromises(db: Db, i: nat, customer: nat, subscription: nat, plan: BoxPlan)
    requires i < |db.intents| && db.intents[i].box.None?
    ensures PromisedServers(Boxed(db, i, customer, subscription, plan)) ==
            PromisedServers(db) + if db.intents[i].status == Active then 0 else 1
  {
    hide Select;
    var db' := Boxed(db, i, customer, subscription, plan);
    AppendedCount(db.boxes, db'.boxes[|db.boxes|], LiveBox());
    BoxedLeavesOpen(db.intents, i, db'.intents[i]);
  }

  lemma CreatePromisesNothing(db: Db, box: nat, now: int)
    requires box < |db.boxes| && IsLive(db.boxes[box])
    ensures PromisedServers(StartOperation(db, box, CreateBox, CreateOf(box), None, now).0) <= PromisedServers(db)
  {
    hide IsSlugAvailable, Select;
    NothingPromised(db, StartOperation(db, box, CreateBox, CreateOf(box), None, now).0);
  }

  lemma RefusalPromisesNothing(db: Db, i: nat, customer: nat, order: nat, subscription: nat, reason: ReleaseReason)
    requires i < |db.intents|
    ensures PromisedServers(RefuseSale(db, i, customer, order, subscription, reason).0) <= PromisedServers(db)
  {
    hide Select;
    NothingPromised(db, RefuseSale(db, i, customer, order, subscription, reason).0);
  }

  lemma FulfilledPromises(db: Db, i: nat, customer: nat, subscription: nat, plan: BoxPlan, now: int)
    requires i < |db.intents| && db.intents[i].box.None?
    ensures PromisedServers(StartOperation(Boxed(db, i, customer, subscription, plan), |db.boxes|, CreateBox,
                                           CreateOf(|db.boxes|), None, now).0) <=
            PromisedServers(db) + if db.intents[i].status == Active then 0 else 1
  {
    hide StartOperation, PromisedServers;
    BoxedPromises(db, i, customer, subscription, plan);
    CreatePromisesNothing(Boxed(db, i, customer, subscription, plan), |db.boxes|, now);
  }

  lemma ConvertPromises(db: Db, i: nat, customer: nat, order: nat, subscription: nat, plan: BoxPlan, now: int)
    requires Sound(db)
    ensures var db' := ConvertCheckoutIntentToBox(db, i, customer, order, subscription, plan, now).0;
            || PromisedServers(db') <= PromisedServers(db)
            || (PromisedServers(db') <= PromisedServers(db) + 1 && ReadCapacityUsage(db, now).CheckoutAvailable())
  {
    hide ReadCapacityUsage, IsSlugAvailable, StartOperation, Boxed, PromisedServers, RefuseSale;
    if i < |db.intents| && db.intents[i].box.None? {
      ConversionUnfolds(db, i, customer, order, subscription, plan, now);
      FulfilledPromises(db, i, customer, subscription, plan, now);
      RefusalPromisesNothing(db, i, customer, order, subscription, CapacityUnavailable);
      RefusalPromisesNothing(db, i, customer, order, subscription, SlugConflict);
    }
  }

  lemma CompPromises(db: Db, user: nat, slug: string, plan: BoxPlan, key: string, now: int)
    requires Sound(db)
    ensures var db' := GrantComp(db, user, slug, plan, key, now);
            || db' == db
            || (PromisedServers(db') <= PromisedServers(db) + 1 && ReadCapacityUsage(db, now).CheckoutAvailable())
  {
    hide ReadCapacityUsage, IsSlugAvailable;
    var db' := GrantComp(db, user, slug, plan, key, now);
    if db' != db {
      var row := Box(user, slug, plan, Creating, None);
      var (db1, box) := InsertBox(db, row);
      AppendedCount(db.boxes, row, LiveBox());
      NothingPromised(db1, db');
    }
  }

  lemma OperationsPromiseNothing(w: World, a: Action)
    requires Sound(w.db)
    requires a.Start? || a.Run? || a.Settle? || a.Rename?
    ensures PromisedServers(Apply(w, a).db) <= PromisedServers(w.db)
  {
    hide ReadCapacityUsage, IsSlugAvailable;
    var db, db' := w.db, Apply(w, a).db;
    if db' != db {
      match a {
        case Start(box, kind, key, reservedSlug, now) =>
          StartedKeepsOperations(db, box, kind, Keyed(key), reservedSlug, now);
        case Run(operation) =>
        case Settle(operation, succeeded, boxStatus) => OpenOperation(db, operation);
        case Rename(operation, slug) => OpenOperation(db, operation);
      }
      NothingPromised(db, db');
    }
  }

  lemma RowStepsPromiseNothing(w: World, a: Action)
    requires a.Attach? || a.SetPlan? || a.SetPlanByCheckout? || a.Release? || a.CloseCheckout? || a.SweepExpired?
             || a.DeleteAccount? || a.OpenOrder? || a.RecordOrder?
    ensures PromisedServers(Apply(w, a).db) <= PromisedServers(w.db)
  {
    hide ReadCapacityUsage, IsSlugAvailable;
    NothingPromised(w.db, Apply(w, a).db);
  }

  lemma EnvironmentPromisesNothing(w: World, a: Action)
    requires a.WriteSettings? || a.MoveSnapshots?
    ensures PromisedServers(Apply(w, a).db) == PromisedServers(w.db)
  {
    hide PromisedServers, ReadCapacityUsage;
    SameRowsPromiseTheSame(w.db, Apply(w, a).db);
  }

  lemma SameRowsPromiseTheSame(db: Db, db': Db)
    requires db'.boxes == db.boxes && db'.intents == db.intents
    ensures PromisedServers(db') == PromisedServers(db)
  {}

  /** A step promises a server only when admission says one is left. */
  lemma StepPromises(w: World, a: Action)
    requires Sound(w.db)
    ensures || PromisedServers(Apply(w, a).db) <= PromisedServers(w.db)
            || (PromisedServers(Apply(w, a).db) <= PromisedServers(w.db) + 1
                && exists now: int :: ReadCapacityUsage(w.db, now).CheckoutAvailable())
  {
    match a
    case Reserve(user, slug, plan, now) => ReservePromises(w.db, user, slug, plan, now);
    case ConvertOrder(flight, now) =>
      if Apply(w, a).db != w.db {
        var order := flight.order;
        ConvertPromises(w.db, flight.intent, order.customer, order.id, order.subscription.value, order.soldPlan.value, now);
      }
    case Comp(user, slug, plan, key, now) => CompPromises(w.db, user, slug, plan, key, now);
    case Start(_, _, _, _, _) => OperationsPromiseNothing(w, a);
    case Run(_) => OperationsPromiseNothing(w, a);
    case Settle(_, _, _) => OperationsPromiseNothing(w, a);
    case Rename(_, _) => OperationsPromiseNothing(w, a);
    case WriteSettings(_) => EnvironmentPromisesNothing(w, a);
    case MoveSnapshots(_) => EnvironmentPromisesNothing(w, a);
    case Attach(_, _, _, _, _, _) => RowStepsPromiseNothing(w, a);
    case SetPlan(_, _) => RowStepsPromiseNothing(w, a);
    case SetPlanByCheckout(_, _) => RowStepsPromiseNothing(w, a);
    case Release(_, _) => RowStepsPromiseNothing(w, a);
    case CloseCheckout(_, _, _) => RowStepsPromiseNothing(w, a);
    case SweepExpired(_, _) => RowStepsPromiseNothing(w, a);
    case DeleteAccount(_) => RowStepsPromiseNothing(w, a);
    case OpenOrder(_) => RowStepsPromiseNothing(w, a);
    case RecordOrder(_, _) => RowStepsPromiseNothing(w, a);
  }

  /** A settings write stores its settings when the cap is one to fifty, and is refused
    * otherwise; it moves nothing else. */
  lemma SettingsWritten(w: World, settings: Settings)
    ensures Apply(w, WriteSettings(settings)) ==
            if 0 < settings.maxActiveIntents < 51 then w.(db := w.db.(settings := settings)) else w
  {}

  /** Only a settings write changes the settings. */
  lemma SettingsKept(w: World, a: Action)
    requires !a.WriteSettings?
    ensures Apply(w, a).db.settings == w.db.settings
  {
    hide ReadCapacityUsage, IsSlugAvailable;
    if a.ConvertOrder? && Apply(w, a).db != w.db {
      assert Apply(w, a).db.settings == w.db.settings;
    }
  }

  lemma ApplyPromises(w: World, a: Action, limit: Option<nat>)
    requires Sound(w.db) && w.db.settings.serverLimit == limit
    requires a.WriteSettings? ==> a.settings.serverLimit == limit
    requires PromisedServers(w.db) <= if limit.Some? then limit.value else 0
    ensures Apply(w, a).db.settings.serverLimit == limit
    ensures PromisedServers(Apply(w, a).db) <= if limit.Some? then limit.value else 0
  {
    hide PromisedServers, ReadCapacityUsage, Sound;
    if !a.WriteSettings? { SettingsKept(w, a); }
    StepPromises(w, a);
    if PromisedServers(Apply(w, a).db) > PromisedServers(w.db) {
      var now: int :| ReadCapacityUsage(w.db, now).CheckoutAvailable();
      AdmissionBound(w.db, now);
    }
  }

  /** With a fixed server limit, live boxes and open reservations together never
    * exceed it, whatever is reserved, superseded, expired, paid late, granted,
    * renamed or deleted. With no limit nothing is ever promised. */
  lemma {:induction false} ServersStayWithinTheLimit(settings: Settings, actions: seq<Action>)
    requires ValidSettings(settings)
    requires forall k :: 0 <= k < |actions| && actions[k].WriteSettings? ==>
               actions[k].settings.serverLimit == settings.serverLimit
    ensures var db := Exec(Deployed(settings), actions).db;
            && db.settings.serverLimit == settings.serverLimit
            && PromisedServers(db) <= if settings.serverLimit.Some? then settings.serverLimit.value else 0
  {
    if actions != [] {
      var before := actions[..|actions| - 1];
      ServersStayWithinTheLimit(settings, before);
      RunsStaySound(settings, before);
      ApplyPromises(Exec(Deployed(settings), before), actions[|actions| - 1], settings.serverLimit);
    }
  }
}
