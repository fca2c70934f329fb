/** What every transaction keeps: reservations well formed, no slug with two
  * owners, one operation a box, one reservation a box, every user under the cap. */
module CheckoutInvariant {
  import opened Tables
  import opened Vocabulary
  import opened Store
  import opened SlugAvailability
  import opened Capacity
  import opened Operations
  import opened Checkout

  predicate RowSound(row: Intent, boxCount: nat) {
    && (row.status == Active ==> row.releaseReason.None? && IsValidSlug(row.slug))
    && (row.box.Some? <==> row.status == Converted)
    && (row.box.Some? ==> row.box.value < boxCount && !IsUnfulfillable(row.releaseReason))
    && (row.status in {Released, Expired} ==> row.releaseReason.Some?)
  }

  predicate IntentsSound(db: Db) {
    forall i :: 0 <= i < |db.intents| ==> RowSound(db.intents[i], |db.boxes|)
  }

  predicate OneIntentPerBox(db: Db) {
    forall i, j :: 0 <= i < j < |db.intents| && db.intents[i].box.Some? ==> db.intents[i].box != db.intents[j].box
  }

  predicate OperationSound(db: Db, o: nat)
    requires o < |db.operations|
  {
    var row := db.operations[o];
    && row.box < |db.boxes|
    && (row.key.CreateOf? ==> row.key.box < |db.boxes|)
    && (IsActiveOperation(row) ==> IsLive(db.boxes[row.box]))
  }

  predicate OneOperationPerBox(db: Db) {
    forall o, p ::
      (0 <= o < p < |db.operations| && IsActiveOperation(db.operations[o]) && IsActiveOperation(db.operations[p]))
      ==> db.operations[o].box != db.operations[p].box
  }

  predicate OperationsSound(db: Db) {
    && (forall o :: 0 <= o < |db.operations| ==> OperationSound(db, o))
    && OneOperationPerBox(db)
  }

  ghost predicate UsersUnderMaximum(db: Db) {
    && 1 <= db.settings.maxActiveIntents <= MAX_ACTIVE_INTENTS_PER_USER
    && forall user: nat :: |Select(db.intents, OfUser(user))| <= MAX_ACTIVE_INTENTS_PER_USER
  }

  ghost predicate Sound(db: Db) {
    && IntentsSound(db)
    && OneIntentPerBox(db)
    && OperationsSound(db)
    && UsersUnderMaximum(db)
    && Exclusive(db)
    && db.created == |db.boxes|
  }

  // ---- Holders ----

  /** If every holder was a holder with the same owner, no slug gains an owner. */
  lemma ExclusiveInherited(db: Db, db': Db)
    requires Exclusive(db)
    requires forall h: Holder, s: string :: Holds(db', h, s) ==> Holds(db, h, s) && OwnerOf(db', h) == OwnerOf(db, h)
    ensures Exclusive(db')
  {}

  /** One new holder of a slug that only its own owner held before. */
  lemma ExclusiveExtended(db: Db, db': Db, newcomer: Holder, slug: string)
    requires Exclusive(db)
    requires forall h: Holder, s: string :: Holds(db', h, s) && !(h == newcomer && s == slug) ==>
               Holds(db, h, s) && OwnerOf(db', h) == OwnerOf(db, h)
    requires forall h: Holder :: h != newcomer && Holds(db', h, slug) ==> OwnerOf(db', h) == OwnerOf(db', newcomer)
    ensures Exclusive(db')
  {}

  // ---- Counting ----

  lemma SelectShrinks<T>(rows: seq<T>, rows': seq<T>, p: T -> bool)
    requires |rows| <= |rows'|
    requires forall i :: 0 <= i < |rows'| && p(rows'[i]) ==> i < |rows| && p(rows[i])
    ensures |Select(rows', p)| <= |Select(rows, p)|
  {
    var a, b := Select(rows, p), Select(rows', p);
    AscendingCount(a);
    AscendingCount(b);
    assert IdSet(b) <= IdSet(a);
    SubsetCount(IdSet(b), IdSet(a));
  }

  // ---- Patches that hold nothing new ----

  /** The row keeps what it held, or ends without a box. */
  predicate QuietRow(row: Intent, row': Intent) {
    && row'.user == row.user && row'.slug == row.slug && row'.box == row.box
    && ((row'.status == row.status && row'.releaseReason == row.releaseReason)
        || (row.box.None? && row'.status in {Released, Expired} && row'.releaseReason.Some?))
  }

  predicate QuietPatch(db: Db, db': Db) {
    && db'.boxes == db.boxes && db'.operations == db.operations && db'.created == db.created
    && db'.settings == db.settings
    && |db'.intents| == |db.intents|
    && forall i :: 0 <= i < |db.intents| ==> QuietRow(db.intents[i], db'.intents[i])
  }

  lemma QuietKeepsRows(db: Db, db': Db)
    requires QuietPatch(db, db') && IntentsSound(db) && OneIntentPerBox(db)
    ensures IntentsSound(db') && OneIntentPerBox(db')
  {}

  lemma QuietKeepsOwners(db: Db, db': Db)
    requires QuietPatch(db, db') && Exclusive(db) && IntentsSound(db)
    ensures forall h: Holder, s: string :: Holds(db', h, s) ==> Holds(db, h, s)
    ensures Exclusive(db')
  {
    forall h: Holder, s: string | Holds(db', h, s) ensures Holds(db, h, s) && OwnerOf(db', h) == OwnerOf(db, h) {
      if h.IntentHolder? {
        assert QuietRow(db.intents[h.id], db'.intents[h.id]);
      }
    }
    ExclusiveInherited(db, db');
  }

  lemma QuietKeepsCounts(db: Db, db': Db)
    requires QuietPatch(db, db') && UsersUnderMaximum(db)
    ensures UsersUnderMaximum(db')
  {
    forall user: nat ensures |Select(db'.intents, OfUser(user))| <= MAX_ACTIVE_INTENTS_PER_USER {
      forall i | 0 <= i < |db'.intents| && OfUser(user)(db'.intents[i]) ensures OfUser(user)(db.intents[i]) {
        assert QuietRow(db.intents[i], db'.intents[i]);
      }
      SelectShrinks(db.intents, db'.intents, OfUser(user));
    }
  }

  lemma QuietKeepsSound(db: Db, db': Db)
    requires QuietPatch(db, db') && Sound(db)
    ensures Sound(db')
  {
    QuietKeepsRows(db, db');
    QuietKeepsOwners(db, db');
    QuietKeepsCounts(db, db');
    forall o | 0 <= o < |db'.operations| ensures OperationSound(db', o) { assert OperationSound(db, o); }
  }

  // ---- Reserving ----

  lemma AppendedIntentKeepsSound(db: Db, row: Intent)
    requires Sound(db)
    requires row.status == Active && row.box.None? && RowSound(row, |db.boxes|)
    requires forall h: Holder :: !Holds(db, h, row.slug)
    requires |Select(db.intents, OfUser(row.user))| < MAX_ACTIVE_INTENTS_PER_USER
    ensures Sound(WithIntent(db, row))
  {
    var db' := WithIntent(db, row);
    forall h: Holder, s: string | Holds(db', h, s) && !(h == IntentHolder(|db.intents|) && s == row.slug)
      ensures Holds(db, h, s) && OwnerOf(db', h) == OwnerOf(db, h)
    {}
    ExclusiveExtended(db, db', IntentHolder(|db.intents|), row.slug);
    forall user: nat ensures |Select(db'.intents, OfUser(user))| <= MAX_ACTIVE_INTENTS_PER_USER {
      assert db'.intents[..|db'.intents| - 1] == db.intents;
    }
    forall o | 0 <= o < |db'.operations| ensures OperationSound(db', o) { assert OperationSound(db, o); }
  }

  lemma PrefixOrSuffix(ids: seq<nat>, n: nat, i: nat)
    requires Ascending(ids) && n <= |ids|
    ensures i in ids[n..] <==> i in ids && i !in ids[..n]
  {}

  /** Releasing the oldest `n` of a user's active reservations leaves exactly the rest. */
  lemma ReleasingOldest(db: Db, user: nat, n: nat)
    requires n <= |Select(db.intents, OfUser(user))|
    ensures var ids := Select(db.intents, OfUser(user));
            Select(Superseded(db, ids[..n]).intents, OfUser(user)) == ids[n..]
  {
    var ids := Select(db.intents, OfUser(user));
    var left := Select(Superseded(db, ids[..n]).intents, OfUser(user));
    forall i: nat ensures i in left <==> i in ids[n..] {
      PrefixOrSuffix(ids, n, i);
    }
    AscendingUnique(left, ids[n..]);
  }

  lemma SupersedingIsQuiet(db: Db, user: nat, n: nat)
    requires n <= |Select(db.intents, OfUser(user))| && IntentsSound(db)
    ensures QuietPatch(db, Superseded(db, Select(db.intents, OfUser(user))[..n]))
  {}

  /** How many of the user's reservations a new one makes yield. */
  function YieldCount(db: Db, user: nat): nat {
    Max(0, |Select(db.intents, OfUser(user))| - db.settings.maxActiveIntents + 1)
  }

  lemma ReserveUnfolds(db: Db, user: nat, slug: string, plan: BoxPlan, now: int)
    requires UsersUnderMaximum(db)
    ensures var (db', result) := ReserveCheckoutIntent(db, user, slug, plan, now);
            && !result.OutOfBounds?
            && (!result.Reserved? ==> db' == db)
            && (result.Reserved? ==>
                  && result.id == |db.intents|
                  && IsSlugAvailable(db, slug, IGNORE_NOTHING)
                  && ReadCapacityUsage(db, now).CheckoutAvailable()
                  && YieldCount(db, user) <= |Select(db.intents, OfUser(user))|
                  && db' == WithIntent(Superseded(db, Select(db.intents, OfUser(user))[..YieldCount(db, user)]),
                                       FreshIntent(user, slug, plan, now)))
  {
    hide ReadCapacityUsage, IsSlugAvailable;
    var ids, n := Select(db.intents, OfUser(user)), YieldCount(db, user);
    assert |ids| <= MAX_ACTIVE_INTENTS_PER_USER;
    assert ReadActive(db, user) == ids;
    assert Take(ids, n) == ids[..n];
  }

  /** A new reservation releases exactly the oldest ones in its way and leaves the
    * user within the cap; the bounds check cannot fail. */
  lemma ReservationKeepsTheCap(db: Db, user: nat, slug: string, plan: BoxPlan, now: int)
    requires Sound(db)
    ensures var (db', result) := ReserveCheckoutIntent(db, user, slug, plan, now);
            && !result.OutOfBounds?
            && (result.Reserved? ==>
                  && Select(db'.intents, OfUser(user)) ==
                     Select(db.intents, OfUser(user))[YieldCount(db, user)..] + [|db.intents|]
                  && |Select(db'.intents, OfUser(user))| <= db.settings.maxActiveIntents)
  {
    hide ReadCapacityUsage, IsSlugAvailable;
    ReserveUnfolds(db, user, slug, plan, now);
    var (db', result) := ReserveCheckoutIntent(db, user, slug, plan, now);
    if result.Reserved? {
      var kept := Superseded(db, Select(db.intents, OfUser(user))[..YieldCount(db, user)]).intents;
      ReleasingOldest(db, user, YieldCount(db, user));
      assert db'.intents[..|db'.intents| - 1] == kept;
    }
  }

  lemma ReserveKeepsSound(db: Db, user: nat, slug: string, plan: BoxPlan, now: int)
    requires Sound(db)
    ensures Sound(ReserveCheckoutIntent(db, user, slug, plan, now).0)
  {
    var (db', result) := ReserveCheckoutIntent(db, user, slug, plan, now);
    ReserveUnfolds(db, user, slug, plan, now);
    if result.Reserved? {
      var ids, n := Select(db.intents, OfUser(user)), YieldCount(db, user);
      var db1 := Superseded(db, ids[..n]);
      SupersedingIsQuiet(db, user, n);
      QuietKeepsSound(db, db1);
      QuietKeepsOwners(db, db1);
      AvailableToAll(db, slug);
      ReleasingOldest(db, user, n);
      AppendedIntentKeepsSound(db1, FreshIntent(user, slug, plan, now));
    }
  }
}
