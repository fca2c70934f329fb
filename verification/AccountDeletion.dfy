/** What is left to do once an account's deletion has finished: rewriting the records
  * that still carry its id, and removing its tombstone when nothing does. */
module AccountDeletion {
  import opened Tables
  import Drains

  const ACCOUNT_DELETION_PAGE_SIZE: nat := 100
  const DAY_MS: int := 86_400_000

  // ---- Rewriting ----

  datatype Record = Record(user: nat, email: Option<nat>)
  type Records = seq<Record>

  /** The tables a deletion leaves the account's id in, for the page to rewrite. */
  datatype Traces = Traces(boxes: Records, events: Records, notices: Records)

  function Of(user: nat): Record -> bool {
    (row: Record) => row.user == user
  }

  function Rewritten(row: Record, user: nat, email: Option<nat>): Record {
    Record(user, if email.Some? then email else row.email)
  }

  function RewriteEach(rows: Records, ids: seq<nat>, user: nat, email: Option<nat>): (r: Records)
    ensures |r| == |rows|
    ensures forall i :: 0 <= i < |r| ==> r[i] == if i in ids then Rewritten(rows[i], user, email) else rows[i]
  {
    seq(|rows|, i requires 0 <= i < |rows| => if i in ids then Rewritten(rows[i], user, email) else rows[i])
  }

  function PageOf(rows: Records, user: nat): seq<nat> {
    Take(Select(rows, Of(user)), ACCOUNT_DELETION_PAGE_SIZE)
  }

  /** One page of each table. Only a notice carries an address to replace. */
  function Pseudonymize(t: Traces, oldId: nat, newId: nat, email: nat): Traces {
    Traces(
      RewriteEach(t.boxes, PageOf(t.boxes, oldId), newId, None),
      RewriteEach(t.events, PageOf(t.events, oldId), newId, None),
      RewriteEach(t.notices, PageOf(t.notices, oldId), newId, Some(email)))
  }

  predicate IsFullPage(t: Traces, user: nat) {
    || |PageOf(t.boxes, user)| == ACCOUNT_DELETION_PAGE_SIZE
    || |PageOf(t.events, user)| == ACCOUNT_DELETION_PAGE_SIZE
    || |PageOf(t.notices, user)| == ACCOUNT_DELETION_PAGE_SIZE
  }

  function LeftIn(rows: Records, user: nat): nat {
    |Select(rows, Of(user))|
  }

  function Left(t: Traces, user: nat): nat {
    LeftIn(t.boxes, user) + LeftIn(t.events, user) + LeftIn(t.notices, user)
  }

  /** A page takes its rows away from the old id, exactly. */
  lemma PageRewrites(rows: Records, oldId: nat, newId: nat, email: Option<nat>)
    requires oldId != newId
    ensures LeftIn(RewriteEach(rows, PageOf(rows, oldId), newId, email), oldId) == LeftIn(rows, oldId) - |PageOf(rows, oldId)|
  {
    var ids, page := Select(rows, Of(oldId)), PageOf(rows, oldId);
    var after := Select(RewriteEach(rows, page, newId, email), Of(oldId));
    var rest := ids[|page|..];
    assert ids == page + rest;
    forall i: nat ensures i in after <==> i in rest {
      assert i in ids <==> i in page || i in rest;
      assert i in page ==> i !in rest;
    }
    AscendingUnique(after, rest);
  }

  lemma PseudonymizeShrinks(t: Traces, oldId: nat, newId: nat, email: nat)
    requires oldId != newId
    ensures var t' := Pseudonymize(t, oldId, newId, email);
            && Left(t', oldId) <= Left(t, oldId)
            && (IsFullPage(t, oldId) ==> Left(t', oldId) + ACCOUNT_DELETION_PAGE_SIZE <= Left(t, oldId))
            && (!IsFullPage(t, oldId) ==> Left(t', oldId) == 0)
  {
    PageRewrites(t.boxes, oldId, newId, None);
    PageRewrites(t.events, oldId, newId, None);
    PageRewrites(t.notices, oldId, newId, Some(email));
    PageIsAHundred(t.boxes, oldId);
    PageIsAHundred(t.events, oldId);
    PageIsAHundred(t.notices, oldId);
  }

  /** The mutation as it schedules itself again after a full page. */
  function Drain(t: Traces, oldId: nat, newId: nat, email: nat): Traces
    requires oldId != newId
    decreases Left(t, oldId)
  {
    PseudonymizeShrinks(t, oldId, newId, email);
    var t' := Pseudonymize(t, oldId, newId, email);
    if IsFullPage(t, oldId) then Drain(t', oldId, newId, email) else t'
  }

  /** What rewriting the whole table at once would leave. */
  function Renamed(rows: Records, oldId: nat, newId: nat, email: Option<nat>): (r: Records)
    ensures |r| == |rows|
    ensures forall i :: 0 <= i < |r| ==> r[i] == if rows[i].user == oldId then Rewritten(rows[i], newId, email) else rows[i]
  {
    seq(|rows|, i requires 0 <= i < |rows| => if rows[i].user == oldId then Rewritten(rows[i], newId, email) else rows[i])
  }

  lemma PageThenRenamed(rows: Records, oldId: nat, newId: nat, email: Option<nat>)
    requires oldId != newId
    ensures Renamed(RewriteEach(rows, PageOf(rows, oldId), newId, email), oldId, newId, email) == Renamed(rows, oldId, newId, email)
  {}

  lemma NoneLeftIsRenamed(rows: Records, oldId: nat, newId: nat, email: Option<nat>)
    requires LeftIn(rows, oldId) == 0
    ensures Renamed(rows, oldId, newId, email) == rows
  {}

  /** The drain ends with every record of the old id under the new one and every other
    * record as it was: no row is lost, none is left behind. */
  lemma {:induction false} DrainRewritesAll(t: Traces, oldId: nat, newId: nat, email: nat)
    requires oldId != newId
    ensures Drain(t, oldId, newId, email) ==
            Traces(Renamed(t.boxes, oldId, newId, None), Renamed(t.events, oldId, newId, None),
                   Renamed(t.notices, oldId, newId, Some(email)))
    ensures Left(Drain(t, oldId, newId, email), oldId) == 0
    decreases Left(t, oldId)
  {
    var t' := Pseudonymize(t, oldId, newId, email);
    PseudonymizeShrinks(t, oldId, newId, email);
    PageThenRenamed(t.boxes, oldId, newId, None);
    PageThenRenamed(t.events, oldId, newId, None);
    PageThenRenamed(t.notices, oldId, newId, Some(email));
    if IsFullPage(t, oldId) {
      DrainRewritesAll(t', oldId, newId, email);
    } else {
      NoneLeftIsRenamed(t'.boxes, oldId, newId, None);
      NoneLeftIsRenamed(t'.events, oldId, newId, None);
      NoneLeftIsRenamed(t'.notices, oldId, newId, Some(email));
    }
  }

  /** What a record is afterwards: one of the old id is the new id's, and a notice to it
    * goes to the replacement address; boxes and events keep what they hold, and records
    * of anyone else are as they were. */
  lemma RecordsAfterDrain(t: Traces, oldId: nat, newId: nat, email: nat, i: nat)
    requires oldId != newId
    ensures var t' := Drain(t, oldId, newId, email);
            && |t'.boxes| == |t.boxes| && |t'.events| == |t.events| && |t'.notices| == |t.notices|
            && (i < |t.boxes| ==> t'.boxes[i] == if t.boxes[i].user == oldId then t.boxes[i].(user := newId) else t.boxes[i])
            && (i < |t.events| ==> t'.events[i] == if t.events[i].user == oldId then t.events[i].(user := newId) else t.events[i])
            && (i < |t.notices| ==>
                  t'.notices[i] == if t.notices[i].user == oldId then Record(newId, Some(email)) else t.notices[i])
  {
    hide Drain;
    DrainRewritesAll(t, oldId, newId, email);
  }

  /** A page is a hundred records of a table, or all there are. */
  lemma PageIsAHundred(rows: Records, user: nat)
    ensures |PageOf(rows, user)| == if LeftIn(rows, user) < 100 then LeftIn(rows, user) else 100
  {}

  /** The drain with anything between its pages: `at(k)` is what page `k` finds, and
    * since the one before others brought at most `added` records under the old id. */
  ghost predicate DrainsAmidOthers(at: nat -> Traces, oldId: nat, newId: nat, email: nat, added: nat -> nat) {
    forall k: nat :: Left(at(k + 1), oldId) <= Left(Pseudonymize(at(k), oldId, newId, email), oldId) + added(k)
  }

  /** If the others only add so many, some page is the last, and after it no record is
    * left under the old id. */
  lemma DrainEndsAmidOthers(at: nat -> Traces, oldId: nat, newId: nat, email: nat, added: nat -> nat, bound: nat)
    returns (last: nat)
    requires oldId != newId && DrainsAmidOthers(at, oldId, newId, email, added)
    requires forall n: nat :: Drains.Total(added, n) <= bound
    ensures last * ACCOUNT_DELETION_PAGE_SIZE <= Left(at(0), oldId) + bound
    ensures Left(Pseudonymize(at(last), oldId, newId, email), oldId) == 0
  {
    hide Left, Pseudonymize, IsFullPage;
    var left: nat -> nat := (k: nat) => Left(at(k), oldId);
    var full: nat -> bool := (k: nat) => IsFullPage(at(k), oldId);
    forall k: nat | full(k) ensures left(k + 1) + ACCOUNT_DELETION_PAGE_SIZE <= left(k) + added(k) {
      PseudonymizeShrinks(at(k), oldId, newId, email);
    }
    last := Drains.SomeRoundIsShort(left, added, full, ACCOUNT_DELETION_PAGE_SIZE, bound);
    PseudonymizeShrinks(at(last), oldId, newId, email);
  }

  // ---- Purging tombstones ----

  datatype User = User(key: nat, deletionFinished: bool, purgeAt: Option<int>)
  type Users = seq<Option<User>>

  /** Whose id the four tables still carry. */
  datatype References = References(boxes: seq<nat>, intents: seq<nat>, events: seq<nat>, notices: seq<nat>)

  predicate IsReferenced(refs: References, user: nat) {
    user in refs.boxes || user in refs.intents || user in refs.events || user in refs.notices
  }

  function DueBy(now: int): Option<User> -> bool {
    (row: Option<User>) => row.Some? && row.value.purgeAt.Some? && 0 <= row.value.purgeAt.value <= now
  }

  function PurgeRow(row: Option<User>, refs: References, now: int): Option<User> {
    if row.None? then None
    else if !row.value.deletionFinished then Some(row.value.(purgeAt := None))
    else if IsReferenced(refs, row.value.key) then Some(row.value.(purgeAt := Some(now + DAY_MS)))
    else None
  }

  function PurgeRows(users: Users, ids: seq<nat>, refs: References, now: int): (r: Users)
    ensures |r| == |users|
    ensures forall i :: 0 <= i < |r| ==> r[i] == if i in ids then PurgeRow(users[i], refs, now) else users[i]
  {
    seq(|users|, i requires 0 <= i < |users| => if i in ids then PurgeRow(users[i], refs, now) else users[i])
  }

  function DuePage(users: Users, listing: seq<nat>, now: int): seq<nat> {
    Take(Ranged(users, listing, DueBy(now)), ACCOUNT_DELETION_PAGE_SIZE)
  }

  function PurgeExpired(users: Users, listing: seq<nat>, refs: References, now: int): Users {
    PurgeRows(users, DuePage(users, listing, now), refs, now)
  }

  /** A tombstone goes only when its deletion has finished, its time has come and no
    * table still points at it; a row whose time has not come is not touched. */
  lemma PurgeIsSafe(users: Users, listing: seq<nat>, refs: References, now: int, i: nat)
    requires i < |users| && users[i].Some?
    ensures var row' := PurgeExpired(users, listing, refs, now)[i];
            && (row'.None? ==> DueBy(now)(users[i]) && users[i].value.deletionFinished && !IsReferenced(refs, users[i].value.key))
            && (row'.Some? ==> row'.value.key == users[i].value.key
                               && row'.value.deletionFinished == users[i].value.deletionFinished)
            && (!DueBy(now)(users[i]) ==> row' == users[i])
  {}

  predicate IsDue(row: Option<User>, now: int) {
    row.Some? && row.value.purgeAt.Some? && row.value.purgeAt.value >= 0 && row.value.purgeAt.value <= now
  }

  /** What becomes of a row, case by case: a due one of a page is cleared when its account
    * was not deleted after all, put off for a day while boxes, reservations, events or
    * notices point at it, and removed otherwise. A page is a hundred due rows, or all. */
  lemma PurgeExactly(users: Users, listing: seq<nat>, refs: References, now: int, i: nat)
    requires IsListing(listing, |users|) && i < |users|
    ensures var row, row' := users[i], PurgeExpired(users, listing, refs, now)[i];
            var page := DuePage(users, listing, now);
            && |page| <= 100
            && (i in page ==> IsDue(row, now))
            && (|page| < 100 && IsDue(row, now) ==> i in page)
            && (i !in page ==> row' == row)
            && (i in page ==>
                  var key := row.value.key;
                  var held := key in refs.boxes || key in refs.intents || key in refs.events || key in refs.notices;
                  row' == if !row.value.deletionFinished then Some(row.value.(purgeAt := None))
                          else if held then Some(row.value.(purgeAt := Some(now + 24 * 60 * 60 * 1000)))
                          else None)
  {
    PageIsDue(users, listing, now);
  }

  /** The rows due within a day of `t0`. */
  function DueIds(users: Users, t0: int): set<nat> {
    set i: nat | i < |users| && DueBy(t0 + DAY_MS - 1)(users[i])
  }

  lemma PageIsDue(users: Users, listing: seq<nat>, now: int)
    requires IsListing(listing, |users|)
    ensures var page := DuePage(users, listing, now);
            && Distinct(page)
            && (forall i: nat :: i in page ==> i < |users| && DueBy(now)(users[i]))
            && (|page| < ACCOUNT_DELETION_PAGE_SIZE ==>
                  forall i: nat :: i < |users| && DueBy(now)(users[i]) ==> i in page)
  {
    RangedDistinct(users, listing, DueBy(now));
    var due, page := Ranged(users, listing, DueBy(now)), DuePage(users, listing, now);
    assert forall i: nat :: i in page ==> i in due;
  }

  /** Each round settles its page for at least a day. */
  lemma PurgeShrinks(users: Users, listing: seq<nat>, refs: References, now: int, t0: int)
    requires IsListing(listing, |users|) && t0 <= now < t0 + DAY_MS
    ensures |DueIds(PurgeExpired(users, listing, refs, now), t0)| == |DueIds(users, t0)| - |DuePage(users, listing, now)|
  {
    var page := DuePage(users, listing, now);
    var before, after := DueIds(users, t0), DueIds(PurgeExpired(users, listing, refs, now), t0);
    PageIsDue(users, listing, now);
    forall i: nat ensures i in after <==> i in before - IdSet(page) {}
    assert after == before - IdSet(page);
    DifferenceCount(before, IdSet(page));
    DistinctCount(page);
  }

  /** The sweep as it schedules itself again, each round at its own time within a day
    * of the first. */
  function PurgeDrive(users: Users, listing: seq<nat>, refs: References, clock: nat -> int, t0: int, round: nat): (Users, nat)
    requires IsListing(listing, |users|) && forall n: nat :: t0 <= clock(n) < t0 + DAY_MS
    decreases |DueIds(users, t0)|
  {
    PurgeShrinks(users, listing, refs, clock(round), t0);
    var users' := PurgeExpired(users, listing, refs, clock(round));
    if |DuePage(users, listing, clock(round))| == ACCOUNT_DELETION_PAGE_SIZE then
      PurgeDrive(users', listing, refs, clock, t0, round + 1)
    else (users', round)
  }

  /** What a purge may do: remove finished accounts nothing points at, and move the
    * purge time of rows due within the day of `t0`. */
  ghost predicate OnlyPurged(users: Users, users': Users, refs: References, t0: int) {
    && |users'| == |users|
    && (forall i :: 0 <= i < |users| && users[i].None? ==> users'[i].None?)
    && (forall i :: 0 <= i < |users| && users[i].Some? && users'[i].None? ==>
          users[i].value.deletionFinished && !IsReferenced(refs, users[i].value.key))
    && (forall i :: 0 <= i < |users| && users[i].Some? && users'[i].Some? ==>
          users'[i].value == users[i].value.(purgeAt := users'[i].value.purgeAt))
    && (forall i :: 0 <= i < |users| && !DueBy(t0 + DAY_MS - 1)(users[i]) ==> users'[i] == users[i])
  }

  lemma PurgeOnlyPurges(users: Users, listing: seq<nat>, refs: References, now: int, t0: int)
    requires IsListing(listing, |users|) && t0 <= now < t0 + DAY_MS
    ensures OnlyPurged(users, PurgeExpired(users, listing, refs, now), refs, t0)
    ensures |PurgeExpired(users, listing, refs, now)| == |users|
    ensures |DuePage(users, listing, now)| < ACCOUNT_DELETION_PAGE_SIZE ==>
              forall i :: 0 <= i < |PurgeExpired(users, listing, refs, now)| ==> !DueBy(now)(PurgeExpired(users, listing, refs, now)[i])
  {}

  lemma PurgesCompose(a: Users, b: Users, c: Users, refs: References, t0: int)
    requires OnlyPurged(a, b, refs, t0) && OnlyPurged(b, c, refs, t0)
    ensures OnlyPurged(a, c, refs, t0)
  {}

  /** It ends with no row due at its last round, having removed only finished accounts
    * nothing points at, and never touched a row not due within the day. */
  lemma {:induction false} PurgeDriveEnds(
    users: Users, listing: seq<nat>, refs: References, clock: nat -> int, t0: int, round: nat)
    requires IsListing(listing, |users|) && forall n: nat :: t0 <= clock(n) < t0 + DAY_MS
    ensures var (users', last) := PurgeDrive(users, listing, refs, clock, t0, round);
            && OnlyPurged(users, users', refs, t0)
            && round <= last
            && (forall i :: 0 <= i < |users'| ==> !DueBy(clock(last))(users'[i]))
    decreases |DueIds(users, t0)|
  {
    hide OnlyPurged, PurgeExpired, DueIds;
    assert |DuePage(users, listing, clock(round))| <= ACCOUNT_DELETION_PAGE_SIZE;
    var after := PurgeExpired(users, listing, refs, clock(round));
    PurgeShrinks(users, listing, refs, clock(round), t0);
    PurgeOnlyPurges(users, listing, refs, clock(round), t0);
    if |DuePage(users, listing, clock(round))| == ACCOUNT_DELETION_PAGE_SIZE {
      PurgeDriveEnds(after, listing, refs, clock, t0, round + 1);
      PurgesCompose(users, after, PurgeDrive(after, listing, refs, clock, t0, round + 1).0, refs, t0);
    }
  }

  /** The sweep with anything between its pages, within a day of `t0`: others finish
    * deletions and refer to accounts as they like, and make at most `added` more rows
    * due that day. */
  ghost predicate PurgesAmidOthers(
    at: nat -> Users, listing: nat -> seq<nat>, refs: nat -> References, clock: nat -> int, t0: int, added: nat -> nat)
  {
    && (forall k: nat :: IsListing(listing(k), |at(k)|) && t0 <= clock(k) < t0 + DAY_MS)
    && (forall k: nat :: |DueIds(at(k + 1), t0)| <= |DueIds(PurgeExpired(at(k), listing(k), refs(k), clock(k)), t0)| + added(k))
  }

  /** If the others only add so many, some page is the last, and leaves nothing due. */
  lemma PurgeEndsAmidOthers(
    at: nat -> Users, listing: nat -> seq<nat>, refs: nat -> References, clock: nat -> int, t0: int, added: nat -> nat,
    bound: nat)
    returns (last: nat)
    requires PurgesAmidOthers(at, listing, refs, clock, t0, added)
    requires forall n: nat :: Drains.Total(added, n) <= bound
    ensures last * ACCOUNT_DELETION_PAGE_SIZE <= |DueIds(at(0), t0)| + bound
    ensures var users' := PurgeExpired(at(last), listing(last), refs(last), clock(last));
            forall i :: 0 <= i < |users'| ==> !DueBy(clock(last))(users'[i])
  {
    hide DueIds, PurgeExpired, DuePage, IsListing;
    var left: nat -> nat := (k: nat) => |DueIds(at(k), t0)|;
    var full: nat -> bool := (k: nat) => |DuePage(at(k), listing(k), clock(k))| == ACCOUNT_DELETION_PAGE_SIZE;
    forall k: nat | full(k) ensures left(k + 1) + ACCOUNT_DELETION_PAGE_SIZE <= left(k) + added(k) {
      PurgeShrinks(at(k), listing(k), refs(k), clock(k), t0);
    }
    last := Drains.SomeRoundIsShort(left, added, full, ACCOUNT_DELETION_PAGE_SIZE, bound);
    PageIsShort(at(last), listing(last), clock(last));
    PurgeOnlyPurges(at(last), listing(last), refs(last), clock(last), t0);
  }

  lemma PageIsShort(users: Users, listing: seq<nat>, now: int)
    ensures |DuePage(users, listing, now)| <= ACCOUNT_DELETION_PAGE_SIZE
  {}

  // ---- As the program performs it ----

  method RewritePage(rows: Records, ids: seq<nat>, user: nat, email: Option<nat>) returns (r: Records)
    requires Distinct(ids) && forall k :: 0 <= k < |ids| ==> ids[k] < |rows|
    ensures r == RewriteEach(rows, ids, user, email)
  {
    r := rows;
    for k := 0 to |ids|
      invariant |r| == |rows|
      invariant r == RewriteEach(rows, ids[..k], user, email)
    {
      assert ids[..k + 1] == ids[..k] + [ids[k]];
      r := r[ids[k] := Rewritten(r[ids[k]], user, email)];
    }
    assert ids[..|ids|] == ids;
  }

  lemma PageIsDistinct(rows: Records, user: nat)
    ensures Distinct(PageOf(rows, user))
    ensures forall k :: 0 <= k < |PageOf(rows, user)| ==> PageOf(rows, user)[k] < |rows|
  {
    var ids := Select(rows, Of(user));
    assert forall k :: 0 <= k < |ids| ==> ids[k] in ids;
  }

  lemma PurgedOneMore(users: Users, ids: seq<nat>, k: nat, refs: References, now: int)
    requires k < |ids| && Distinct(ids) && ids[k] < |users|
    ensures var done := PurgeRows(users, ids[..k], refs, now);
            && done[ids[k]] == users[ids[k]]
            && PurgeRows(users, ids[..k + 1], refs, now) == done[ids[k] := PurgeRow(users[ids[k]], refs, now)]
  {}

  class DeletionTables {
    var boxes: Records
    var events: Records
    var notices: Records
    var users: Users

    constructor ()
      ensures State() == Traces([], [], []) && users == []
    {
      boxes, events, notices, users := [], [], [], [];
    }

    function State(): Traces
      reads this
    {
      Traces(boxes, events, notices)
    }

    method PseudonymizeDeletedAccountRecords(oldId: nat, newId: nat, email: nat) returns (again: bool)
      modifies `boxes, `events, `notices
      ensures State() == Pseudonymize(old(State()), oldId, newId, email)
      ensures again <==> IsFullPage(old(State()), oldId)
    {
      var boxPage, eventPage, noticePage := PageOf(boxes, oldId), PageOf(events, oldId), PageOf(notices, oldId);
      PageIsDistinct(boxes, oldId);
      PageIsDistinct(events, oldId);
      PageIsDistinct(notices, oldId);
      boxes := RewritePage(boxes, boxPage, newId, None);
      events := RewritePage(events, eventPage, newId, None);
      notices := RewritePage(notices, noticePage, newId, Some(email));
      again := |boxPage| == ACCOUNT_DELETION_PAGE_SIZE || |eventPage| == ACCOUNT_DELETION_PAGE_SIZE
               || |noticePage| == ACCOUNT_DELETION_PAGE_SIZE;
    }

    method DrainDeletedAccount(oldId: nat, newId: nat, email: nat)
      requires oldId != newId
      modifies `boxes, `events, `notices
      ensures State() == Drain(old(State()), oldId, newId, email)
      ensures Left(State(), oldId) == 0
      ensures |boxes| == |old(boxes)| && |events| == |old(events)| && |notices| == |old(notices)|
    {
      DrainRewritesAll(State(), oldId, newId, email);
      var again := true;
      while again
        invariant again ==> Drain(State(), oldId, newId, email) == Drain(old(State()), oldId, newId, email)
        invariant !again ==> State() == Drain(old(State()), oldId, newId, email)
        decreases if again then 1 else 0, Left(State(), oldId)
      {
        PseudonymizeShrinks(State(), oldId, newId, email);
        again := PseudonymizeDeletedAccountRecords(oldId, newId, email);
      }
    }

    method PurgeExpiredDeletedAccounts(listing: seq<nat>, refs: References, now: int) returns (again: bool)
      requires IsListing(listing, |users|)
      modifies `users
      ensures users == PurgeExpired(old(users), listing, refs, now)
      ensures again <==> |DuePage(old(users), listing, now)| == ACCOUNT_DELETION_PAGE_SIZE
    {
      var page := DuePage(users, listing, now);
      PageIsDue(users, listing, now);
      for k := 0 to |page|
        invariant |users| == |old(users)|
        invariant users == PurgeRows(old(users), page[..k], refs, now)
      {
        assert page[k] in page;
        PurgedOneMore(old(users), page, k, refs, now);
        var user := users[page[k]].value;
        if !user.deletionFinished {
          users := users[page[k] := Some(user.(purgeAt := None))];
        } else if IsReferenced(refs, user.key) {
          users := users[page[k] := Some(user.(purgeAt := Some(now + DAY_MS)))];
        } else {
          users := users[page[k] := None];
        }
      }
      assert page[..|page|] == page;
      again := |page| == ACCOUNT_DELETION_PAGE_SIZE;
    }
  }
}
