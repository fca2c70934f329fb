/** Sending a legal notice to every account that existed when the send began: a walk
  * over the accounts in pages of fifty, any number of overlapping chains sharing the
  * one cursor stored on the notice. */
module LegalNotice {
  import opened Tables

  const NOTICE_PAGE_SIZE: nat := 50

  /** An account is known by its Clerk id until its deletion finishes. */
  datatype Key = Clerk(account: nat) | Scrubbed(account: nat)

  datatype User = User(key: Key, createdAt: int, deletionFinished: bool)
  datatype Notice = Notice(startedAt: int, cursor: Option<nat>, finishedAt: Option<int>, recipientCount: nat)
  datatype Recipient = Recipient(notice: nat, user: Key, queued: bool)

  datatype World = World(now: int, users: seq<User>, notices: map<nat, Notice>, recipients: seq<Recipient>)

  /** How many accounts, in creation order, are older than `time`. */
  function Cohort(users: seq<User>, time: int): (n: nat)
    ensures n <= |users|
  {
    if users == [] then 0
    else if users[|users| - 1].createdAt < time then |users|
    else Cohort(users[..|users| - 1], time)
  }

  function NoticeRow(w: World, id: nat): Notice {
    if id in w.notices then w.notices[id] else Notice(w.now, None, None, 0)
  }

  function Position(notice: Notice): nat {
    if notice.cursor.Some? then notice.cursor.value else 0
  }

  /** A page the database may return: where it ends, and whether that is known to be
    * the end of the cohort. Only a page that is not the last must make progress. */
  datatype Page = Page(end: nat, isDone: bool)

  predicate IsPage(users: seq<User>, notice: Notice, page: Page) {
    var cohort := Cohort(users, notice.startedAt);
    && Position(notice) <= page.end <= cohort
    && page.end <= Position(notice) + NOTICE_PAGE_SIZE
    && (page.isDone ==> page.end == cohort)
    && (!page.isDone ==> Position(notice) < page.end)
  }

  predicate AlreadyRecorded(recipients: seq<Recipient>, notice: nat, user: Key) {
    exists i :: 0 <= i < |recipients| && recipients[i].notice == notice && recipients[i].user == user
  }

  /** One account of a page: skipped, mailed, or recorded as failed. */
  function MailOne(recipients: seq<Recipient>, notice: nat, user: User, fails: bool): (seq<Recipient>, nat) {
    if user.deletionFinished || AlreadyRecorded(recipients, notice, user.key) then (recipients, 0)
    else (recipients + [Recipient(notice, user.key, !fails)], if fails then 0 else 1)
  }

  function MailPage(
    recipients: seq<Recipient>, users: seq<User>, notice: nat, from: nat, to: nat, failing: set<nat>): (seq<Recipient>, nat)
    requires to <= |users|
  {
    if to <= from then (recipients, 0) else
      var (before, sent) := MailPage(recipients, users, notice, from, to - 1, failing);
      var (after, more) := MailOne(before, notice, users[to - 1], to - 1 in failing);
      (after, sent + more)
  }

  datatype SendResult = Unsendable | Finished | Continued

  /** One page of a recorded notice. */
  function SendPage(w: World, id: nat, page: Page, failing: set<nat>): World
    requires id in w.notices && IsPage(w.users, w.notices[id], page)
  {
    var notice := w.notices[id];
    var (recipients, sent) := MailPage(w.recipients, w.users, id, Position(notice), page.end, failing);
    var moved := notice.(
      cursor := if page.isDone then None else Some(page.end),
      finishedAt := if page.isDone then Some(w.now) else None,
      recipientCount := notice.recipientCount + sent);
    w.(notices := w.notices[id := moved], recipients := recipients)
  }

  /** The notice recorded, its start time with it, the first time it is sent. */
  function WithNotice(w: World, id: nat): World {
    w.(notices := w.notices[id := NoticeRow(w, id)])
  }

  /** One send. `failing` are the accounts whose mail cannot be queued. */
  function SendLegalNotice(w: World, id: nat, hasSender: bool, page: Page, failing: set<nat>): (World, SendResult) {
    if !hasSender then (w, Unsendable)
    else if NoticeRow(w, id).finishedAt.Some? then (WithNotice(w, id), Finished)
    else if !IsPage(w.users, NoticeRow(w, id), page) then (w, Unsendable)
    else (SendPage(WithNotice(w, id), id, page, failing), if page.isDone then Finished else Continued)
  }

  // ---- The rest of what happens to accounts ----

  function SignUp(w: World): World {
    w.(users := w.users + [User(Clerk(|w.users|), w.now, false)])
  }

  function FinishDeletion(w: World, account: nat): World {
    if account >= |w.users| then w else
      w.(users := w.users[account := w.users[account].(key := Scrubbed(account), deletionFinished := true)])
  }

  function PseudonymizeRows(recipients: seq<Recipient>, account: nat, rows: set<nat>): (r: seq<Recipient>)
    ensures |r| == |recipients|
    ensures forall i :: 0 <= i < |r| ==>
              r[i] == if i in rows && recipients[i].user == Clerk(account)
                      then recipients[i].(user := Scrubbed(account)) else recipients[i]
  {
    seq(|recipients|, i requires 0 <= i < |recipients| =>
      if i in rows && recipients[i].user == Clerk(account) then recipients[i].(user := Scrubbed(account)) else recipients[i])
  }

  /** A page of the rewriting that follows a finished deletion. */
  function Pseudonymize(w: World, account: nat, rows: set<nat>): World {
    if account >= |w.users| || !w.users[account].deletionFinished then w else
      w.(recipients := PseudonymizeRows(w.recipients, account, rows))
  }

  datatype Action =
    | Wait(ms: nat)
    | NewAccount
    | AccountGone(account: nat)
    | Rewrite(account: nat, rows: set<nat>)
    | Send(id: nat, hasSender: bool, page: Page, failing: set<nat>)

  function Apply(w: World, a: Action): World {
    match a
    case Wait(ms) => w.(now := w.now + ms)
    case NewAccount => SignUp(w)
    case AccountGone(account) => FinishDeletion(w, account)
    case Rewrite(account, rows) => Pseudonymize(w, account, rows)
    case Send(id, hasSender, page, failing) => SendLegalNotice(w, id, hasSender, page, failing).0
  }

  function Exec(w: World, actions: seq<Action>): World {
    if actions == [] then w else Apply(Exec(w, actions[..|actions| - 1]), actions[|actions| - 1])
  }

  function Start(now: int): World {
    World(now, [], map[], [])
  }
}

/** What the walk owes: one row an account, nobody too young, an honest count, and
  * nobody missed once it says it has finished. */
module LegalNoticeRuns {
  import opened Tables
  import opened LegalNotice

  ghost predicate UsersSound(w: World) {
    && (forall i, j :: 0 <= i < j < |w.users| ==> w.users[i].createdAt <= w.users[j].createdAt)
    && (forall i :: 0 <= i < |w.users| ==> w.users[i].createdAt <= w.now)
    && (forall i :: 0 <= i < |w.users| ==>
          w.users[i].key == if w.users[i].deletionFinished then Scrubbed(i) else Clerk(i))
  }

  lemma {:induction false} CohortExactly(users: seq<User>, time: int)
    requires forall i, j :: 0 <= i < j < |users| ==> users[i].createdAt <= users[j].createdAt
    ensures forall i :: 0 <= i < |users| ==> (i < Cohort(users, time) <==> users[i].createdAt < time)
  {
    if users != [] {
      CohortExactly(users[..|users| - 1], time);
    }
  }

  /** How far the walk of a notice has come. */
  function Reached(w: World, notice: Notice): nat {
    if notice.finishedAt.Some? then Cohort(w.users, notice.startedAt) else Position(notice)
  }

  predicate Told(recipients: seq<Recipient>, id: nat, account: nat) {
    exists i :: 0 <= i < |recipients| && recipients[i].notice == id && recipients[i].user.account == account
  }

  predicate RecipientSound(users: seq<User>, r: Recipient) {
    && r.user.account < |users|
    && (r.user.Scrubbed? ==> users[r.user.account].deletionFinished)
  }

  predicate OneRowEach(recipients: seq<Recipient>) {
    forall i, j :: 0 <= i < j < |recipients| && recipients[i].notice == recipients[j].notice ==>
      recipients[i].user.account != recipients[j].user.account
  }

  function QueuedFor(id: nat): Recipient -> bool {
    (r: Recipient) => r.notice == id && r.queued
  }

  function QueuedRows(recipients: seq<Recipient>, id: nat): nat {
    |Select(recipients, QueuedFor(id))|
  }

  /** One notice: the walk covers exactly the accounts it has reached. */
  ghost predicate NoticeSound(w: World, id: nat)
    requires id in w.notices
  {
    var notice := w.notices[id];
    && notice.startedAt <= w.now
    && Reached(w, notice) <= Cohort(w.users, notice.startedAt)
    && notice.recipientCount == QueuedRows(w.recipients, id)
    && (forall i :: 0 <= i < |w.recipients| && w.recipients[i].notice == id ==>
          w.recipients[i].user.account < Reached(w, notice))
    && (forall a :: 0 <= a < Reached(w, notice) && !w.users[a].deletionFinished ==> Told(w.recipients, id, a))
  }

  ghost predicate Sound(w: World) {
    && UsersSound(w)
    && (forall i :: 0 <= i < |w.recipients| ==> RecipientSound(w.users, w.recipients[i]) && w.recipients[i].notice in w.notices)
    && OneRowEach(w.recipients)
    && forall id :: id in w.notices ==> NoticeSound(w, id)
  }

  // ---- A page ----

  /** What mailing `[from, to)` makes of the recipients. */
  ghost predicate Mailed(
    recipients: seq<Recipient>, after: seq<Recipient>, users: seq<User>, id: nat, from: nat, to: nat, sent: nat)
    requires to <= |users|
  {
    && recipients <= after
    && (forall i :: |recipients| <= i < |after| ==>
          after[i].notice == id && from <= after[i].user.account < to && after[i].user == users[after[i].user.account].key
          && !users[after[i].user.account].deletionFinished)
    && OneRowEach(after)
    && (forall a :: from <= a < to && !users[a].deletionFinished ==> Told(after, id, a))
    && QueuedRows(after, id) == QueuedRows(recipients, id) + sent
    && (forall other :: other != id ==> QueuedRows(after, other) == QueuedRows(recipients, other))
  }

  lemma ToldStays(recipients: seq<Recipient>, row: Recipient, id: nat, account: nat)
    requires Told(recipients, id, account)
    ensures Told(recipients + [row], id, account)
  {
    var i :| 0 <= i < |recipients| && recipients[i].notice == id && recipients[i].user.account == account;
    assert (recipients + [row])[i] == recipients[i];
  }

  lemma AppendedCounts(before: seq<Recipient>, row: Recipient, id: nat)
    requires row.notice == id
    ensures QueuedRows(before + [row], id) == QueuedRows(before, id) + if row.queued then 1 else 0
    ensures forall other: nat :: other != id ==> QueuedRows(before + [row], other) == QueuedRows(before, other)
  {}

  lemma AppendedTold(before: seq<Recipient>, row: Recipient, users: seq<User>, id: nat, from: nat, to: nat)
    requires to < |users| && row.notice == id && row.user.account == to
    requires forall a :: from <= a < to && !users[a].deletionFinished ==> Told(before, id, a)
    ensures forall a :: from <= a <= to && !users[a].deletionFinished ==> Told(before + [row], id, a)
  {
    forall a | from <= a <= to && !users[a].deletionFinished ensures Told(before + [row], id, a) {
      if a < to {
        ToldStays(before, row, id, a);
      } else {
        assert (before + [row])[|before|] == row;
      }
    }
  }

  lemma NotYetRecorded(
    recipients: seq<Recipient>, before: seq<Recipient>, users: seq<User>, id: nat, from: nat, to: nat, sent: nat)
    requires from <= to < |users| && Mailed(recipients, before, users, id, from, to, sent)
    requires forall i :: 0 <= i < |recipients| && recipients[i].notice == id ==> recipients[i].user.account < from
    ensures forall i :: 0 <= i < |before| && before[i].notice == id ==> before[i].user.account < to
  {}

  lemma MailOneMore(
    recipients: seq<Recipient>, before: seq<Recipient>, users: seq<User>, id: nat, from: nat, to: nat, sent: nat, fails: bool)
    requires from <= to < |users| && Mailed(recipients, before, users, id, from, to, sent)
    requires users[to].key.account == to
    requires forall i :: 0 <= i < |recipients| && recipients[i].notice == id ==> recipients[i].user.account < from
    ensures var (after, more) := MailOne(before, id, users[to], fails);
            Mailed(recipients, after, users, id, from, to + 1, sent + more)
  {
    hide QueuedRows, Told;
    NotYetRecorded(recipients, before, users, id, from, to, sent);
    if !users[to].deletionFinished {
      assert !AlreadyRecorded(before, id, users[to].key);
      var row := Recipient(id, users[to].key, !fails);
      AppendedCounts(before, row, id);
      AppendedTold(before, row, users, id, from, to);
      assert (before + [row])[|before|] == row;
    }
  }

  lemma {:induction false} MailPageMails(
    recipients: seq<Recipient>, users: seq<User>, id: nat, from: nat, to: nat, failing: set<nat>)
    requires from <= to <= |users| && OneRowEach(recipients)
    requires forall i :: 0 <= i < |users| ==> users[i].key.account == i
    requires forall i :: 0 <= i < |recipients| && recipients[i].notice == id ==> recipients[i].user.account < from
    ensures var (after, sent) := MailPage(recipients, users, id, from, to, failing);
            Mailed(recipients, after, users, id, from, to, sent)
    decreases (to)
  {
    hide Mailed, MailOne;
    if from < to {
      MailPageMails(recipients, users, id, from, to - 1, failing);
      var (before, sent) := MailPage(recipients, users, id, from, to - 1, failing);
      MailOneMore(recipients, before, users, id, from, to - 1, sent, to - 1 in failing);
    } else {
      MailedNothing(recipients, users, id, from);
    }
  }

  lemma MailedNothing(recipients: seq<Recipient>, users: seq<User>, id: nat, from: nat)
    requires from <= |users| && OneRowEach(recipients)
    ensures Mailed(recipients, recipients, users, id, from, from, 0)
  {}

  // ---- Steps ----

  lemma {:induction false} CohortStays(users: seq<User>, user: User, time: int)
    requires user.createdAt >= time
    ensures Cohort(users + [user], time) == Cohort(users, time)
  {}

  lemma SignUpKeepsSound(w: World)
    requires Sound(w)
    ensures Sound(SignUp(w))
  {
    var w' := SignUp(w);
    forall i | 0 <= i < |w.recipients| ensures RecipientSound(w'.users, w'.recipients[i]) {
      assert RecipientSound(w.users, w.recipients[i]);
    }
    forall id | id in w'.notices ensures NoticeSound(w', id) {
      assert NoticeSound(w, id);
      CohortStays(w.users, w'.users[|w.users|], w.notices[id].startedAt);
    }
  }

  lemma {:induction false} CohortIgnoresKeys(users: seq<User>, users': seq<User>, time: int)
    requires |users'| == |users| && forall i :: 0 <= i < |users| ==> users'[i].createdAt == users[i].createdAt
    ensures Cohort(users', time) == Cohort(users, time)
  {
    if users != [] {
      CohortIgnoresKeys(users[..|users| - 1], users'[..|users| - 1], time);
    }
  }

  lemma DeletionKeepsNotice(w: World, account: nat, id: nat)
    requires id in w.notices && NoticeSound(w, id)
    ensures NoticeSound(FinishDeletion(w, account), id)
  {
    CohortIgnoresKeys(w.users, FinishDeletion(w, account).users, w.notices[id].startedAt);
  }

  lemma DeletionKeepsSound(w: World, account: nat)
    requires Sound(w)
    ensures Sound(FinishDeletion(w, account))
  {
    hide NoticeSound;
    var w' := FinishDeletion(w, account);
    forall i | 0 <= i < |w.recipients| ensures RecipientSound(w'.users, w'.recipients[i]) {
      assert RecipientSound(w.users, w.recipients[i]);
    }
    forall id | id in w'.notices ensures NoticeSound(w', id) {
      DeletionKeepsNotice(w, account, id);
    }
  }

  lemma {:induction false} SameQueued(before: seq<Recipient>, after: seq<Recipient>, id: nat)
    requires |after| == |before|
    requires forall i :: 0 <= i < |before| ==> after[i].notice == before[i].notice && after[i].queued == before[i].queued
    ensures Select(after, QueuedFor(id)) == Select(before, QueuedFor(id))
  {
    if before != [] {
      SameQueued(before[..|before| - 1], after[..|before| - 1], id);
    }
  }

  lemma RewriteKeepsNotice(w: World, account: nat, rows: set<nat>, id: nat)
    requires id in w.notices && NoticeSound(w, id)
    ensures NoticeSound(Pseudonymize(w, account, rows), id)
  {
    var w' := Pseudonymize(w, account, rows);
    SameQueued(w.recipients, w'.recipients, id);
    forall a | 0 <= a < Reached(w', w'.notices[id]) && !w'.users[a].deletionFinished ensures Told(w'.recipients, id, a) {
      assert Told(w.recipients, id, a);
      var i :| 0 <= i < |w.recipients| && w.recipients[i].notice == id && w.recipients[i].user.account == a;
      assert w'.recipients[i].user.account == a;
    }
  }

  lemma RewriteKeepsSound(w: World, account: nat, rows: set<nat>)
    requires Sound(w)
    ensures Sound(Pseudonymize(w, account, rows))
  {
    hide NoticeSound;
    var w' := Pseudonymize(w, account, rows);
    forall i | 0 <= i < |w.recipients|
      ensures w'.recipients[i].notice == w.recipients[i].notice && w'.recipients[i].user.account == w.recipients[i].user.account
    {
      RewritesExactly(w, account, rows, i);
    }
    forall i | 0 <= i < |w'.recipients| ensures RecipientSound(w'.users, w'.recipients[i]) {
      assert RecipientSound(w.users, w.recipients[i]);
    }
    forall id | id in w'.notices ensures NoticeSound(w', id) {
      RewriteKeepsNotice(w, account, rows, id);
    }
  }

  lemma NoRowsYet(w: World, id: nat)
    requires Sound(w) && id !in w.notices
    ensures QueuedRows(w.recipients, id) == 0
    ensures forall i :: 0 <= i < |w.recipients| ==> w.recipients[i].notice != id
  {
    NothingSelected(w.recipients, QueuedFor(id));
  }

  lemma NoticeRowKeepsNotice(w: World, id: nat, other: nat)
    requires Sound(w) && (other in w.notices || other == id)
    ensures NoticeSound(WithNotice(w, id), other)
  {
    if other in w.notices {
      assert NoticeSound(w, other);
    } else {
      NoRowsYet(w, id);
    }
  }

  /** Recording the notice itself keeps everything. */
  lemma NoticeRowKeepsSound(w: World, id: nat)
    requires Sound(w)
    ensures Sound(WithNotice(w, id))
  {
    hide NoticeSound;
    forall other | other in WithNotice(w, id).notices ensures NoticeSound(WithNotice(w, id), other) {
      NoticeRowKeepsNotice(w, id, other);
    }
  }

  lemma PageKeepsOthers(w: World, w': World, id: nat, other: nat, from: nat, to: nat, sent: nat)
    requires other in w.notices && NoticeSound(w, other) && other != id && to <= |w.users|
    requires Mailed(w.recipients, w'.recipients, w.users, id, from, to, sent)
    requires w'.users == w.users && w'.now == w.now && other in w'.notices && w'.notices[other] == w.notices[other]
    ensures NoticeSound(w', other)
  {}

  /** The notice itself, its page mailed. */
  lemma PageMovesNotice(w: World, w': World, id: nat, end: nat, sent: nat)
    requires id in w.notices && NoticeSound(w, id) && w.notices[id].finishedAt.None? && id in w'.notices
    requires Position(w.notices[id]) <= end <= Cohort(w.users, w.notices[id].startedAt)
    requires Mailed(w.recipients, w'.recipients, w.users, id, Position(w.notices[id]), end, sent)
    requires w'.users == w.users && w'.now == w.now
    requires w'.notices[id].startedAt == w.notices[id].startedAt && Reached(w', w'.notices[id]) == end
    requires w'.notices[id].recipientCount == w.notices[id].recipientCount + sent
    ensures NoticeSound(w', id)
  {}

  lemma PageKeepsRecipients(w: World, w': World, id: nat, from: nat, to: nat, sent: nat)
    requires Sound(w) && id in w.notices && to <= |w.users|
    requires Mailed(w.recipients, w'.recipients, w.users, id, from, to, sent)
    requires w'.users == w.users && w'.notices.Keys == w.notices.Keys
    ensures OneRowEach(w'.recipients)
    ensures forall i :: 0 <= i < |w'.recipients| ==>
              RecipientSound(w'.users, w'.recipients[i]) && w'.recipients[i].notice in w'.notices
  {
    forall i | 0 <= i < |w'.recipients|
      ensures RecipientSound(w'.users, w'.recipients[i]) && w'.recipients[i].notice in w'.notices
    {
      if i < |w.recipients| {
        assert w'.recipients[i] == w.recipients[i] && RecipientSound(w.users, w.recipients[i]);
      }
    }
  }

  /** `w'` is `w` with a page of the notice mailed and its cursor moved to `end`. */
  ghost predicate PageSent(w: World, w': World, id: nat, end: nat, sent: nat)
    requires id in w.notices && end <= |w.users|
  {
    && w'.users == w.users && w'.now == w.now
    && w'.notices.Keys == w.notices.Keys
    && (forall other :: other in w.notices && other != id ==> w'.notices[other] == w.notices[other])
    && w'.notices[id].startedAt == w.notices[id].startedAt
    && Reached(w', w'.notices[id]) == end
    && w'.notices[id].recipientCount == w.notices[id].recipientCount + sent
    && Mailed(w.recipients, w'.recipients, w.users, id, Position(w.notices[id]), end, sent)
  }

  lemma PageIsSent(w: World, id: nat, page: Page, failing: set<nat>)
    requires Sound(w) && id in w.notices && w.notices[id].finishedAt.None? && IsPage(w.users, w.notices[id], page)
    ensures PageSent(w, SendPage(w, id, page, failing), id, page.end,
                     MailPage(w.recipients, w.users, id, Position(w.notices[id]), page.end, failing).1)
  {
    hide Mailed, MailPage, RecipientSound, Cohort;
    assert NoticeSound(w, id);
    MailPageMails(w.recipients, w.users, id, Position(w.notices[id]), page.end, failing);
  }

  lemma SentKeepsSound(w: World, w': World, id: nat, end: nat, sent: nat)
    requires Sound(w) && id in w.notices && w.notices[id].finishedAt.None?
    requires Position(w.notices[id]) <= end <= Cohort(w.users, w.notices[id].startedAt)
    requires PageSent(w, w', id, end, sent)
    ensures Sound(w')
  {
    hide Mailed, NoticeSound, RecipientSound;
    assert NoticeSound(w, id);
    PageKeepsRecipients(w, w', id, Position(w.notices[id]), end, sent);
    PageMovesNotice(w, w', id, end, sent);
    forall other | other in w'.notices && other != id ensures NoticeSound(w', other) {
      PageKeepsOthers(w, w', id, other, Position(w.notices[id]), end, sent);
    }
  }

  lemma PageKeepsSound(w: World, id: nat, page: Page, failing: set<nat>)
    requires Sound(w) && id in w.notices && w.notices[id].finishedAt.None? && IsPage(w.users, w.notices[id], page)
    ensures Sound(SendPage(w, id, page, failing))
  {
    PageIsSent(w, id, page, failing);
    SentKeepsSound(w, SendPage(w, id, page, failing), id, page.end,
                   MailPage(w.recipients, w.users, id, Position(w.notices[id]), page.end, failing).1);
  }

  lemma SendKeepsSound(w: World, id: nat, hasSender: bool, page: Page, failing: set<nat>)
    requires Sound(w)
    ensures Sound(SendLegalNotice(w, id, hasSender, page, failing).0)
  {
    NoticeRowKeepsSound(w, id);
    if hasSender && NoticeRow(w, id).finishedAt.None? && IsPage(w.users, NoticeRow(w, id), page) {
      PageKeepsSound(WithNotice(w, id), id, page, failing);
    }
  }

  lemma WaitKeepsSound(w: World, ms: nat)
    requires Sound(w)
    ensures Sound(w.(now := w.now + ms))
  {}

  lemma StepKeepsSound(w: World, a: Action)
    requires Sound(w)
    ensures Sound(Apply(w, a))
  {
    hide Sound, SignUp, FinishDeletion, Pseudonymize, SendLegalNotice;
    match a
    case Wait(ms) => WaitKeepsSound(w, ms);
    case NewAccount => SignUpKeepsSound(w);
    case AccountGone(account) => DeletionKeepsSound(w, account);
    case Rewrite(account, rows) => RewriteKeepsSound(w, account, rows);
    case Send(id, hasSender, page, failing) => SendKeepsSound(w, id, hasSender, page, failing);
  }

  lemma {:induction false} RunsKeepSound(w: World, more: seq<Action>)
    requires Sound(w)
    ensures Sound(Exec(w, more))
  {
    if more != [] {
      RunsKeepSound(w, more[..|more| - 1]);
      StepKeepsSound(Exec(w, more[..|more| - 1]), more[|more| - 1]);
    }
  }

  lemma RunsStaySound(now: int, actions: seq<Action>)
    ensures Sound(Exec(Start(now), actions))
  {
    RunsKeepSound(Start(now), actions);
  }

  // ---- The promises ----

  /** In every run, with any overlap of chains: at most one row an account and notice,
    * none for an account created at or after the start, and a count that equals the
    * rows queued. */
  lemma OneRowPerAccount(now: int, actions: seq<Action>, id: nat)
    requires id in Exec(Start(now), actions).notices
    ensures var w := Exec(Start(now), actions);
            && OneRowEach(w.recipients)
            && (forall i :: 0 <= i < |w.recipients| && w.recipients[i].notice == id ==>
                  w.recipients[i].user.account < |w.users|
                  && w.users[w.recipients[i].user.account].createdAt < w.notices[id].startedAt)
            && w.notices[id].recipientCount == QueuedRows(w.recipients, id)
  {
    var w := Exec(Start(now), actions);
    RunsStaySound(now, actions);
    assert NoticeSound(w, id);
    CohortExactly(w.users, w.notices[id].startedAt);
  }

  /** Once a notice says it has finished, every account older than its start that can
    * still be reached has a row. */
  lemma FinishedMeansEveryone(now: int, actions: seq<Action>, id: nat, account: nat)
    requires var w := Exec(Start(now), actions);
             && id in w.notices && w.notices[id].finishedAt.Some?
             && account < |w.users| && w.users[account].createdAt < w.notices[id].startedAt
             && !w.users[account].deletionFinished
    ensures Told(Exec(Start(now), actions).recipients, id, account)
  {
    var w := Exec(Start(now), actions);
    RunsStaySound(now, actions);
    assert NoticeSound(w, id);
    CohortExactly(w.users, w.notices[id].startedAt);
  }

  /** A chain comes to an end: every send that goes through finishes the notice or
    * moves its cursor forward within a cohort that no longer grows. */
  lemma SendsMakeProgress(w: World, id: nat, page: Page, failing: set<nat>)
    requires Sound(w) && id in w.notices && w.notices[id].finishedAt.None? && IsPage(w.users, w.notices[id], page)
    ensures var (w', result) := SendLegalNotice(w, id, true, page, failing);
            && Sound(w')
            && (result == Finished <==> w'.notices[id].finishedAt.Some?)
            && (result == Continued ==>
                  Reached(w, w.notices[id]) < Reached(w', w'.notices[id]) <= Cohort(w.users, w.notices[id].startedAt))
            && Cohort(w'.users, w'.notices[id].startedAt) == Cohort(w.users, w.notices[id].startedAt)
  {
    SendKeepsSound(w, id, true, page, failing);
    assert NoticeSound(w, id);
  }

  // ---- Failed recipients ----

  predicate Failed(r: Recipient, id: nat, account: nat) {
    r.notice == id && r.user.account == account && !r.queued
  }

  /** The account's mail was queued. */
  predicate IsQueued(recipients: seq<Recipient>, id: nat, account: nat) {
    exists i :: 0 <= i < |recipients| && recipients[i].notice == id && recipients[i].user.account == account && recipients[i].queued
  }

  lemma {:induction false} PageAppends(
    recipients: seq<Recipient>, users: seq<User>, id: nat, from: nat, to: nat, failing: set<nat>)
    requires to <= |users|
    ensures recipients <= MailPage(recipients, users, id, from, to, failing).0
    decreases (to)
  {
    if from < to {
      PageAppends(recipients, users, id, from, to - 1, failing);
    }
  }

  lemma StepKeepsFailed(w: World, a: Action, id: nat, account: nat, i: nat)
    requires i < |w.recipients| && Failed(w.recipients[i], id, account)
    ensures i < |Apply(w, a).recipients| && Failed(Apply(w, a).recipients[i], id, account)
  {
    if a.Send? && a.hasSender && IsPage(w.users, NoticeRow(w, a.id), a.page) {
      PageAppends(w.recipients, w.users, a.id, Position(NoticeRow(w, a.id)), a.page.end, a.failing);
    }
  }

  lemma {:induction false} RunKeepsFailed(w: World, more: seq<Action>, id: nat, account: nat, i: nat)
    requires i < |w.recipients| && Failed(w.recipients[i], id, account)
    ensures i < |Exec(w, more).recipients| && Failed(Exec(w, more).recipients[i], id, account)
  {
    if more != [] {
      RunKeepsFailed(w, more[..|more| - 1], id, account, i);
      StepKeepsFailed(Exec(w, more[..|more| - 1]), more[|more| - 1], id, account, i);
    }
  }

  lemma OnlyTheFailedRow(recipients: seq<Recipient>, id: nat, account: nat, i: nat)
    requires OneRowEach(recipients) && i < |recipients| && Failed(recipients[i], id, account)
    ensures !IsQueued(recipients, id, account)
  {}

  /** An account whose mail could not be queued is never sent that notice again,
    * whatever is re-run afterwards: its row is what every later walk skips it by. */
  lemma FailedIsNeverRetried(now: int, first: seq<Action>, more: seq<Action>, id: nat, account: nat, i: nat)
    requires var w := Exec(Start(now), first); i < |w.recipients| && Failed(w.recipients[i], id, account)
    ensures !IsQueued(Exec(Exec(Start(now), first), more).recipients, id, account)
  {
    var w := Exec(Start(now), first);
    RunKeepsFailed(w, more, id, account, i);
    RunsStaySound(now, first);
    RunsKeepSound(w, more);
    OnlyTheFailedRow(Exec(w, more).recipients, id, account, i);
  }

  const FAILING_RUN: seq<Action> := [NewAccount] + [Wait(1)] + [Send(0, true, Page(1, true), {0})]

  lemma RunOfOneMore(w: World, run: seq<Action>, a: Action)
    ensures Exec(w, run + [a]) == Apply(Exec(w, run), a)
  {
    assert (run + [a])[..|run|] == run;
  }

  lemma FailingRunEnds(now: int)
    ensures Exec(Start(now), FAILING_RUN) ==
            World(now + 1, [User(Clerk(0), now, false)], map[0 := Notice(now + 1, None, Some(now + 1), 0)],
                  [Recipient(0, Clerk(0), false)])
  {
    var w0 := Start(now);
    RunOfOneMore(w0, [], NewAccount);
    RunOfOneMore(w0, [NewAccount], Wait(1));
    RunOfOneMore(w0, [NewAccount] + [Wait(1)], Send(0, true, Page(1, true), {0}));
    assert [] + [NewAccount] == [NewAccount];
    var w := World(now + 1, [User(Clerk(0), now, false)], map[], []);
    assert Exec(w0, [NewAccount] + [Wait(1)]) == w;
    assert IsPage(w.users, NoticeRow(w, 0), Page(1, true));
    assert MailPage([], w.users, 0, 0, 0, {0}) == ([], 0);
    assert [] + [Recipient(0, Clerk(0), false)] == [Recipient(0, Clerk(0), false)];
    assert MailOne([], 0, w.users[0], true) == ([Recipient(0, Clerk(0), false)], 0);
    assert MailPage([], w.users, 0, 0, 1, {0}) == ([Recipient(0, Clerk(0), false)], 0);
  }

  /** One account, one notice, its mail failing: whatever is run again, it is never
    * queued, though the notice has finished. */
  lemma ReRunsTellNobody(now: int, more: seq<Action>)
    ensures 0 in Exec(Start(now), FAILING_RUN).notices && Exec(Start(now), FAILING_RUN).notices[0].finishedAt.Some?
    ensures !IsQueued(Exec(Exec(Start(now), FAILING_RUN), more).recipients, 0, 0)
  {
    FailingRunEnds(now);
    FailedIsNeverRetried(now, FAILING_RUN, more, 0, 0, 0);
  }

  // ---- What a send answers ----

  /** The notice a send goes on with: the one recorded, or one that starts now. */
  function Current(w: World, id: nat): Notice {
    if id in w.notices then w.notices[id] else Notice(w.now, None, None, 0)
  }

  /** The pages a walk may be handed: from its cursor on, fifty accounts at most and none
    * outside the cohort; the last one, and only that, may say so and may be empty. */
  lemma PagesExactly(users: seq<User>, notice: Notice, page: Page)
    ensures IsPage(users, notice, page) <==>
            var from, cohort := Position(notice), Cohort(users, notice.startedAt);
            && from <= page.end && page.end - from <= 50 && page.end <= cohort
            && if page.isDone then page.end == cohort else page.end > from
  {}

  /** A send without a sender does nothing, nor does one of a finished notice. Any other
    * mails at most fifty accounts, keeps the start, and either moves the cursor to the
    * end of its page or, on the last page, drops it and finishes now. Other notices
    * stay as they are. */
  lemma SendAnswersExactly(w: World, id: nat, hasSender: bool, page: Page, failing: set<nat>)
    requires IsPage(w.users, Current(w, id), page)
    ensures var (w', result) := SendLegalNotice(w, id, hasSender, page, failing);
            var notice := Current(w, id);
            && (result == Unsendable <==> !hasSender)
            && (result == Continued <==> hasSender && notice.finishedAt.None? && !page.isDone)
            && (!hasSender || notice.finishedAt.Some? ==> w' == w)
            && (hasSender && notice.finishedAt.None? ==>
                  && w'.users == w.users && w'.now == w.now
                  && w'.notices.Keys == w.notices.Keys + {id}
                  && (forall other :: other in w.notices && other != id ==> w'.notices[other] == w.notices[other])
                  && w'.notices[id].startedAt == notice.startedAt
                  && w'.notices[id].cursor == (if page.isDone then None else Some(page.end))
                  && w'.notices[id].finishedAt == (if page.isDone then Some(w.now) else None)
                  && page.end <= Position(notice) + 50)
  {
    hide MailPage, Cohort, IsPage;
    PagesExactly(w.users, Current(w, id), page);
    if id in w.notices {
      assert w.notices[id := w.notices[id]] == w.notices;
    }
  }

  /** Rewriting a deleted account's rows puts its scrubbed key where its Clerk id was, in
    * the rows of the page, and moves nothing else; a living account's are left alone. */
  lemma RewritesExactly(w: World, account: nat, rows: set<nat>, i: nat)
    requires i < |w.recipients|
    ensures var w' := Pseudonymize(w, account, rows);
            && w' == w.(recipients := w'.recipients) && |w'.recipients| == |w.recipients|
            && w'.recipients[i].notice == w.recipients[i].notice && w'.recipients[i].queued == w.recipients[i].queued
            && w'.recipients[i].user ==
               if i in rows && w.recipients[i].user == Clerk(account) && account < |w.users| && w.users[account].deletionFinished
               then Scrubbed(account) else w.recipients[i].user
  {}

  // ---- Exactly who can still be told ----

  lemma {:induction false} NothingFails(
    recipients: seq<Recipient>, users: seq<User>, id: nat, from: nat, to: nat)
    requires from <= to <= |users|
    ensures var after := MailPage(recipients, users, id, from, to, {}).0;
            forall i :: |recipients| <= i < |after| ==> after[i].queued
    decreases (to)
  {
    if from < to {
      NothingFails(recipients, users, id, from, to - 1);
      var before := MailPage(recipients, users, id, from, to - 1, {}).0;
      var after := MailOne(before, id, users[to - 1], false).0;
      assert after == before || after == before + [Recipient(id, users[to - 1].key, true)];
      PageAppends(recipients, users, id, from, to - 1, {});
    }
  }

  function NextPage(users: seq<User>, notice: Notice): Page {
    var cohort := Cohort(users, notice.startedAt);
    if cohort <= Position(notice) + NOTICE_PAGE_SIZE then Page(cohort, true)
    else Page(Position(notice) + NOTICE_PAGE_SIZE, false)
  }

  /** One more page that nothing goes wrong on: it queues the account or comes closer. */
  lemma OnePageCloser(w: World, id: nat, account: nat)
    requires Sound(w) && id in w.notices && account < Cohort(w.users, w.notices[id].startedAt)
    requires !w.users[account].deletionFinished && !Told(w.recipients, id, account)
    ensures w.notices[id].finishedAt.None? && Position(w.notices[id]) <= account
    ensures IsPage(w.users, w.notices[id], NextPage(w.users, w.notices[id]))
    ensures var w' := SendPage(w, id, NextPage(w.users, w.notices[id]), {});
            && Sound(w') && w'.users == w.users && id in w'.notices && w'.notices[id].startedAt == w.notices[id].startedAt
            && (IsQueued(w'.recipients, id, account)
                || (!Told(w'.recipients, id, account) && Position(w'.notices[id]) > Position(w.notices[id])))
  {
    hide QueuedRows, MailPage, RecipientSound;
    assert NoticeSound(w, id);
    var page := NextPage(w.users, w.notices[id]);
    var w' := SendPage(w, id, page, {});
    PageKeepsSound(w, id, page, {});
    NothingFails(w.recipients, w.users, id, Position(w.notices[id]), page.end);
    PageIsSent(w, id, page, {});
    if account < page.end {
      assert Told(w'.recipients, id, account);
      var i :| 0 <= i < |w'.recipients| && w'.recipients[i].notice == id && w'.recipients[i].user.account == account;
      assert w.recipients <= w'.recipients;
      assert i >= |w.recipients|;
    } else {
      assert NoticeSound(w', id);
    }
  }

  lemma FirstThen(w: World, a: Action, more: seq<Action>)
    ensures Exec(w, [a] + more) == Exec(Apply(w, a), more)
  {
    if more == [] {
      assert [a] + more == [a] && [a][..0] == [];
    } else {
      FirstThen(w, a, more[..|more| - 1]);
      assert ([a] + more)[..|more|] == [a] + more[..|more| - 1];
    }
  }

  lemma SendsOnePage(w: World, id: nat, page: Page)
    requires id in w.notices && w.notices[id].finishedAt.None? && IsPage(w.users, w.notices[id], page)
    ensures Apply(w, Send(id, true, page, {})) == SendPage(w, id, page, {})
  {
    assert w.notices[id := w.notices[id]] == w.notices;
  }

  /** An account with no row yet can still be told: send on until its page. */
  lemma {:induction false} CanBeTold(w: World, id: nat, account: nat) returns (more: seq<Action>)
    requires Sound(w) && id in w.notices && account < Cohort(w.users, w.notices[id].startedAt)
    requires !w.users[account].deletionFinished && !Told(w.recipients, id, account)
    ensures IsQueued(Exec(w, more).recipients, id, account)
    decreases Cohort(w.users, w.notices[id].startedAt) - Position(w.notices[id])
  {
    hide Sound, IsPage, SendPage, Told, IsQueued, Apply, NextPage;
    OnePageCloser(w, id, account);
    var page := NextPage(w.users, w.notices[id]);
    var w' := SendPage(w, id, page, {});
    SendsOnePage(w, id, page);
    var rest: seq<Action> := [];
    if !IsQueued(w'.recipients, id, account) {
      OnePageCloser(w', id, account);
      rest := CanBeTold(w', id, account);
    }
    more := [Send(id, true, page, {})] + rest;
    FirstThen(w, Send(id, true, page, {}), rest);
  }

  predicate HasFailed(recipients: seq<Recipient>, id: nat, account: nat) {
    exists i :: 0 <= i < |recipients| && Failed(recipients[i], id, account)
  }

  /** In every run: running on can leave a reachable account of the cohort with its
    * notice queued if and only if its mail has not failed before. */
  lemma ReRunsReachExactly(now: int, first: seq<Action>, id: nat, account: nat)
    requires var w := Exec(Start(now), first);
             && id in w.notices && account < |w.users| && w.users[account].createdAt < w.notices[id].startedAt
             && !w.users[account].deletionFinished
    ensures var w := Exec(Start(now), first);
            (exists more: seq<Action> :: IsQueued(Exec(w, more).recipients, id, account))
            <==> !HasFailed(w.recipients, id, account)
  {
    hide Sound, Told, Failed;
    var w := Exec(Start(now), first);
    RunsStaySound(now, first);
    UsersAreOrdered(w);
    CohortExactly(w.users, w.notices[id].startedAt);
    if HasFailed(w.recipients, id, account) {
      var i :| 0 <= i < |w.recipients| && Failed(w.recipients[i], id, account);
      forall more: seq<Action> ensures !IsQueued(Exec(w, more).recipients, id, account) {
        FailedIsNeverRetried(now, first, more, id, account, i);
      }
    } else if Told(w.recipients, id, account) {
      ToldUnfailed(w.recipients, id, account);
      var more := NothingMore(w);
      assert IsQueued(Exec(w, more).recipients, id, account);
    } else {
      var more := CanBeTold(w, id, account);
      assert IsQueued(Exec(w, more).recipients, id, account);
    }
  }

  lemma NothingMore(w: World) returns (more: seq<Action>)
    ensures Exec(w, more) == w
  {
    more := [];
  }

  lemma UsersAreOrdered(w: World)
    requires Sound(w)
    ensures forall i, j :: 0 <= i < j < |w.users| ==> w.users[i].createdAt <= w.users[j].createdAt
  {}

  lemma ToldUnfailed(recipients: seq<Recipient>, id: nat, account: nat)
    requires Told(recipients, id, account) && !HasFailed(recipients, id, account)
    ensures IsQueued(recipients, id, account)
  {
    var i :| 0 <= i < |recipients| && recipients[i].notice == id && recipients[i].user.account == account;
    assert !Failed(recipients[i], id, account);
  }

  // ---- The send, as the program performs it ----

  class NoticeTables {
    var users: seq<User>
    var notices: map<nat, Notice>
    var recipients: seq<Recipient>

    constructor ()
      ensures State(0) == Start(0)
    {
      users, notices, recipients := [], map[], [];
    }

    function State(now: int): World
      reads this
    {
      World(now, users, notices, recipients)
    }

    method MailRecipient(id: nat, user: User, fails: bool) returns (queued: bool)
      modifies `recipients
      ensures recipients == old(recipients) + [Recipient(id, user.key, queued)] && queued == !fails
      ensures Told(recipients, id, user.key.account)
      ensures OneRowEach(old(recipients)) && !Told(old(recipients), id, user.key.account) ==> OneRowEach(recipients)
      ensures QueuedRows(recipients, id) == old(QueuedRows(recipients, id)) + if queued then 1 else 0
      ensures forall other: nat :: other != id ==> QueuedRows(recipients, other) == old(QueuedRows(recipients, other))
    {
      AppendedCounts(recipients, Recipient(id, user.key, !fails), id);
      assert (recipients + [Recipient(id, user.key, !fails)])[|recipients|].user == user.key;
      recipients := recipients + [Recipient(id, user.key, !fails)];
      queued := !fails;
    }

    method Find(id: nat, now: int) returns (notice: Notice)
      modifies `notices
      ensures State(now) == WithNotice(old(State(now)), id) && notice == NoticeRow(old(State(now)), id)
    {
      if id in notices {
        assert notices[id := notices[id]] == notices;
        return notices[id];
      }
      notice := Notice(now, None, None, 0);
      notices := notices[id := notice];
    }

    method SendPageOf(id: nat, page: Page, failing: set<nat>, now: int)
      requires id in notices && IsPage(users, notices[id], page)
      modifies `notices, `recipients
      ensures State(now) == SendPage(old(State(now)), id, page, failing)
    {
      hide QueuedRows, OneRowEach, Told, Cohort;
      var notice := notices[id];
      var sent := 0;
      for a := Position(notice) to page.end
        invariant notices == old(notices)
        invariant (recipients, sent) == MailPage(old(recipients), users, id, Position(notice), a, failing)
      {
        var user := users[a];
        if !user.deletionFinished && !AlreadyRecorded(recipients, id, user.key) {
          var queued := MailRecipient(id, user, a in failing);
          if queued {
            sent := sent + 1;
          }
        }
      }
      notices := notices[id := notice.(
        cursor := if page.isDone then None else Some(page.end),
        finishedAt := if page.isDone then Some(now) else None,
        recipientCount := notice.recipientCount + sent)];
    }

    method SendLegalNotice(id: nat, hasSender: bool, page: Page, failing: set<nat>, now: int) returns (result: SendResult)
      requires Sound(State(now))
      requires NoticeRow(State(now), id).finishedAt.None? ==> IsPage(users, NoticeRow(State(now), id), page)
      modifies `notices, `recipients
      ensures (State(now), result) == LegalNotice.SendLegalNotice(old(State(now)), id, hasSender, page, failing)
      ensures Sound(State(now))
      ensures result == Finished ==> id in notices && notices[id].finishedAt.Some?
    {
      SendKeepsSound(State(now), id, hasSender, page, failing);
      if !hasSender {
        return Unsendable;
      }
      var notice := Find(id, now);
      if notice.finishedAt.Some? {
        return Finished;
      }
      SendPageOf(id, page, failing, now);
      result := if page.isDone then Finished else Continued;
    }
  }
}
