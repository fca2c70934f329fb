/** One-time codes, the setup grants they buy, and the passwords those install: a code
  * is exchanged once, a grant installs one password, and every accepted password is
  * reconciled onto the box by a bounded chain of attempts.
  *
  * Secrets appear only as their digests, which are numbers here. */
module InstanceAuth {
  import opened Tables

  const MINUTE_MS: int := 60_000
  const AUTHORIZATION_CODE_TTL_MS: int := 2 * MINUTE_MS
  const SETUP_GRANT_TTL_MS: int := 10 * MINUTE_MS
  const PASSWORD_RECONCILE_MAX_ATTEMPTS: nat := 20

  datatype AuthorizationType = Session | Password

  datatype Code = Code(
    box: nat, hash: nat, challenge: nat, redirect: nat, kind: AuthorizationType, expiresAt: int, consumedAt: Option<int>)

  datatype Grant = Grant(box: nat, token: nat, expiresAt: int, consumedAt: Option<int>, runtimeHash: Option<nat>)

  datatype BoxRow = BoxRow(isDeleted: bool, runtimeHash: Option<nat>, setupPendingAt: Option<int>)

  datatype JobState = Waiting | ReadCurrent | Done

  /** One attempt of a chain that brings the box's own file up to its stored hash. */
  datatype Job = Job(box: nat, runtimeHash: nat, attempt: nat, chain: nat, state: JobState)

  datatype PasswordOp = PasswordOp(box: nat, runtimeHash: nat, open: bool)

  datatype Exchanged = Exchanged(code: nat, grant: Option<nat>)
  datatype Claimed = Claimed(grant: nat, runtimeHash: nat)

  /** The tables, the pending work, and what succeeded so far. */
  datatype World = World(
    codes: seq<Option<Code>>,
    grants: seq<Option<Grant>>,
    boxes: seq<BoxRow>,
    jobs: seq<Job>,
    ops: seq<PasswordOp>,
    exchanges: seq<Exchanged>,
    claims: seq<Claimed>)

  function CodeWith(hash: nat): Option<Code> -> bool {
    (row: Option<Code>) => row.Some? && row.value.hash == hash
  }

  function GrantWith(token: nat): Option<Grant> -> bool {
    (row: Option<Grant>) => row.Some? && row.value.token == token
  }

  /** The one row an index holds; the database throws when it holds two. */
  function Unique<T>(rows: seq<Option<T>>, p: Option<T> -> bool): (found: Option<nat>)
    ensures found.Some? ==> found.value < |rows| && p(rows[found.value])
    ensures found.Some? ==> forall i: nat :: i < |rows| && p(rows[i]) ==> i == found.value
  {
    var ids := Select(rows, p);
    if |ids| != 1 then None else
      assert ids[0] in ids;
      assert forall i: nat :: i in ids ==> i == ids[0];
      Some(ids[0])
  }

  function StoreAuthorizationCode(
    w: World, box: nat, hash: nat, challenge: nat, redirect: nat, kind: AuthorizationType, now: int): World
  {
    w.(codes := w.codes + [Some(Code(box, hash, challenge, redirect, kind, now + AUTHORIZATION_CODE_TTL_MS, None))])
  }

  /** What a client presents; `challenge` is the digest of its verifier. */
  datatype Presented = Presented(
    box: nat, hash: nat, challenge: nat, redirect: nat, kind: AuthorizationType, token: Option<nat>)

  predicate Matches(code: Code, p: Presented, now: int) {
    && code.box == p.box && code.consumedAt.None? && now < code.expiresAt
    && code.challenge == p.challenge && code.redirect == p.redirect && code.kind == p.kind
  }

  /** A session takes no grant, a password needs one. */
  predicate CapabilityFits(p: Presented) {
    p.kind.Session? <==> p.token.None?
  }

  predicate Exchangeable(w: World, p: Presented, now: int) {
    var found := Unique(w.codes, CodeWith(p.hash));
    found.Some? && Matches(w.codes[found.value].value, p, now) && CapabilityFits(p)
  }

  function ExchangeCode(w: World, p: Presented, now: int): World {
    if !Exchangeable(w, p, now) then w else
      var id := Unique(w.codes, CodeWith(p.hash)).value;
      var codes := w.codes[id := Some(w.codes[id].value.(consumedAt := Some(now)))];
      if p.kind.Session? then w.(codes := codes, exchanges := w.exchanges + [Exchanged(id, None)])
      else
        w.(codes := codes,
           grants := w.grants + [Some(Grant(p.box, p.token.value, now + SETUP_GRANT_TTL_MS, None, None))],
           exchanges := w.exchanges + [Exchanged(id, Some(|w.grants|))])
  }

  predicate BoxUsable(w: World, box: nat) {
    box < |w.boxes| && !w.boxes[box].isDeleted
  }

  predicate Claimable(w: World, box: nat, token: nat, runtimeHash: nat, now: int) {
    var found := Unique(w.grants, GrantWith(token));
    && found.Some?
    && w.grants[found.value].value.box == box
    && now < w.grants[found.value].value.expiresAt
    && (w.grants[found.value].value.consumedAt.Some? ==> w.grants[found.value].value.runtimeHash == Some(runtimeHash))
    && BoxUsable(w, box)
  }

  function NewChain(w: World, box: nat, runtimeHash: nat): seq<Job> {
    w.jobs + [Job(box, runtimeHash, 1, |w.jobs|, Waiting)]
  }

  /** Use a grant to set the password - again, if it is the same one. */
  function ClaimGrant(w: World, box: nat, token: nat, runtimeHash: nat, now: int): World {
    if !Claimable(w, box, token, runtimeHash, now) then w else
      var id := Unique(w.grants, GrantWith(token)).value;
      var grant := w.grants[id].value;
      var installed := if grant.runtimeHash.Some? then grant.runtimeHash.value else runtimeHash;
      w.(grants := if grant.consumedAt.Some? then w.grants
                   else w.grants[id := Some(grant.(consumedAt := Some(now), runtimeHash := Some(runtimeHash)))],
         boxes := w.boxes[box := w.boxes[box].(runtimeHash := Some(installed), setupPendingAt := Some(now))],
         jobs := NewChain(w, box, installed),
         claims := w.claims + [Claimed(id, installed)])
  }

  /** Record a change its holder already made on the box. */
  function ApplyPasswordChange(w: World, box: nat, current: nat, runtimeHash: nat): World {
    if !BoxUsable(w, box) || w.boxes[box].runtimeHash != Some(current) || current == runtimeHash then w else
      w.(boxes := w.boxes[box := w.boxes[box].(runtimeHash := Some(runtimeHash))], jobs := NewChain(w, box, runtimeHash))
  }

  // ---- Reconciling ----

  /** The attempt reads the box, and goes on only for the hash stored there. */
  function ReadBox(w: World, job: nat): World {
    if job >= |w.jobs| || w.jobs[job].state != Waiting then w else
      var j := w.jobs[job];
      var current := BoxUsable(w, j.box) && w.boxes[j.box].runtimeHash == Some(j.runtimeHash);
      w.(jobs := w.jobs[job := j.(state := if current then ReadCurrent else Done)])
  }

  predicate BoxBusy(w: World, box: nat) {
    exists o :: 0 <= o < |w.ops| && w.ops[o].open && w.ops[o].box == box
  }

  /** What starting the operation came to; it begins only on an idle box that is not
    * deleted. */
  datatype Outcome = Begun | Duplicate | Threw

  function StartChange(w: World, job: nat, outcome: Outcome): World {
    if job >= |w.jobs| || w.jobs[job].state != ReadCurrent then w else
      var j := w.jobs[job];
      var done := w.jobs[job := j.(state := Done)];
      match outcome
      case Begun =>
        if BoxBusy(w, j.box) || !BoxUsable(w, j.box) then w
        else w.(jobs := done, ops := w.ops + [PasswordOp(j.box, j.runtimeHash, true)])
      case Duplicate => w.(jobs := done)
      case Threw =>
        w.(jobs := if j.attempt >= PASSWORD_RECONCILE_MAX_ATTEMPTS then done
                   else done + [j.(attempt := j.attempt + 1, state := Waiting)])
  }

  /** A delete that has come to its end: the tombstone keeps no password. It too is an
    * operation, so no other is open on the box then, and none begins afterwards. */
  function DeleteBox(w: World, box: nat): World {
    if box >= |w.boxes| || BoxBusy(w, box) then w else w.(boxes := w.boxes[box := BoxRow(true, None, None)])
  }

  /** The operation has put its hash on the box, and records it as the box's. */
  function FinishChange(w: World, op: nat): World {
    if op >= |w.ops| || !w.ops[op].open || w.ops[op].box >= |w.boxes| then w else
      var o := w.ops[op];
      w.(ops := w.ops[op := o.(open := false)],
         boxes := w.boxes[o.box := w.boxes[o.box].(runtimeHash := Some(o.runtimeHash), setupPendingAt := None)])
  }

  function FailChange(w: World, op: nat): World {
    if op >= |w.ops| || !w.ops[op].open then w else w.(ops := w.ops[op := w.ops[op].(open := false)])
  }

  /** The sweep that removes expired codes and grants. */
  function DeleteExpired(w: World, codes: seq<nat>, grants: seq<nat>, now: int): World {
    if (forall i :: i in codes && i < |w.codes| && w.codes[i].Some? ==> w.codes[i].value.expiresAt < now)
       && (forall i :: i in grants && i < |w.grants| && w.grants[i].Some? ==> w.grants[i].value.expiresAt < now)
    then w.(codes := Removed(w.codes, codes), grants := Removed(w.grants, grants))
    else w
  }

  // ---- Runs ----

  datatype Action =
    | Store(box: nat, hash: nat, challenge: nat, redirect: nat, kind: AuthorizationType, now: int)
    | Exchange(presented: Presented, now: int)
    | Claim(box: nat, token: nat, runtimeHash: nat, now: int)
    | Change(box: nat, current: nat, runtimeHash: nat)
    | Read(job: nat)
    | Start(job: nat, outcome: Outcome)
    | Finish(op: nat)
    | Fail(op: nat)
    | Delete(box: nat)
    | Sweep(codes: seq<nat>, grants: seq<nat>, now: int)

  function Apply(w: World, a: Action): World {
    match a
    case Store(box, hash, challenge, redirect, kind, now) => StoreAuthorizationCode(w, box, hash, challenge, redirect, kind, now)
    case Exchange(presented, now) => ExchangeCode(w, presented, now)
    case Claim(box, token, runtimeHash, now) => ClaimGrant(w, box, token, runtimeHash, now)
    case Change(box, current, runtimeHash) => ApplyPasswordChange(w, box, current, runtimeHash)
    case Read(job) => ReadBox(w, job)
    case Start(job, outcome) => StartChange(w, job, outcome)
    case Finish(op) => FinishChange(w, op)
    case Fail(op) => FailChange(w, op)
    case Delete(box) => DeleteBox(w, box)
    case Sweep(codes, grants, now) => DeleteExpired(w, codes, grants, now)
  }

  function Exec(w: World, actions: seq<Action>): World {
    if actions == [] then w else Apply(Exec(w, actions[..|actions| - 1]), actions[|actions| - 1])
  }

  function Fleet(boxes: seq<BoxRow>): World {
    World([], [], boxes, [], [], [], [])
  }
}

/** What holds of every run. */
module InstanceAuthRuns {
  import opened Tables
  import opened InstanceAuth

  // ---- Codes and grants ----

  ghost predicate CodesSound(w: World) {
    && (forall k :: 0 <= k < |w.exchanges| ==>
          var e := w.exchanges[k];
          && e.code < |w.codes|
          && (w.codes[e.code].Some? ==> w.codes[e.code].value.consumedAt.Some?)
          && (e.grant.Some? ==> e.grant.value < |w.grants|))
    && (forall j, k :: 0 <= j < k < |w.exchanges| ==>
          w.exchanges[j].code != w.exchanges[k].code
          && (w.exchanges[j].grant.Some? ==> w.exchanges[j].grant != w.exchanges[k].grant))
  }

  predicate Bought(exchanges: seq<Exchanged>, g: nat) {
    exists k :: 0 <= k < |exchanges| && exchanges[k].grant == Some(g)
  }

  predicate GrantsBought(w: World) {
    forall g :: 0 <= g < |w.grants| ==> Bought(w.exchanges, g)
  }

  ghost predicate ClaimsSound(w: World) {
    && (forall k :: 0 <= k < |w.claims| ==>
          var c := w.claims[k];
          && c.grant < |w.grants|
          && (w.grants[c.grant].Some? ==>
                w.grants[c.grant].value.consumedAt.Some? && w.grants[c.grant].value.runtimeHash == Some(c.runtimeHash)))
    && (forall j, k :: 0 <= j < k < |w.claims| && w.claims[j].grant == w.claims[k].grant ==>
          w.claims[j].runtimeHash == w.claims[k].runtimeHash)
    && (forall g :: 0 <= g < |w.grants| && w.grants[g].Some? ==>
          (w.grants[g].value.consumedAt.Some? <==> w.grants[g].value.runtimeHash.Some?))
  }

  ghost predicate IsSound(w: World) {
    CodesSound(w) && GrantsBought(w) && ClaimsSound(w)
  }

  lemma ExchangeKeepsSound(w: World, p: Presented, now: int)
    requires IsSound(w)
    ensures IsSound(ExchangeCode(w, p, now))
  {
    var w' := ExchangeCode(w, p, now);
    if Exchangeable(w, p, now) {
      var id := Unique(w.codes, CodeWith(p.hash)).value;
      forall k | 0 <= k < |w.exchanges| ensures w.exchanges[k].code != id {}
      forall g | 0 <= g < |w'.grants| ensures Bought(w'.exchanges, g) {
        if g < |w.grants| {
          assert Bought(w.exchanges, g);
          var k :| 0 <= k < |w.exchanges| && w.exchanges[k].grant == Some(g);
          assert w'.exchanges[k].grant == Some(g);
        } else {
          assert w'.exchanges[|w.exchanges|].grant == Some(g);
        }
      }
    }
  }

  lemma ClaimKeepsSound(w: World, box: nat, token: nat, runtimeHash: nat, now: int)
    requires IsSound(w)
    ensures IsSound(ClaimGrant(w, box, token, runtimeHash, now))
  {}

  /** Codes may be added or removed, grants only removed. */
  lemma RowsGoneKeepSound(w: World, w': World)
    requires IsSound(w) && w'.exchanges == w.exchanges && w'.claims == w.claims
    requires |w.codes| <= |w'.codes| && forall i :: 0 <= i < |w.codes| ==> w'.codes[i] in {w.codes[i], None}
    requires |w.grants| == |w'.grants| && forall i :: 0 <= i < |w.grants| ==> w'.grants[i] in {w.grants[i], None}
    ensures IsSound(w')
  {
    assert GrantsBought(w') by {
      assert forall g :: 0 <= g < |w.grants| ==> Bought(w.exchanges, g);
    }
  }

  lemma StepKeepsSound(w: World, a: Action)
    requires IsSound(w)
    ensures IsSound(Apply(w, a))
  {
    if a.Exchange? {
      ExchangeKeepsSound(w, a.presented, a.now);
    } else if a.Claim? {
      ClaimKeepsSound(w, a.box, a.token, a.runtimeHash, a.now);
    } else {
      hide IsSound;
      RowsGoneKeepSound(w, Apply(w, a));
    }
  }

  lemma {:induction false} RunsStaySound(boxes: seq<BoxRow>, actions: seq<Action>)
    ensures IsSound(Exec(Fleet(boxes), actions))
  {
    if actions != [] {
      RunsStaySound(boxes, actions[..|actions| - 1]);
      StepKeepsSound(Exec(Fleet(boxes), actions[..|actions| - 1]), actions[|actions| - 1]);
    }
  }

  /** In every run each code is exchanged at most once, and no two codes share the
    * grant they bought. */
  lemma CodesAreExchangedOnce(boxes: seq<BoxRow>, actions: seq<Action>, j: nat, k: nat)
    requires j < k < |Exec(Fleet(boxes), actions).exchanges|
    ensures var exchanges := Exec(Fleet(boxes), actions).exchanges;
            && exchanges[j].code != exchanges[k].code
            && (exchanges[j].grant.Some? ==> exchanges[j].grant != exchanges[k].grant)
  {
    RunsStaySound(boxes, actions);
  }

  /** Every grant was bought, by exactly one exchange. */
  lemma GrantsAreBoughtOnce(boxes: seq<BoxRow>, actions: seq<Action>, g: nat)
    requires g < |Exec(Fleet(boxes), actions).grants|
    ensures var exchanges := Exec(Fleet(boxes), actions).exchanges;
            exists k :: 0 <= k < |exchanges| && exchanges[k].grant == Some(g)
                        && forall j :: 0 <= j < |exchanges| && exchanges[j].grant == Some(g) ==> j == k
  {
    RunsStaySound(boxes, actions);
    var exchanges := Exec(Fleet(boxes), actions).exchanges;
    assert Bought(exchanges, g);
    var k :| 0 <= k < |exchanges| && exchanges[k].grant == Some(g);
    assert forall j :: 0 <= j < |exchanges| && exchanges[j].grant == Some(g) ==> j == k;
  }

  /** In every run, every successful claim of a grant installs the same password. */
  lemma ClaimsAgree(boxes: seq<BoxRow>, actions: seq<Action>, j: nat, k: nat)
    requires var claims := Exec(Fleet(boxes), actions).claims; j < k < |claims| && claims[j].grant == claims[k].grant
    ensures var claims := Exec(Fleet(boxes), actions).claims; claims[j].runtimeHash == claims[k].runtimeHash
  {
    RunsStaySound(boxes, actions);
  }

  /** An exchange that succeeds consumes its code: presenting it again fails, whatever
    * it is presented with. */
  lemma ExchangeConsumes(w: World, p: Presented, now: int, again: Presented, later: int)
    requires Exchangeable(w, p, now) && again.hash == p.hash
    ensures !Exchangeable(ExchangeCode(w, p, now), again, later)
  {}

  /** A code stored at `now` can be exchanged for two minutes, and the grant it buys
    * then can be claimed for ten. */
  lemma SecretsAreShortLived(
    w: World, box: nat, hash: nat, challenge: nat, redirect: nat, kind: AuthorizationType, now: int, p: Presented,
    later: int, runtimeHash: nat, last: int)
    requires p.hash == hash
    ensures var w1 := StoreAuthorizationCode(w, box, hash, challenge, redirect, kind, now);
            Exchangeable(w1, p, later) ==>
              && later < now + 2 * MINUTE_MS
              && p.box == box && p.challenge == challenge && p.redirect == redirect && p.kind == kind
              && (kind.Password? && Claimable(ExchangeCode(w1, p, later), p.box, p.token.value, runtimeHash, last) ==>
                    last < later + 10 * MINUTE_MS)
  {
    var w1 := StoreAuthorizationCode(w, box, hash, challenge, redirect, kind, now);
    assert w1.codes[|w.codes|].Some? && CodeWith(hash)(w1.codes[|w.codes|]);
    if Exchangeable(w1, p, later) && kind.Password? {
      var w2 := ExchangeCode(w1, p, later);
      assert w2.grants[|w.grants|].Some? && GrantWith(p.token.value)(w2.grants[|w.grants|]);
    }
  }

  // ---- Exactly what is accepted ----

  predicate NoSuchCode(w: World, hash: nat) {
    forall i :: 0 <= i < |w.codes| && w.codes[i].Some? ==> w.codes[i].value.hash != hash
  }

  predicate NoSuchGrant(w: World, token: nat) {
    forall i :: 0 <= i < |w.grants| && w.grants[i].Some? ==> w.grants[i].value.token != token
  }

  lemma OnlyMatch<T>(rows: seq<Option<T>>, p: Option<T> -> bool, k: nat)
    requires k < |rows| && p(rows[k])
    requires forall i :: 0 <= i < |rows| && i != k ==> !p(rows[i])
    ensures Unique(rows, p) == Some(k)
  {
    AscendingUnique(Select(rows, p), [k]);
  }

  /** A fresh code just stored is exchanged if and only if it comes back within two
    * minutes for the same box, purpose and redirect with the verifier it was asked for
    * with - and, for a session, asking for no grant, for a password naming one. */
  lemma ExchangedExactly(
    w: World, box: nat, hash: nat, challenge: nat, redirect: nat, kind: AuthorizationType, now: int, p: Presented, later: int)
    requires NoSuchCode(w, hash) && p.hash == hash
    ensures var w1 := StoreAuthorizationCode(w, box, hash, challenge, redirect, kind, now);
            Exchangeable(w1, p, later) <==>
            && p.box == box && p.challenge == challenge && p.redirect == redirect && p.kind == kind
            && (if kind.Session? then p.token.None? else p.token.Some?)
            && later < now + 120_000
  {
    var w1 := StoreAuthorizationCode(w, box, hash, challenge, redirect, kind, now);
    OnlyMatch(w1.codes, CodeWith(hash), |w.codes|);
  }

  /** An exchange consumes its code and, for a password, makes one grant of ten minutes
    * for that box under the token that was named; nothing else moves. */
  lemma ExchangeWrites(w: World, p: Presented, now: int)
    requires Exchangeable(w, p, now)
    ensures var w', id := ExchangeCode(w, p, now), Unique(w.codes, CodeWith(p.hash)).value;
            && w'.codes == w.codes[id := Some(w.codes[id].value.(consumedAt := Some(now)))]
            && w'.grants == w.grants + (if p.kind.Session? then [] else [Some(Grant(p.box, p.token.value, now + 600_000, None, None))])
            && w'.boxes == w.boxes && w'.jobs == w.jobs && w'.ops == w.ops && w'.claims == w.claims
  {
    if p.kind.Session? {
      assert w.grants + [] == w.grants;
    }
  }

  /** A fresh grant just bought is claimed if and only if its time is not over, it is for
    * that box, and the box is still there. */
  lemma ClaimedExactly(w: World, p: Presented, now: int, box: nat, runtimeHash: nat, later: int)
    requires Exchangeable(w, p, now) && p.kind.Password? && NoSuchGrant(w, p.token.value)
    ensures Claimable(ExchangeCode(w, p, now), box, p.token.value, runtimeHash, later) <==>
            box == p.box && later < now + 600_000 && box < |w.boxes| && !w.boxes[box].isDeleted
  {
    ExchangeWrites(w, p, now);
    OnlyMatch(ExchangeCode(w, p, now).grants, GrantWith(p.token.value), |w.grants|);
  }

  /** A claim puts the password on the box, marks its setup pending, and starts a chain of
    * attempts for it; the grant remembers it, and claimed again takes the same password
    * and no other, for as long as it lasts. */
  lemma ClaimWrites(w: World, box: nat, token: nat, runtimeHash: nat, now: int, again: nat, later: int)
    requires IsSound(w) && Claimable(w, box, token, runtimeHash, now)
    ensures var w', id := ClaimGrant(w, box, token, runtimeHash, now), Unique(w.grants, GrantWith(token)).value;
            && w'.boxes == w.boxes[box := w.boxes[box].(runtimeHash := Some(runtimeHash), setupPendingAt := Some(now))]
            && w'.jobs == w.jobs + [Job(box, runtimeHash, 1, |w.jobs|, Waiting)]
            && w'.codes == w.codes && w'.ops == w.ops && w'.exchanges == w.exchanges
            && (Claimable(w', box, token, again, later) <==> again == runtimeHash && later < w.grants[id].value.expiresAt)
  {
    var id := Unique(w.grants, GrantWith(token)).value;
    var w' := ClaimGrant(w, box, token, runtimeHash, now);
    assert w.grants[id].value.consumedAt.Some? <==> w.grants[id].value.runtimeHash.Some?;
    assert GrantWith(token)(w'.grants[id]);
    OnlyMatch(w'.grants, GrantWith(token), id);
  }

  /** A change is recorded exactly when the password it names is the box's own and another
    * one follows; it leaves a pending setup as it is and starts a chain. */
  lemma ChangeWrites(w: World, box: nat, current: nat, runtimeHash: nat)
    ensures var w' := ApplyPasswordChange(w, box, current, runtimeHash);
            var moves := BoxUsable(w, box) && w.boxes[box].runtimeHash == Some(current) && current != runtimeHash;
            && (!moves ==> w' == w)
            && (moves ==> w' == w.(boxes := w.boxes[box := w.boxes[box].(runtimeHash := Some(runtimeHash))],
                                   jobs := w.jobs + [Job(box, runtimeHash, 1, |w.jobs|, Waiting)]))
  {}

  /** A start that throws is tried again as the next attempt of its chain, for the same
    * password, up to the twentieth; one that begins or finds its operation there ends
    * the chain. */
  lemma AttemptEnds(w: World, job: nat, outcome: Outcome)
    requires job < |w.jobs| && w.jobs[job].state.ReadCurrent?
    ensures var j, jobs' := w.jobs[job], StartChange(w, job, outcome).jobs;
            && (outcome.Threw? && j.attempt < 20 ==>
                  |jobs'| == |w.jobs| + 1 && jobs'[|w.jobs|] == Job(j.box, j.runtimeHash, j.attempt + 1, j.chain, Waiting)
                  && jobs'[job].state.Done?)
            && (outcome.Threw? && j.attempt >= 20 ==> jobs' == w.jobs[job := j.(state := Done)])
            && (outcome.Duplicate? ==> jobs' == w.jobs[job := j.(state := Done)])
            && (outcome.Begun? && !BoxBusy(w, j.box) && BoxUsable(w, j.box) ==> jobs' == w.jobs[job := j.(state := Done)])
  {}

  /** An attempt goes on exactly when its password is the box's and the box is there. */
  lemma ReadExactly(w: World, job: nat)
    requires job < |w.jobs| && w.jobs[job].state.Waiting?
    ensures var j, w' := w.jobs[job], ReadBox(w, job);
            && |w'.jobs| == |w.jobs|
            && w' == w.(jobs := w.jobs[job := j.(state := w'.jobs[job].state)])
            && w'.jobs[job].state == (if BoxUsable(w, j.box) && w.boxes[j.box].runtimeHash == Some(j.runtimeHash)
                                      then ReadCurrent else Done)
  {}

  /** An operation that ends well leaves its password on the box and the setup done; one
    * that fails leaves the box as it was. Either is closed. */
  lemma ChangeEnds(w: World, op: nat)
    requires op < |w.ops| && w.ops[op].open && w.ops[op].box < |w.boxes|
    ensures var o := w.ops[op];
            && FinishChange(w, op) ==
               w.(ops := w.ops[op := PasswordOp(o.box, o.runtimeHash, false)],
                  boxes := w.boxes[o.box := BoxRow(w.boxes[o.box].isDeleted, Some(o.runtimeHash), None)])
            && FailChange(w, op) == w.(ops := w.ops[op := PasswordOp(o.box, o.runtimeHash, false)])
  {}

  /** The sweep removes codes and grants past their time only. */
  lemma SweepTakesExpired(w: World, codes: seq<nat>, grants: seq<nat>, now: int, i: nat)
    ensures var w' := DeleteExpired(w, codes, grants, now);
            && w' == w.(codes := w'.codes, grants := w'.grants)
            && |w'.codes| == |w.codes| && |w'.grants| == |w.grants|
            && (i < |w.codes| ==> w'.codes[i] in {w.codes[i], None})
            && (i < |w.codes| && w'.codes[i] != w.codes[i] ==> w.codes[i].value.expiresAt < now && i in codes)
            && (i < |w.grants| ==> w'.grants[i] in {w.grants[i], None})
            && (i < |w.grants| && w'.grants[i] != w.grants[i] ==> w.grants[i].value.expiresAt < now && i in grants)
  {}

  // ---- Chains ----

  /** The attempts of a chain are numbered, each number once, within the bound. */
  ghost predicate ChainsSound(jobs: seq<Job>) {
    && (forall j :: 0 <= j < |jobs| ==> 1 <= jobs[j].attempt <= PASSWORD_RECONCILE_MAX_ATTEMPTS && jobs[j].chain <= j)
    && (forall j, k :: 0 <= j < k < |jobs| && jobs[j].chain == jobs[k].chain ==>
          jobs[j].attempt < jobs[k].attempt && jobs[j].state == Done)
  }

  lemma NewChainKeepsChains(jobs: seq<Job>, job: Job)
    requires ChainsSound(jobs) && job.attempt == 1 && job.chain == |jobs|
    ensures ChainsSound(jobs + [job])
  {}

  lemma MovedJobKeepsChains(jobs: seq<Job>, job: nat, state: JobState)
    requires ChainsSound(jobs) && job < |jobs| && jobs[job].state != Done
    ensures ChainsSound(jobs[job := jobs[job].(state := state)])
  {}

  /** Only the last attempt of a chain can be retried. */
  lemma RetryKeepsChains(jobs: seq<Job>, job: nat)
    requires ChainsSound(jobs) && job < |jobs| && jobs[job].state != Done && jobs[job].attempt < PASSWORD_RECONCILE_MAX_ATTEMPTS
    ensures ChainsSound(jobs[job := jobs[job].(state := Done)] + [jobs[job].(attempt := jobs[job].attempt + 1, state := Waiting)])
  {}

  lemma StepKeepsChains(w: World, a: Action)
    requires ChainsSound(w.jobs)
    ensures ChainsSound(Apply(w, a).jobs)
  {
    hide ChainsSound, BoxBusy, Exchangeable;
    match a
    case Claim(box, token, runtimeHash, now) =>
      if Claimable(w, box, token, runtimeHash, now) {
        NewChainKeepsChains(w.jobs, Apply(w, a).jobs[|w.jobs|]);
      }
    case Change(box, current, runtimeHash) => NewChainKeepsChains(w.jobs, Job(box, runtimeHash, 1, |w.jobs|, Waiting));
    case Read(job) =>
      if job < |w.jobs| && w.jobs[job].state == Waiting {
        MovedJobKeepsChains(w.jobs, job, Apply(w, a).jobs[job].state);
      }
    case Start(job, outcome) =>
      if job < |w.jobs| && w.jobs[job].state == ReadCurrent {
        MovedJobKeepsChains(w.jobs, job, Done);
        if outcome.Threw? && w.jobs[job].attempt < PASSWORD_RECONCILE_MAX_ATTEMPTS {
          RetryKeepsChains(w.jobs, job);
        }
      }
    case Store(box, hash, challenge, redirect, kind, now) =>
    case Exchange(presented, now) =>
    case Finish(op) =>
    case Fail(op) =>
    case Delete(box) =>
    case Sweep(codes, grants, now) =>
  }

  lemma {:induction false} RunsKeepChains(boxes: seq<BoxRow>, actions: seq<Action>)
    ensures ChainsSound(Exec(Fleet(boxes), actions).jobs)
  {
    if actions != [] {
      RunsKeepChains(boxes, actions[..|actions| - 1]);
      StepKeepsChains(Exec(Fleet(boxes), actions[..|actions| - 1]), actions[|actions| - 1]);
    }
  }

  function AttemptsOf(jobs: seq<Job>, chain: nat): set<nat> {
    set j: nat | j < |jobs| && jobs[j].chain == chain
  }

  lemma {:induction false} NumberedSet(jobs: seq<Job>, ids: set<nat>, bound: nat)
    requires forall j :: j in ids ==> j < |jobs| && 1 <= jobs[j].attempt <= bound
    requires forall j, k :: j in ids && k in ids && j < k ==> jobs[j].attempt < jobs[k].attempt
    ensures |ids| <= bound
    decreases bound
  {
    if ids != {} {
      if top :| top in ids && jobs[top].attempt == bound {
        assert ids == (ids - {top}) + {top};
        forall j | j in ids - {top} ensures jobs[j].attempt <= bound - 1 {
          assert j < top || top < j;
        }
        NumberedSet(jobs, ids - {top}, bound - 1);
      } else {
        NumberedSet(jobs, ids, bound - 1);
      }
    }
  }

  /** In every run a chain makes at most twenty attempts, one at a time. */
  lemma ChainsAreBounded(boxes: seq<BoxRow>, actions: seq<Action>, chain: nat)
    ensures |AttemptsOf(Exec(Fleet(boxes), actions).jobs, chain)| <= 20
  {
    RunsKeepChains(boxes, actions);
    var jobs := Exec(Fleet(boxes), actions).jobs;
    NumberedSet(jobs, AttemptsOf(jobs, chain), PASSWORD_RECONCILE_MAX_ATTEMPTS);
  }

  // ---- Which password stays ----

  predicate Stored(w: World, box: nat, runtimeHash: nat) {
    box < |w.boxes| && w.boxes[box].runtimeHash == Some(runtimeHash)
  }

  /** Nothing under way would put another password on the box. */
  predicate Settled(w: World, box: nat, runtimeHash: nat) {
    && (forall o :: 0 <= o < |w.ops| && w.ops[o].open && w.ops[o].box == box ==> w.ops[o].runtimeHash == runtimeHash)
    && (forall j :: 0 <= j < |w.jobs| && w.jobs[j].state == ReadCurrent && w.jobs[j].box == box ==>
          w.jobs[j].runtimeHash == runtimeHash)
  }

  /** Another password is presented for the box, or the box is deleted. */
  predicate Disturbs(a: Action, box: nat) {
    (a.Claim? || a.Change? || a.Delete?) && a.box == box
  }

  ghost predicate Undisturbed(actions: seq<Action>, box: nat) {
    forall k :: 0 <= k < |actions| ==> !Disturbs(actions[k], box)
  }

  /** Whatever runs on, short of another password or the box's end, the box keeps this
    * one. */
  ghost predicate Survives(w: World, box: nat, runtimeHash: nat) {
    forall more: seq<Action> :: Undisturbed(more, box) ==> Stored(Exec(w, more), box, runtimeHash)
  }

  lemma StepKeepsStored(w: World, a: Action, box: nat, runtimeHash: nat)
    requires Stored(w, box, runtimeHash) && Settled(w, box, runtimeHash) && !Disturbs(a, box)
    ensures Stored(Apply(w, a), box, runtimeHash) && Settled(Apply(w, a), box, runtimeHash)
  {}

  lemma {:induction false} SettledStays(w: World, more: seq<Action>, box: nat, runtimeHash: nat)
    requires Stored(w, box, runtimeHash) && Settled(w, box, runtimeHash) && Undisturbed(more, box)
    ensures Stored(Exec(w, more), box, runtimeHash) && Settled(Exec(w, more), box, runtimeHash)
  {
    if more != [] {
      SettledStays(w, more[..|more| - 1], box, runtimeHash);
      StepKeepsStored(Exec(w, more[..|more| - 1]), more[|more| - 1], box, runtimeHash);
    }
  }

  /** At most one password operation is open on a box. */
  predicate OneOpenEach(w: World) {
    forall o, p :: 0 <= o < p < |w.ops| && w.ops[o].open && w.ops[p].open ==> w.ops[o].box != w.ops[p].box
  }

  lemma {:induction false} RunsKeepOneOpen(boxes: seq<BoxRow>, actions: seq<Action>)
    ensures OneOpenEach(Exec(Fleet(boxes), actions))
  {
    if actions != [] {
      RunsKeepOneOpen(boxes, actions[..|actions| - 1]);
    }
  }

  /** No box deleted to begin with still has a password. */
  predicate IsFleet(boxes: seq<BoxRow>) {
    forall b :: 0 <= b < |boxes| && boxes[b].isDeleted ==> boxes[b].runtimeHash.None?
  }

  predicate DeletedAreIdle(w: World) {
    && IsFleet(w.boxes)
    && forall o :: 0 <= o < |w.ops| && w.ops[o].open ==> BoxUsable(w, w.ops[o].box)
  }

  lemma StepKeepsDeletedIdle(w: World, a: Action)
    requires DeletedAreIdle(w)
    ensures DeletedAreIdle(Apply(w, a))
  {}

  /** In every run a deleted box has no password and no operation. */
  lemma {:induction false} RunsKeepDeletedIdle(boxes: seq<BoxRow>, actions: seq<Action>)
    requires IsFleet(boxes)
    ensures DeletedAreIdle(Exec(Fleet(boxes), actions))
  {
    if actions != [] {
      RunsKeepDeletedIdle(boxes, actions[..|actions| - 1]);
      StepKeepsDeletedIdle(Exec(Fleet(boxes), actions[..|actions| - 1]), actions[|actions| - 1]);
    }
  }

  lemma OneStep(w: World, a: Action)
    ensures Exec(w, [a]) == Apply(w, a)
  {}

  lemma StepThen(w: World, first: seq<Action>, a: Action)
    ensures Exec(w, first + [a]) == Apply(Exec(w, first), a)
  {}

  /** An open operation that carries another password ends with it stored. */
  lemma OtherOperationOverrides(w: World, box: nat, runtimeHash: nat, o: nat)
    requires o < |w.ops| && w.ops[o].open && w.ops[o].box == box && box < |w.boxes| && w.ops[o].runtimeHash != runtimeHash
    ensures !Survives(w, box, runtimeHash)
  {
    hide FinishChange;
    ChangeEnds(w, o);
    OneStep(w, Finish(o));
    assert Undisturbed([Finish(o)], box);
    assert !Stored(Exec(w, [Finish(o)]), box, runtimeHash);
  }

  /** An operation open on a box can always fail, and leaves the box free. */
  lemma CanComeFree(w: World, box: nat) returns (idle: seq<Action>)
    requires OneOpenEach(w)
    ensures Undisturbed(idle, box)
    ensures var w' := Exec(w, idle);
            !BoxBusy(w', box) && w'.jobs == w.jobs && w'.boxes == w.boxes && |w'.ops| == |w.ops|
  {
    idle := [];
    if BoxBusy(w, box) {
      var o :| 0 <= o < |w.ops| && w.ops[o].open && w.ops[o].box == box;
      idle := [Fail(o)];
      OneStep(w, Fail(o));
    }
  }

  lemma StartThenFinish(w: World, j: nat)
    requires j < |w.jobs| && w.jobs[j].state == ReadCurrent && !BoxBusy(w, w.jobs[j].box) && BoxUsable(w, w.jobs[j].box)
    ensures Stored(Apply(Apply(w, Start(j, Begun)), Finish(|w.ops|)), w.jobs[j].box, w.jobs[j].runtimeHash)
  {}

  /** So does an attempt that read the box while the other password was current. */
  lemma OtherAttemptOverrides(w: World, box: nat, runtimeHash: nat, j: nat)
    requires OneOpenEach(w) && BoxUsable(w, box)
    requires j < |w.jobs| && w.jobs[j].state == ReadCurrent && w.jobs[j].box == box && w.jobs[j].runtimeHash != runtimeHash
    ensures !Survives(w, box, runtimeHash)
  {
    hide Apply, BoxBusy;
    var idle := CanComeFree(w, box);
    StartThenFinish(Exec(w, idle), j);
    StepThen(w, idle, Start(j, Begun));
    StepThen(w, idle + [Start(j, Begun)], Finish(|w.ops|));
    var more := idle + [Start(j, Begun)] + [Finish(|w.ops|)];
    assert Undisturbed(more, box);
    assert !Stored(Exec(w, more), box, runtimeHash);
  }

  /** The stored password survives everything but another one or the end of the box if
    * and only if no operation open on the box, and no attempt that has read it, carries
    * another. A password accepted while an older one is being applied can be lost. */
  lemma SurvivesExactly(boxes: seq<BoxRow>, actions: seq<Action>, box: nat, runtimeHash: nat)
    requires IsFleet(boxes) && Stored(Exec(Fleet(boxes), actions), box, runtimeHash)
    ensures var w := Exec(Fleet(boxes), actions);
            Survives(w, box, runtimeHash) <==> Settled(w, box, runtimeHash)
  {
    var w := Exec(Fleet(boxes), actions);
    RunsKeepOneOpen(boxes, actions);
    RunsKeepDeletedIdle(boxes, actions);
    if Settled(w, box, runtimeHash) {
      forall more: seq<Action> | Undisturbed(more, box) ensures Stored(Exec(w, more), box, runtimeHash) {
        SettledStays(w, more, box, runtimeHash);
      }
    } else if o :| 0 <= o < |w.ops| && w.ops[o].open && w.ops[o].box == box && w.ops[o].runtimeHash != runtimeHash {
      OtherOperationOverrides(w, box, runtimeHash, o);
    } else {
      var j :| 0 <= j < |w.jobs| && w.jobs[j].state == ReadCurrent && w.jobs[j].box == box && w.jobs[j].runtimeHash != runtimeHash;
      OtherAttemptOverrides(w, box, runtimeHash, j);
    }
  }

  const ONE_BOX: seq<BoxRow> := [BoxRow(false, Some(1), None)]
  const OLDER_UNDER_WAY: seq<Action> := [Change(0, 1, 2), Read(0), Start(0, Begun)]

  lemma OlderIsUnderWay()
    ensures var w := Exec(Fleet(ONE_BOX), OLDER_UNDER_WAY);
            w.boxes == [BoxRow(false, Some(2), None)] && w.ops == [PasswordOp(0, 2, true)] && |w.jobs| == 1
  {
    hide ApplyPasswordChange, ReadBox;
    ChangeWrites(Fleet(ONE_BOX), 0, 1, 2);
    ReadExactly(Exec(Fleet(ONE_BOX), [Change(0, 1, 2)]), 0);
    OneStep(Fleet(ONE_BOX), Change(0, 1, 2));
    StepThen(Fleet(ONE_BOX), [Change(0, 1, 2)], Read(0));
    StepThen(Fleet(ONE_BOX), [Change(0, 1, 2)] + [Read(0)], Start(0, Begun));
    assert OLDER_UNDER_WAY == [Change(0, 1, 2)] + [Read(0)] + [Start(0, Begun)];
  }

  /** Password 3 is accepted while the operation that applies 2 is open: that operation
    * ends with 2 stored, and the chain of 3 finds it is no longer current. */
  lemma NewerPasswordIsLost()
    ensures var run := OLDER_UNDER_WAY + [Change(0, 2, 3)];
            && Stored(Exec(Fleet(ONE_BOX), run), 0, 3)
            && Stored(Exec(Fleet(ONE_BOX), run + [Finish(0)]), 0, 2)
            && var jobs := Exec(Fleet(ONE_BOX), run + [Finish(0)] + [Read(1)]).jobs;
               |jobs| == 2 && jobs[1].state == Done
  {
    OlderIsUnderWay();
    var run := OLDER_UNDER_WAY + [Change(0, 2, 3)];
    StepThen(Fleet(ONE_BOX), OLDER_UNDER_WAY, Change(0, 2, 3));
    StepThen(Fleet(ONE_BOX), run, Finish(0));
    StepThen(Fleet(ONE_BOX), run + [Finish(0)], Read(1));
  }

  // ---- What an attempt acts for ----

  /** Step `k` is an attempt for this password reading the box, and finding it there. */
  predicate ReadsCurrent(boxes: seq<BoxRow>, actions: seq<Action>, k: nat, box: nat, runtimeHash: nat)
    requires k < |actions|
  {
    var w, a := Exec(Fleet(boxes), actions[..k]), actions[k];
    && a.Read? && a.job < |w.jobs| && w.jobs[a.job].state == Waiting
    && w.jobs[a.job].box == box && w.jobs[a.job].runtimeHash == runtimeHash
    && BoxUsable(w, box) && Stored(w, box, runtimeHash)
  }

  predicate WasCurrent(boxes: seq<BoxRow>, actions: seq<Action>, box: nat, runtimeHash: nat) {
    exists k :: 0 <= k < |actions| && ReadsCurrent(boxes, actions, k, box, runtimeHash)
  }

  lemma WasCurrentExtends(boxes: seq<BoxRow>, init: seq<Action>, a: Action, box: nat, runtimeHash: nat)
    ensures WasCurrent(boxes, init, box, runtimeHash) ==> WasCurrent(boxes, init + [a], box, runtimeHash)
    ensures ReadsCurrent(boxes, init + [a], |init|, box, runtimeHash) ==> WasCurrent(boxes, init + [a], box, runtimeHash)
  {
    if WasCurrent(boxes, init, box, runtimeHash) {
      var k :| 0 <= k < |init| && ReadsCurrent(boxes, init, k, box, runtimeHash);
      assert (init + [a])[..k] == init[..k];
      assert ReadsCurrent(boxes, init + [a], k, box, runtimeHash);
    }
  }

  /** What acts in `w` was read as current on the way there. */
  ghost predicate ActsForCurrent(boxes: seq<BoxRow>, actions: seq<Action>, w: World) {
    && (forall j :: 0 <= j < |w.jobs| && w.jobs[j].state == ReadCurrent ==>
          WasCurrent(boxes, actions, w.jobs[j].box, w.jobs[j].runtimeHash))
    && (forall o :: 0 <= o < |w.ops| ==> WasCurrent(boxes, actions, w.ops[o].box, w.ops[o].runtimeHash))
  }

  /** What a step makes act: the attempt that reads, or the operation of one that had. */
  lemma NewlyActing(w: World, a: Action)
    ensures var w' := Apply(w, a);
            && (forall j :: 0 <= j < |w'.jobs| && w'.jobs[j].state == ReadCurrent && !(j < |w.jobs| && w'.jobs[j] == w.jobs[j]) ==>
                  && a == Read(j) && j < |w.jobs| && w.jobs[j].state == Waiting
                  && w'.jobs[j].box == w.jobs[j].box && w'.jobs[j].runtimeHash == w.jobs[j].runtimeHash
                  && BoxUsable(w, w.jobs[j].box) && Stored(w, w.jobs[j].box, w.jobs[j].runtimeHash))
            && (forall o :: 0 <= o < |w'.ops| && !(o < |w.ops| && w'.ops[o].box == w.ops[o].box && w'.ops[o].runtimeHash == w.ops[o].runtimeHash) ==>
                  && a.Start? && a.job < |w.jobs| && w.jobs[a.job].state == ReadCurrent
                  && w.jobs[a.job].box == w'.ops[o].box && w.jobs[a.job].runtimeHash == w'.ops[o].runtimeHash)
  {}

  /** In every run, each password operation an attempt started carries a password that
    * was the box's stored one when that attempt had read it, the box still being there. */
  lemma {:induction false} AttemptsActOnlyForTheCurrent(boxes: seq<BoxRow>, actions: seq<Action>)
    ensures ActsForCurrent(boxes, actions, Exec(Fleet(boxes), actions))
  {
    if actions != [] {
      var init, a := actions[..|actions| - 1], actions[|actions| - 1];
      var w := Exec(Fleet(boxes), init);
      assert actions == init + [a] && actions[..|init|] == init;
      AttemptsActOnlyForTheCurrent(boxes, init);
      NewlyActing(w, a);
      hide Apply, WasCurrent;
      var w' := Apply(w, a);
      forall j | 0 <= j < |w'.jobs| && w'.jobs[j].state == ReadCurrent
        ensures WasCurrent(boxes, actions, w'.jobs[j].box, w'.jobs[j].runtimeHash)
      {
        WasCurrentExtends(boxes, init, a, w'.jobs[j].box, w'.jobs[j].runtimeHash);
      }
      forall o | 0 <= o < |w'.ops| ensures WasCurrent(boxes, actions, w'.ops[o].box, w'.ops[o].runtimeHash) {
        WasCurrentExtends(boxes, init, a, w'.ops[o].box, w'.ops[o].runtimeHash);
      }
    }
  }

  // ---- As the program performs it ----

  class AuthTables {
    var codes: seq<Option<Code>>
    var grants: seq<Option<Grant>>
    var boxes: seq<BoxRow>
    var jobs: seq<Job>
    ghost var ops: seq<PasswordOp>
    ghost var exchanges: seq<Exchanged>
    ghost var claims: seq<Claimed>

    constructor (fleet: seq<BoxRow>)
      ensures State() == Fleet(fleet) && Valid()
    {
      codes, grants, boxes, jobs := [], [], fleet, [];
      ops, exchanges, claims := [], [], [];
    }

    ghost function State(): World
      reads this
    {
      World(codes, grants, boxes, jobs, ops, exchanges, claims)
    }

    ghost predicate Valid()
      reads this
    {
      IsSound(State()) && ChainsSound(jobs)
    }

    method StoreAuthorizationCode(box: nat, hash: nat, challenge: nat, redirect: nat, kind: AuthorizationType, now: int)
      requires Valid()
      modifies `codes
      ensures State() == InstanceAuth.StoreAuthorizationCode(old(State()), box, hash, challenge, redirect, kind, now)
      ensures Valid()
    {
      codes := codes + [Some(Code(box, hash, challenge, redirect, kind, now + AUTHORIZATION_CODE_TTL_MS, None))];
    }

    method ExchangeCode(p: Presented, now: int) returns (accepted: bool)
      requires Valid()
      modifies this
      ensures State() == InstanceAuth.ExchangeCode(old(State()), p, now)
      ensures accepted <==> Exchangeable(old(State()), p, now)
      ensures Valid() && !Exchangeable(State(), p, now)
    {
      ExchangeKeepsSound(State(), p, now);
      var found := Unique(codes, CodeWith(p.hash));
      if found.None? || !Matches(codes[found.value].value, p, now) {
        return false;
      }
      if !CapabilityFits(p) {
        return false;
      }
      ExchangeConsumes(State(), p, now, p, now);
      codes := codes[found.value := Some(codes[found.value].value.(consumedAt := Some(now)))];
      if p.kind.Session? {
        exchanges := exchanges + [Exchanged(found.value, None)];
        return true;
      }
      exchanges := exchanges + [Exchanged(found.value, Some(|grants|))];
      grants := grants + [Some(Grant(p.box, p.token.value, now + SETUP_GRANT_TTL_MS, None, None))];
      accepted := true;
    }

    method ClaimGrantForPassword(box: nat, token: nat, runtimeHash: nat, now: int) returns (accepted: bool)
      requires Valid()
      modifies this
      ensures State() == ClaimGrant(old(State()), box, token, runtimeHash, now)
      ensures accepted <==> Claimable(old(State()), box, token, runtimeHash, now)
      ensures accepted ==> Stored(State(), box, runtimeHash)
      ensures Valid()
    {
      assert forall g :: 0 <= g < |grants| && grants[g].Some? && grants[g].value.consumedAt.None? ==> grants[g].value.runtimeHash.None?;
      hide IsSound, ChainsSound, Select;
      ClaimKeepsSound(State(), box, token, runtimeHash, now);
      StepKeepsChains(State(), Claim(box, token, runtimeHash, now));
      var found := Unique(grants, GrantWith(token));
      if found.None? {
        return false;
      }
      var grant := grants[found.value].value;
      if grant.box != box || grant.expiresAt <= now || (grant.consumedAt.Some? && grant.runtimeHash != Some(runtimeHash)) {
        return false;
      }
      if box >= |boxes| || boxes[box].isDeleted {
        return false;
      }
      if grant.consumedAt.None? {
        grants := grants[found.value := Some(grant.(consumedAt := Some(now), runtimeHash := Some(runtimeHash)))];
      }
      var installed := if grant.runtimeHash.Some? then grant.runtimeHash.value else runtimeHash;
      boxes := boxes[box := boxes[box].(runtimeHash := Some(installed), setupPendingAt := Some(now))];
      jobs := jobs + [Job(box, installed, 1, |jobs|, Waiting)];
      claims := claims + [Claimed(found.value, installed)];
      accepted := true;
    }

    method ApplyPasswordChange(box: nat, current: nat, runtimeHash: nat) returns (accepted: bool)
      requires Valid()
      modifies this
      ensures State() == InstanceAuth.ApplyPasswordChange(old(State()), box, current, runtimeHash)
      ensures accepted <==> BoxUsable(old(State()), box) && Stored(old(State()), box, current)
      ensures accepted ==> Stored(State(), box, runtimeHash)
      ensures Valid()
    {
      if box >= |boxes| || boxes[box].isDeleted || boxes[box].runtimeHash != Some(current) {
        return false;
      }
      if boxes[box].runtimeHash == Some(runtimeHash) {
        return true;
      }
      boxes := boxes[box := boxes[box].(runtimeHash := Some(runtimeHash))];
      jobs := jobs + [Job(box, runtimeHash, 1, |jobs|, Waiting)];
      accepted := true;
    }
  }
}
