/** Automatic repair of one box: a sweep that probes, reads the facts, decides and
  * starts in four separate steps, while people and the rest of the fleet start and
  * settle operations in between. */
module AutoRepair {
  import opened Tables
  import opened Vocabulary

  const HOUR_MS: int := 3_600_000
  const SUSTAINED_FAILURES: nat := 3
  const OWNER_QUIET_WINDOW_MS: int := 2 * HOUR_MS
  const AUTO_REPAIR_WINDOW_MS: int := 24 * HOUR_MS
  const MAX_AUTO_REPAIRS_PER_WINDOW: nat := 2

  datatype Trigger =
    | Owner | Staff
    | AutoRepairSweep | RuntimeFloor | AutoSnapshot | AbuseSuspension | SubscriptionRevoked | DeletionSweep | DeleteRetry

  predicate IsSystemTrigger(trigger: Trigger) {
    trigger !in {Owner, Staff}
  }

  /** What a start had behind it: the probes recorded and the operations it had seen. */
  datatype Seen = Seen(probes: nat, operations: nat)

  datatype Op = Op(kind: OperationType, trigger: Trigger, createdAt: int, open: bool, seen: Seen)

  predicate ByPerson(op: Op) {
    !IsSystemTrigger(op.trigger)
  }

  predicate IsAutoRepair(op: Op) {
    op.kind == RepairBox && op.trigger == AutoRepairSweep
  }

  // ---- Deciding ----

  datatype Facts = Facts(
    consecutiveFailures: nat, lastOwnerOperationAt: Option<int>, recentAutoRepairs: seq<int>, status: BoxStatus)

  datatype Decision =
    | Repair | Healthy | NotSustained | StatusNotRepairable | OwnerRecentlyActed | AttemptLimitReached

  function WithinWindow(times: seq<int>, now: int): nat {
    if times == [] then 0
    else WithinWindow(times[..|times| - 1], now) + if now - times[|times| - 1] < AUTO_REPAIR_WINDOW_MS then 1 else 0
  }

  function AutoRepairDecision(facts: Facts, now: int): Decision {
    if facts.consecutiveFailures == 0 then Healthy
    else if facts.consecutiveFailures < SUSTAINED_FAILURES then NotSustained
    else if !IsOperationAllowed(facts.status, RepairBox) then StatusNotRepairable
    else if facts.lastOwnerOperationAt.Some? && now - facts.lastOwnerOperationAt.value < OWNER_QUIET_WINDOW_MS then
      OwnerRecentlyActed
    else if WithinWindow(facts.recentAutoRepairs, now) >= MAX_AUTO_REPAIRS_PER_WINDOW then AttemptLimitReached
    else Repair
  }

  // ---- Reading ----

  /** The newest operation by a person since `since`. */
  function LastByPerson(ops: seq<Op>, since: int): Option<int> {
    if ops == [] then None else
      var last := ops[|ops| - 1];
      if since <= last.createdAt && ByPerson(last) then Some(last.createdAt) else LastByPerson(ops[..|ops| - 1], since)
  }

  function AutoRepairsSince(ops: seq<Op>, since: int): seq<int> {
    if ops == [] then [] else
      var last := ops[|ops| - 1];
      AutoRepairsSince(ops[..|ops| - 1], since)
      + if since <= last.createdAt && IsAutoRepair(last) then [last.createdAt] else []
  }

  function AutoRepairFacts(failures: nat, ops: seq<Op>, status: BoxStatus, now: int): Facts {
    Facts(failures, LastByPerson(ops, now - OWNER_QUIET_WINDOW_MS), AutoRepairsSince(ops, now - AUTO_REPAIR_WINDOW_MS), status)
  }

  // ---- Runs ----

  /** Where the box's sweep is. Sweeps of one box do not overlap. */
  datatype Sweep =
    | Idle
    | Unreachable
    | FactsRead(facts: Facts, readAt: int, seen: nat)
    | Approved(facts: Facts, readAt: int, decidedAt: int, seen: nat)

  datatype World = World(now: int, status: BoxStatus, failures: nat, probes: seq<bool>, ops: seq<Op>, sweep: Sweep)

  datatype Action =
    | Wait(ms: nat)
    | Probe(reachable: bool)
    | ReadFacts
    | Decide
    | StartRepair
    | Crash
    | StartOther(kind: OperationType, trigger: Trigger)
    | Settle(op: nat, status: BoxStatus)

  predicate Busy(w: World) {
    exists o :: 0 <= o < |w.ops| && w.ops[o].open
  }

  /** Any operation begins only on an idle box in a status it may begin from. */
  function StartBoxOperation(w: World, kind: OperationType, trigger: Trigger, seen: Seen): World {
    if Busy(w) || !IsOperationAllowed(w.status, kind) then w else
      var during := StatusDuring(kind);
      w.(ops := w.ops + [Op(kind, trigger, w.now, true, seen)], status := if during.Some? then during.value else w.status)
  }

  function RecordProbe(failures: nat, reachable: bool): nat {
    if reachable then 0 else failures + 1
  }

  function Apply(w: World, a: Action): World {
    match a
    case Wait(ms) => w.(now := w.now + ms)
    case Probe(reachable) =>
      if w.sweep != Idle then w else
        w.(failures := RecordProbe(w.failures, reachable), probes := w.probes + [reachable],
           sweep := if reachable then Idle else Unreachable)
    case ReadFacts =>
      if w.sweep != Unreachable then w else
        w.(sweep := FactsRead(AutoRepairFacts(w.failures, w.ops, w.status, w.now), w.now, |w.ops|))
    case Decide =>
      if !w.sweep.FactsRead? then w
      else if AutoRepairDecision(w.sweep.facts, w.now) == Repair then
        w.(sweep := Approved(w.sweep.facts, w.sweep.readAt, w.now, w.sweep.seen))
      else w.(sweep := Idle)
    case StartRepair =>
      if !w.sweep.Approved? then w else
        StartBoxOperation(w, RepairBox, AutoRepairSweep, Seen(|w.probes|, w.sweep.seen)).(sweep := Idle)
    case Crash => w.(sweep := Idle)
    case StartOther(kind, trigger) =>
      if trigger == AutoRepairSweep then w else StartBoxOperation(w, kind, trigger, Seen(|w.probes|, |w.ops|))
    case Settle(op, status) =>
      if op >= |w.ops| || !w.ops[op].open then w else
        w.(ops := w.ops[op := w.ops[op].(open := false)], status := status)
  }

  function Exec(w: World, actions: seq<Action>): World {
    if actions == [] then w else Apply(Exec(w, actions[..|actions| - 1]), actions[|actions| - 1])
  }

  /** A box before its first sweep. */
  function NewBox(now: int, status: BoxStatus): World {
    World(now, status, 0, [], [], Idle)
  }
}

/** What the limiter guarantees over every trace, and the one thing it does not. */
module AutoRepairRuns {
  import opened Tables
  import opened Vocabulary
  import opened AutoRepair

  /** The length of the run of failed probes at the end. */
  function Trailing(probes: seq<bool>): nat {
    if probes == [] || probes[|probes| - 1] then 0 else Trailing(probes[..|probes| - 1]) + 1
  }

  ghost predicate Ordered(ops: seq<Op>, now: int) {
    && (forall i, j :: 0 <= i < j < |ops| ==> ops[i].createdAt <= ops[j].createdAt)
    && (forall i :: 0 <= i < |ops| ==> ops[i].createdAt <= now)
  }

  /** No three automatic repairs within one window. */
  ghost predicate Spaced(ops: seq<Op>) {
    forall i, j, k :: 0 <= i < j < k < |ops| && IsAutoRepair(ops[i]) && IsAutoRepair(ops[j]) && IsAutoRepair(ops[k])
      ==> ops[k].createdAt - ops[i].createdAt >= AUTO_REPAIR_WINDOW_MS
  }

  /** A repair was started on facts under which it was due: a sustained failure, and
    * no person's operation in the quiet window among those it had seen. */
  ghost predicate WasDue(ops: seq<Op>, probes: seq<bool>, r: nat)
    requires r < |ops|
  {
    IsAutoRepair(ops[r]) ==>
      && ops[r].seen.operations <= r
      && ops[r].seen.probes <= |probes|
      && Trailing(probes[..ops[r].seen.probes]) >= SUSTAINED_FAILURES
      && forall p :: 0 <= p < ops[r].seen.operations && ByPerson(ops[p]) ==>
           ops[r].createdAt - ops[p].createdAt >= OWNER_QUIET_WINDOW_MS
  }

  ghost predicate AllDue(w: World) {
    forall r :: 0 <= r < |w.ops| ==> WasDue(w.ops, w.probes, r)
  }

  /** The facts a sweep holds were read of the operations up to `seen`, and no
    * automatic repair came after. */
  ghost predicate HoldsFacts(w: World, facts: Facts, readAt: int, seen: nat) {
    && seen <= |w.ops|
    && readAt <= w.now
    && facts.consecutiveFailures == w.failures
    && facts.recentAutoRepairs == AutoRepairsSince(w.ops[..seen], readAt - AUTO_REPAIR_WINDOW_MS)
    && facts.lastOwnerOperationAt == LastByPerson(w.ops[..seen], readAt - OWNER_QUIET_WINDOW_MS)
    && forall o :: seen <= o < |w.ops| ==> !IsAutoRepair(w.ops[o])
  }

  ghost predicate SweepSound(w: World) {
    match w.sweep
    case Idle => true
    case Unreachable => true
    case FactsRead(facts, readAt, seen) => HoldsFacts(w, facts, readAt, seen)
    case Approved(facts, readAt, decidedAt, seen) =>
      && HoldsFacts(w, facts, readAt, seen)
      && readAt <= decidedAt <= w.now
      && AutoRepairDecision(facts, decidedAt) == Repair
  }

  ghost predicate Gated(w: World) {
    && w.failures == Trailing(w.probes)
    && Ordered(w.ops, w.now)
    && Spaced(w.ops)
    && AllDue(w)
    && SweepSound(w)
  }

  // ---- What the facts show ----

  lemma {:induction false} PersonSeen(ops: seq<Op>, since: int, p: nat)
    requires p < |ops| && ByPerson(ops[p]) && since <= ops[p].createdAt
    requires forall i, j :: 0 <= i < j < |ops| ==> ops[i].createdAt <= ops[j].createdAt
    ensures LastByPerson(ops, since).Some? && LastByPerson(ops, since).value >= ops[p].createdAt
  {
    if p < |ops| - 1 && !(since <= ops[|ops| - 1].createdAt && ByPerson(ops[|ops| - 1])) {
      PersonSeen(ops[..|ops| - 1], since, p);
    }
  }

  predicate Counts(op: Op, since: int, now: int) {
    IsAutoRepair(op) && since <= op.createdAt && now - op.createdAt < AUTO_REPAIR_WINDOW_MS
  }

  /** Each operation counts for itself. */
  lemma LastCounts(ops: seq<Op>, since: int, now: int)
    requires ops != []
    ensures WithinWindow(AutoRepairsSince(ops, since), now) ==
            WithinWindow(AutoRepairsSince(ops[..|ops| - 1], since), now) + if Counts(ops[|ops| - 1], since, now) then 1 else 0
  {
    hide IsAutoRepair;
    var last := ops[|ops| - 1];
    var rest := AutoRepairsSince(ops[..|ops| - 1], since);
    if since <= last.createdAt && IsAutoRepair(last) {
      assert (rest + [last.createdAt])[..|rest|] == rest;
    } else {
      assert rest + [] == rest;
    }
  }

  lemma {:induction false} OneSeen(ops: seq<Op>, since: int, now: int, i: nat)
    requires i < |ops| && Counts(ops[i], since, now)
    ensures WithinWindow(AutoRepairsSince(ops, since), now) >= 1
  {
    hide WithinWindow, AutoRepairsSince, Counts;
    LastCounts(ops, since, now);
    if i < |ops| - 1 {
      OneSeen(ops[..|ops| - 1], since, now, i);
    }
  }

  lemma {:induction false} TwoSeen(ops: seq<Op>, since: int, now: int, i: nat, j: nat)
    requires i < j < |ops| && Counts(ops[i], since, now) && Counts(ops[j], since, now)
    ensures WithinWindow(AutoRepairsSince(ops, since), now) >= 2
  {
    hide WithinWindow, AutoRepairsSince, Counts;
    LastCounts(ops, since, now);
    if j < |ops| - 1 {
      TwoSeen(ops[..|ops| - 1], since, now, i, j);
    } else {
      OneSeen(ops[..|ops| - 1], since, now, i);
    }
  }

  // ---- Steps ----

  /** Operations that only opened or closed read the same. */
  predicate SameRecord(op: Op, op': Op) {
    op' == op.(open := op'.open)
  }

  lemma {:induction false} ReadsTheSame(ops: seq<Op>, ops': seq<Op>, since: int)
    requires |ops'| == |ops| && forall i :: 0 <= i < |ops| ==> SameRecord(ops[i], ops'[i])
    ensures LastByPerson(ops', since) == LastByPerson(ops, since)
    ensures AutoRepairsSince(ops', since) == AutoRepairsSince(ops, since)
  {
    if ops != [] {
      ReadsTheSame(ops[..|ops| - 1], ops'[..|ops| - 1], since);
    }
  }

  ghost predicate SameRecords(ops: seq<Op>, ops': seq<Op>) {
    |ops'| == |ops| && forall i :: 0 <= i < |ops| ==> SameRecord(ops[i], ops'[i])
  }

  lemma SameRecordsAreDue(ops: seq<Op>, ops': seq<Op>, probes: seq<bool>, now: int)
    requires SameRecords(ops, ops') && Ordered(ops, now) && Spaced(ops)
    requires forall r :: 0 <= r < |ops| ==> WasDue(ops, probes, r)
    ensures Ordered(ops', now) && Spaced(ops')
    ensures forall r :: 0 <= r < |ops'| ==> WasDue(ops', probes, r)
  {
    forall r | 0 <= r < |ops'| ensures WasDue(ops', probes, r) {
      assert WasDue(ops, probes, r);
    }
    forall i, j, k | 0 <= i < j < k < |ops'| && IsAutoRepair(ops'[i]) && IsAutoRepair(ops'[j]) && IsAutoRepair(ops'[k])
      ensures ops'[k].createdAt - ops'[i].createdAt >= AUTO_REPAIR_WINDOW_MS
    {
      assert IsAutoRepair(ops[i]) && IsAutoRepair(ops[j]) && IsAutoRepair(ops[k]);
    }
  }

  lemma SameRecordsHoldFacts(w: World, w': World, facts: Facts, readAt: int, seen: nat)
    requires HoldsFacts(w, facts, readAt, seen)
    requires SameRecords(w.ops, w'.ops) && w'.now == w.now && w'.failures == w.failures
    ensures HoldsFacts(w', facts, readAt, seen)
  {
    ReadsTheSame(w.ops[..seen], w'.ops[..seen], readAt - AUTO_REPAIR_WINDOW_MS);
    ReadsTheSame(w.ops[..seen], w'.ops[..seen], readAt - OWNER_QUIET_WINDOW_MS);
  }

  lemma SettleKeepsGated(w: World, op: nat, status: BoxStatus)
    requires Gated(w)
    ensures Gated(Apply(w, Settle(op, status)))
  {
    hide WasDue, Spaced, Ordered, Trailing, AutoRepairDecision, HoldsFacts;
    var w' := Apply(w, Settle(op, status));
    assert SameRecords(w.ops, w'.ops);
    SameRecordsAreDue(w.ops, w'.ops, w.probes, w.now);
    if w.sweep.FactsRead? || w.sweep.Approved? {
      SameRecordsHoldFacts(w, w', w.sweep.facts, w.sweep.readAt, w.sweep.seen);
    }
  }

  /** An operation of anyone else, appended. */
  lemma AppendKeepsGated(w: World, w': World, op: Op)
    requires Gated(w) && !IsAutoRepair(op) && op.createdAt == w.now
    requires w' == w.(ops := w.ops + [op], status := w'.status)
    ensures Gated(w')
  {
    hide LastByPerson, AutoRepairsSince, AutoRepairDecision, Trailing;
    forall r | 0 <= r < |w'.ops| ensures WasDue(w'.ops, w'.probes, r) {
      if r < |w.ops| {
        assert WasDue(w.ops, w.probes, r);
      }
    }
    if w.sweep.FactsRead? || w.sweep.Approved? {
      assert w'.ops[..w.sweep.seen] == w.ops[..w.sweep.seen];
    }
  }

  /** The start of an approved repair is far enough from the second last before it. */
  lemma ApprovedIsSpaced(w: World, i: nat, j: nat)
    requires Gated(w) && w.sweep.Approved?
    requires i < j < |w.ops| && IsAutoRepair(w.ops[i]) && IsAutoRepair(w.ops[j])
    ensures w.now - w.ops[i].createdAt >= AUTO_REPAIR_WINDOW_MS
  {
    hide WasDue, Spaced, LastByPerson, Trailing, IsOperationAllowed;
    var s := w.sweep;
    if w.now - w.ops[i].createdAt < AUTO_REPAIR_WINDOW_MS {
      assert w.ops[..s.seen][i] == w.ops[i] && w.ops[..s.seen][j] == w.ops[j];
      TwoSeen(w.ops[..s.seen], s.readAt - AUTO_REPAIR_WINDOW_MS, s.decidedAt, i, j);
      assert false;
    }
  }

  /** ... and from every person's operation it had seen. */
  lemma ApprovedIsQuiet(w: World, p: nat)
    requires Gated(w) && w.sweep.Approved? && p < w.sweep.seen && ByPerson(w.ops[p])
    ensures w.now - w.ops[p].createdAt >= OWNER_QUIET_WINDOW_MS
  {
    hide WasDue, Spaced, AutoRepairsSince, WithinWindow, Trailing, IsOperationAllowed;
    var s := w.sweep;
    if w.now - w.ops[p].createdAt < OWNER_QUIET_WINDOW_MS {
      assert w.ops[..s.seen][p] == w.ops[p];
      PersonSeen(w.ops[..s.seen], s.readAt - OWNER_QUIET_WINDOW_MS, p);
      assert false;
    }
  }

  lemma AppendedIsOrdered(ops: seq<Op>, op: Op, now: int)
    requires Ordered(ops, now) && op.createdAt == now
    ensures Ordered(ops + [op], now)
  {}

  lemma AppendedIsSpaced(ops: seq<Op>, op: Op)
    requires Spaced(ops)
    requires forall i, j :: 0 <= i < j < |ops| && IsAutoRepair(ops[i]) && IsAutoRepair(ops[j]) ==>
               op.createdAt - ops[i].createdAt >= AUTO_REPAIR_WINDOW_MS
    ensures Spaced(ops + [op])
  {
    hide IsAutoRepair;
  }

  lemma AppendedIsDue(ops: seq<Op>, op: Op, probes: seq<bool>)
    requires forall r :: 0 <= r < |ops| ==> WasDue(ops, probes, r)
    requires op.seen.operations <= |ops| && op.seen.probes == |probes| && Trailing(probes) >= SUSTAINED_FAILURES
    requires forall p :: 0 <= p < op.seen.operations && ByPerson(ops[p]) ==>
               op.createdAt - ops[p].createdAt >= OWNER_QUIET_WINDOW_MS
    ensures forall r :: 0 <= r < |ops + [op]| ==> WasDue(ops + [op], probes, r)
  {
    hide Trailing, IsAutoRepair, ByPerson;
    assert probes[..|probes|] == probes;
    forall r | 0 <= r < |ops + [op]| ensures WasDue(ops + [op], probes, r) {
      if r < |ops| {
        assert WasDue(ops, probes, r);
      }
    }
  }

  /** An approved repair has a sustained failure behind it. */
  lemma ApprovedIsSustained(w: World)
    requires Gated(w) && w.sweep.Approved?
    ensures w.sweep.seen <= |w.ops| && Trailing(w.probes) >= SUSTAINED_FAILURES
  {
    hide WasDue, Spaced, Ordered, AutoRepairsSince, WithinWindow, LastByPerson, Trailing, IsOperationAllowed;
  }

  lemma RepairKeepsGated(w: World)
    requires Gated(w)
    ensures Gated(Apply(w, StartRepair))
  {
    hide WasDue, Spaced, Ordered, SweepSound, Trailing, IsOperationAllowed, Busy;
    if w.sweep.Approved? {
      var op := Op(RepairBox, AutoRepairSweep, w.now, true, Seen(|w.probes|, w.sweep.seen));
      ApprovedIsSustained(w);
      forall i, j | 0 <= i < j < |w.ops| && IsAutoRepair(w.ops[i]) && IsAutoRepair(w.ops[j])
        ensures op.createdAt - w.ops[i].createdAt >= AUTO_REPAIR_WINDOW_MS
      {
        ApprovedIsSpaced(w, i, j);
      }
      forall p | 0 <= p < w.sweep.seen && ByPerson(w.ops[p])
        ensures op.createdAt - w.ops[p].createdAt >= OWNER_QUIET_WINDOW_MS
      {
        ApprovedIsQuiet(w, p);
      }
      AppendedIsOrdered(w.ops, op, w.now);
      AppendedIsSpaced(w.ops, op);
      AppendedIsDue(w.ops, op, w.probes);
      IdleIsSound(Apply(w, StartRepair));
    }
  }

  lemma IdleIsSound(w: World)
    requires w.sweep.Idle?
    ensures SweepSound(w)
  {}

  lemma ProbeKeepsGated(w: World, reachable: bool)
    requires Gated(w)
    ensures Gated(Apply(w, Probe(reachable)))
  {
    var w' := Apply(w, Probe(reachable));
    if w.sweep == Idle {
      assert w'.probes[..|w.probes|] == w.probes;
      forall r | 0 <= r < |w.ops| ensures WasDue(w'.ops, w'.probes, r) {
        assert WasDue(w.ops, w.probes, r);
        if IsAutoRepair(w.ops[r]) {
          assert w'.probes[..w.ops[r].seen.probes] == w.probes[..w.ops[r].seen.probes];
        }
      }
    }
  }

  lemma OthersKeepGated(w: World, kind: OperationType, trigger: Trigger)
    requires Gated(w)
    ensures Gated(Apply(w, StartOther(kind, trigger)))
  {
    hide AutoRepairFacts, AutoRepairDecision, IsOperationAllowed;
    var w' := Apply(w, StartOther(kind, trigger));
    if w' != w {
      AppendKeepsGated(w, w', Op(kind, trigger, w.now, true, Seen(|w.probes|, |w.ops|)));
    }
  }

  lemma ReadKeepsGated(w: World)
    requires Gated(w)
    ensures Gated(Apply(w, ReadFacts))
  {
    assert w.ops[..|w.ops|] == w.ops;
  }

  /** The steps that write no row. */
  lemma IdleStepsKeepGated(w: World, a: Action)
    requires Gated(w) && (a.Wait? || a.Decide? || a.Crash?)
    ensures Gated(Apply(w, a))
  {
    hide WasDue, Spaced, Trailing, AutoRepairDecision, AutoRepairsSince, LastByPerson, IsAutoRepair;
  }

  lemma StepKeepsGated(w: World, a: Action)
    requires Gated(w)
    ensures Gated(Apply(w, a))
  {
    hide Gated, Apply;
    match a
    case Settle(op, status) => SettleKeepsGated(w, op, status);
    case StartRepair => RepairKeepsGated(w);
    case Probe(reachable) => ProbeKeepsGated(w, reachable);
    case StartOther(kind, trigger) => OthersKeepGated(w, kind, trigger);
    case ReadFacts => ReadKeepsGated(w);
    case Wait(ms) => IdleStepsKeepGated(w, a);
    case Decide => IdleStepsKeepGated(w, a);
    case Crash => IdleStepsKeepGated(w, a);
  }

  lemma {:induction false} RunsStayGated(now: int, status: BoxStatus, actions: seq<Action>)
    ensures Gated(Exec(NewBox(now, status), actions))
  {
    if actions != [] {
      RunsStayGated(now, status, actions[..|actions| - 1]);
      StepKeepsGated(Exec(NewBox(now, status), actions[..|actions| - 1]), actions[|actions| - 1]);
    }
  }

  // ---- The promises ----

  /** The automatic repairs in the half-open window from `t`. */
  function RepairsWithin(ops: seq<Op>, t: int): set<nat> {
    set i: nat | i < |ops| && IsAutoRepair(ops[i]) && t <= ops[i].createdAt < t + AUTO_REPAIR_WINDOW_MS
  }

  lemma ThreeOf(s: set<nat>) returns (a: nat, b: nat, c: nat)
    requires |s| >= 3
    ensures a in s && b in s && c in s && a < b < c
  {
    var x :| x in s;
    var s1 := s - {x};
    assert |s1| == |s| - 1;
    var y :| y in s1;
    var s2 := s1 - {y};
    assert |s2| == |s1| - 1;
    var z :| z in s2;
    if x < y {
      a, b, c := if z < x then z else x, if z < x then x else if z < y then z else y, if z < y then y else z;
    } else {
      a, b, c := if z < y then z else y, if z < y then y else if z < x then z else x, if z < x then x else z;
    }
  }

  /** In every trace, any 24 hours hold at most two automatic repairs. */
  lemma AtMostTwoInAnyWindow(now: int, status: BoxStatus, actions: seq<Action>, t: int)
    ensures |RepairsWithin(Exec(NewBox(now, status), actions).ops, t)| <= MAX_AUTO_REPAIRS_PER_WINDOW
  {
    var w := Exec(NewBox(now, status), actions);
    RunsStayGated(now, status, actions);
    if |RepairsWithin(w.ops, t)| > MAX_AUTO_REPAIRS_PER_WINDOW {
      var a, b, c := ThreeOf(RepairsWithin(w.ops, t));
      assert false;
    }
  }

  /** In every trace, the stored count is the run of failed probes at the end. */
  lemma FailuresAreTrailing(now: int, status: BoxStatus, actions: seq<Action>)
    ensures var w := Exec(NewBox(now, status), actions); w.failures == Trailing(w.probes)
  {
    RunsStayGated(now, status, actions);
  }

  /** In every trace, a repair starts only after at least three failed probes in a row,
    * with none since that succeeded. */
  lemma RepairsFollowSustainedFailure(now: int, status: BoxStatus, actions: seq<Action>, r: nat)
    requires var w := Exec(NewBox(now, status), actions); r < |w.ops| && IsAutoRepair(w.ops[r])
    ensures var w := Exec(NewBox(now, status), actions);
            && w.ops[r].seen.probes <= |w.probes|
            && Trailing(w.probes[..w.ops[r].seen.probes]) >= SUSTAINED_FAILURES
  {
    RunsStayGated(now, status, actions);
    assert WasDue(Exec(NewBox(now, status), actions).ops, Exec(NewBox(now, status), actions).probes, r);
  }

  /** A person's operation in the quiet window before a repair. */
  predicate Disturbed(ops: seq<Op>, r: nat, p: nat) {
    p < r < |ops| && ByPerson(ops[p]) && ops[r].createdAt - ops[p].createdAt < OWNER_QUIET_WINDOW_MS
  }

  /** In every trace, a repair falls into a person's quiet window if and only if that
    * person's operation was started after the sweep had read its facts. */
  lemma QuietWindowExactly(now: int, status: BoxStatus, actions: seq<Action>, r: nat)
    requires var w := Exec(NewBox(now, status), actions); r < |w.ops| && IsAutoRepair(w.ops[r])
    ensures var ops := Exec(NewBox(now, status), actions).ops;
            (exists p :: 0 <= p < r && Disturbed(ops, r, p))
            <==> (exists p :: ops[r].seen.operations <= p < r && Disturbed(ops, r, p))
  {
    var w := Exec(NewBox(now, status), actions);
    RunsStayGated(now, status, actions);
    assert WasDue(w.ops, w.probes, r);
    forall p | 0 <= p < r && Disturbed(w.ops, r, p) ensures w.ops[r].seen.operations <= p {}
  }

  /** No person starts an operation between a sweep's reading and its start. */
  ghost predicate Undisturbed(now: int, status: BoxStatus, actions: seq<Action>) {
    forall k :: 0 <= k < |actions| && actions[k].StartOther? && !IsSystemTrigger(actions[k].trigger) ==>
      Exec(NewBox(now, status), actions[..k]).sweep in {Idle, Unreachable}
  }

  ghost predicate NobodySince(w: World) {
    && (forall r, p :: 0 <= r < |w.ops| && IsAutoRepair(w.ops[r]) && w.ops[r].seen.operations <= p < r ==> !ByPerson(w.ops[p]))
    && (w.sweep.FactsRead? || w.sweep.Approved? ==>
          forall p :: w.sweep.seen <= p < |w.ops| ==> !ByPerson(w.ops[p]))
  }

  lemma UndisturbedStep(w: World, a: Action)
    requires NobodySince(w)
    requires a.StartOther? && !IsSystemTrigger(a.trigger) ==> w.sweep in {Idle, Unreachable}
    ensures NobodySince(Apply(w, a))
  {
    hide AutoRepairFacts, AutoRepairDecision, IsOperationAllowed;
  }

  lemma {:induction false} UndisturbedRuns(now: int, status: BoxStatus, actions: seq<Action>)
    requires Undisturbed(now, status, actions)
    ensures NobodySince(Exec(NewBox(now, status), actions))
  {
    if actions != [] {
      var k := |actions| - 1;
      forall j | 0 <= j < k ensures actions[..k][..j] == actions[..j] {}
      UndisturbedRuns(now, status, actions[..k]);
      hide Apply, NobodySince;
      UndisturbedStep(Exec(NewBox(now, status), actions[..k]), actions[k]);
    } else {
      assert NobodySince(NewBox(now, status));
    }
  }

  /** Then no repair starts within two hours of a person's operation. */
  lemma QuietWindowKept(now: int, status: BoxStatus, actions: seq<Action>, r: nat, p: nat)
    requires Undisturbed(now, status, actions)
    requires var w := Exec(NewBox(now, status), actions); p < r < |w.ops| && IsAutoRepair(w.ops[r]) && ByPerson(w.ops[p])
    ensures var w := Exec(NewBox(now, status), actions);
            w.ops[r].createdAt - w.ops[p].createdAt >= OWNER_QUIET_WINDOW_MS
  {
    var w := Exec(NewBox(now, status), actions);
    RunsStayGated(now, status, actions);
    UndisturbedRuns(now, status, actions);
    assert WasDue(w.ops, w.probes, r);
  }

  // ---- Where the hypothesis is needed ----

  lemma {:induction false} FirstThen(w: World, a: Action, rest: seq<Action>)
    ensures Exec(w, [a] + rest) == Exec(Apply(w, a), rest)
  {
    var all := [a] + rest;
    if rest == [] {
      assert all[..0] == [];
    } else {
      FirstThen(w, a, rest[..|rest| - 1]);
      assert all[..|all| - 1] == [a] + rest[..|rest| - 1];
    }
  }

  lemma {:induction false} RunOnward(w: World, first: seq<Action>, more: seq<Action>)
    ensures Exec(w, first + more) == Exec(Exec(w, first), more)
  {
    if more == [] {
      assert first + more == first;
    } else {
      RunOnward(w, first, more[..|more| - 1]);
      assert (first + more)[..|first + more| - 1] == first + more[..|more| - 1];
    }
  }

  /** A sweep that finds the box down and dies before reading anything. */
  const ONE_DOWN: seq<Action> := [Probe(false), Crash]
  const REPAIR_DUE: seq<Action> := [Probe(false), ReadFacts, Decide]
  const OWNER_BETWEEN: seq<Action> := [StartOther(ChangeConfig, Owner), Settle(0, Running), StartRepair]

  lemma OneFailureMore(w: World)
    requires w.sweep == Idle
    ensures Exec(w, ONE_DOWN) == w.(failures := w.failures + 1, probes := w.probes + [false])
  {
    assert ONE_DOWN == [Probe(false)] + [Crash];
    FirstThen(w, Probe(false), [Crash]);
    FirstThen(Apply(w, Probe(false)), Crash, []);
    assert [Crash] + [] == [Crash];
  }

  function Down(): World {
    World(0, Running, 3, [false, false, false], [], Approved(Facts(3, None, [], Running), 0, 0, 0))
  }

  lemma ThirdFailureIsDue(w: World)
    requires w == World(0, Running, 2, [false, false], [], Idle)
    ensures Exec(w, REPAIR_DUE) == Down()
  {
    var w1 := Apply(w, Probe(false));
    var w2 := Apply(w1, ReadFacts);
    assert w1.probes == [false, false, false];
    assert w2.sweep == FactsRead(Facts(3, None, [], Running), 0, 0);
    FirstThen(w, Probe(false), [ReadFacts, Decide]);
    FirstThen(w1, ReadFacts, [Decide]);
    FirstThen(w2, Decide, []);
    assert REPAIR_DUE == [Probe(false)] + [ReadFacts, Decide];
    assert [ReadFacts, Decide] == [ReadFacts] + [Decide] && [Decide] == [Decide] + [];
  }

  lemma DownIsReached()
    ensures Exec(NewBox(0, Running), ONE_DOWN + ONE_DOWN + REPAIR_DUE) == Down()
  {
    OneFailureMore(NewBox(0, Running));
    OneFailureMore(NewBox(0, Running).(failures := 1, probes := [false]));
    RunOnward(NewBox(0, Running), ONE_DOWN, ONE_DOWN);
    RunOnward(NewBox(0, Running), ONE_DOWN + ONE_DOWN, REPAIR_DUE);
    assert [false] + [false] == [false, false] && [] + [false] == [false];
    ThirdFailureIsDue(World(0, Running, 2, [false, false], [], Idle));
  }

  lemma OwnerFirst()
    ensures var w := Apply(Apply(Down(), OWNER_BETWEEN[0]), OWNER_BETWEEN[1]);
            && w == Down().(ops := [Op(ChangeConfig, Owner, 0, false, Seen(3, 0))])
            && !Busy(w)
  {
    assert Apply(Down(), OWNER_BETWEEN[0]).ops == [Op(ChangeConfig, Owner, 0, true, Seen(3, 0))];
  }

  lemma OwnerThenRepair()
    ensures var ops := Exec(Down(), OWNER_BETWEEN).ops;
            |ops| == 2 && IsAutoRepair(ops[1]) && Disturbed(ops, 1, 0)
  {
    OwnerFirst();
    FirstThen(Down(), OWNER_BETWEEN[0], OWNER_BETWEEN[1..]);
    FirstThen(Apply(Down(), OWNER_BETWEEN[0]), OWNER_BETWEEN[1], OWNER_BETWEEN[2..]);
    FirstThen(Apply(Apply(Down(), OWNER_BETWEEN[0]), OWNER_BETWEEN[1]), OWNER_BETWEEN[2], []);
    assert OWNER_BETWEEN == [OWNER_BETWEEN[0]] + OWNER_BETWEEN[1..];
    assert OWNER_BETWEEN[1..] == [OWNER_BETWEEN[1]] + OWNER_BETWEEN[2..] && OWNER_BETWEEN[2..] == [OWNER_BETWEEN[2]] + [];
    RepairThen(Down().(ops := [Op(ChangeConfig, Owner, 0, false, Seen(3, 0))]));
  }

  lemma RepairThen(w: World)
    requires w == Down().(ops := [Op(ChangeConfig, Owner, 0, false, Seen(3, 0))]) && !Busy(w)
    ensures var ops := Apply(w, StartRepair).ops;
            |ops| == 2 && IsAutoRepair(ops[1]) && Disturbed(ops, 1, 0)
  {}

  /** The owner changes configuration after the sweep read its facts, and the change
    * settles: the repair starts on top of it, at the same instant. */
  lemma RepairOnTopOfTheOwner()
    ensures var ops := Exec(NewBox(0, Running), ONE_DOWN + ONE_DOWN + REPAIR_DUE + OWNER_BETWEEN).ops;
            |ops| == 2 && IsAutoRepair(ops[1]) && Disturbed(ops, 1, 0)
  {
    DownIsReached();
    OwnerThenRepair();
    RunOnward(NewBox(0, Running), ONE_DOWN + ONE_DOWN + REPAIR_DUE, OWNER_BETWEEN);
  }

  // ---- The health row, as the program patches it ----

  datatype Health = Health(consecutiveFailures: nat, lastOkAt: Option<int>)

  class HealthTable {
    /** One row a box, absent before its first probe. */
    var rows: map<nat, Health>

    constructor ()
      ensures rows == map[]
    {
      rows := map[];
    }

    function Failures(box: nat): nat
      reads this
    {
      if box in rows then rows[box].consecutiveFailures else 0
    }

    method RecordProbe(box: nat, reachable: bool, now: int) returns (failures: nat)
      modifies this
      ensures failures == Failures(box) == AutoRepair.RecordProbe(old(Failures(box)), reachable)
      ensures box in rows && (reachable ==> rows[box].lastOkAt == Some(now))
      ensures !reachable && box in old(rows) ==> rows[box].lastOkAt == old(rows[box].lastOkAt)
      ensures rows - {box} == old(rows) - {box}
    {
      failures := if reachable then 0 else Failures(box) + 1;
      if box in rows {
        rows := rows[box := Health(failures, if reachable then Some(now) else rows[box].lastOkAt)];
      } else {
        rows := rows[box := Health(failures, if reachable then Some(now) else None)];
      }
    }
  }
}
