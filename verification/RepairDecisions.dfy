/** Exactly when the automatic repair sweep repairs, told from the operations and the
  * probes: neither more often than it may, nor less often than it should. */
module RepairDecisions {
  import opened Tables
  import opened Vocabulary
  import opened AutoRepair
  import opened AutoRepairRuns

  const QUIET_MS: int := 2 * 60 * 60 * 1000
  const DAY_MS: int := 24 * 60 * 60 * 1000

  /** The owner's or a member of staff's operation, less than two hours old. */
  predicate PersonActed(ops: seq<Op>, now: int) {
    exists p :: 0 <= p < |ops| && ops[p].trigger in {Owner, Staff} && now - ops[p].createdAt < QUIET_MS
  }

  /** The automatic repairs less than a day old. */
  function RecentRepairs(ops: seq<Op>, now: int): set<nat> {
    set r: nat | r < |ops| && ops[r].kind == RepairBox && ops[r].trigger == AutoRepairSweep && now - ops[r].createdAt < DAY_MS
  }

  // ---- What the facts amount to ----

  lemma {:induction false} LastByPersonIs(ops: seq<Op>, since: int)
    ensures var last := LastByPerson(ops, since);
            last.Some? ==> exists p :: 0 <= p < |ops| && ByPerson(ops[p]) && ops[p].createdAt == last.value
  {
    if ops != [] && !(since <= ops[|ops| - 1].createdAt && ByPerson(ops[|ops| - 1])) {
      var rest := ops[..|ops| - 1];
      LastByPersonIs(rest, since);
      if LastByPerson(rest, since).Some? {
        var p :| 0 <= p < |rest| && ByPerson(rest[p]) && rest[p].createdAt == LastByPerson(rest, since).value;
        assert ops[p] == rest[p];
      }
    }
  }

  lemma QuietExactly(ops: seq<Op>, readAt: int, now: int)
    requires Ordered(ops, readAt) && readAt <= now
    ensures var last := LastByPerson(ops, readAt - OWNER_QUIET_WINDOW_MS);
            last.Some? && now - last.value < OWNER_QUIET_WINDOW_MS <==> PersonActed(ops, now)
  {
    var since := readAt - OWNER_QUIET_WINDOW_MS;
    LastByPersonIs(ops, since);
    if p :| 0 <= p < |ops| && ops[p].trigger in {Owner, Staff} && now - ops[p].createdAt < QUIET_MS {
      PersonSeen(ops, since, p);
    }
  }

  lemma {:induction false} RepairsCounted(ops: seq<Op>, since: int, now: int)
    requires since <= now - AUTO_REPAIR_WINDOW_MS
    ensures WithinWindow(AutoRepairsSince(ops, since), now) == |RecentRepairs(ops, now)|
  {
    if ops != [] {
      var last := |ops| - 1;
      hide WithinWindow, AutoRepairsSince;
      RepairsCounted(ops[..last], since, now);
      LastCounts(ops, since, now);
      var before, after := RecentRepairs(ops[..last], now), RecentRepairs(ops, now);
      assert after == if IsAutoRepair(ops[last]) && now - ops[last].createdAt < DAY_MS then before + {last} else before;
    }
  }

  /** The decision on the facts read at `readAt`, each answer by its own cause. */
  predicate DecidesExactly(d: Decision, failing: nat, status: BoxStatus, ops: seq<Op>, now: int) {
    var due := failing >= 3;
    var repairable := IsOperationAllowed(status, RepairBox);
    var acted, used := PersonActed(ops, now), |RecentRepairs(ops, now)| >= 2;
    && (d == Healthy <==> failing == 0)
    && (d == NotSustained <==> 0 < failing < 3)
    && (d == StatusNotRepairable <==> due && !repairable)
    && (d == OwnerRecentlyActed <==> due && repairable && acted)
    && (d == AttemptLimitReached <==> due && repairable && !acted && used)
    && (d == Repair <==> due && repairable && !acted && !used)
  }

  lemma FactsDecide(failing: nat, ops: seq<Op>, status: BoxStatus, readAt: int, now: int)
    requires Ordered(ops, readAt) && readAt <= now
    ensures DecidesExactly(AutoRepairDecision(AutoRepairFacts(failing, ops, status, readAt), now), failing, status, ops, now)
  {
    hide LastByPerson, AutoRepairsSince, WithinWindow, PersonActed, RecentRepairs, Ordered, IsOperationAllowed;
    QuietExactly(ops, readAt, now);
    RepairsCounted(ops, readAt - AUTO_REPAIR_WINDOW_MS, now);
  }

  // ---- Over runs ----

  /** The sweep gets from reading to deciding; others may do anything meanwhile. */
  predicate NeitherDecidesNorDies(actions: seq<Action>) {
    forall k :: 0 <= k < |actions| ==> !actions[k].Decide? && !actions[k].Crash?
  }

  lemma {:induction false} FactsWait(w: World, between: seq<Action>)
    requires w.sweep.FactsRead? && NeitherDecidesNorDies(between)
    ensures Exec(w, between).sweep == w.sweep && Exec(w, between).now >= w.now
  {
    if between != [] {
      FactsWait(w, between[..|between| - 1]);
    }
  }

  /** In every run: a sweep that has read its facts and decides, whatever others did in
    * between, approves a repair if and only if at least three probes in a row had
    * failed, the status it read allows a repair, no person's operation it read is less
    * than two hours old and fewer than two automatic repairs less than a day old; and
    * each refusal has its own cause. */
  lemma SweepDecidesExactly(now: int, status: BoxStatus, first: seq<Action>, between: seq<Action>)
    requires Exec(NewBox(now, status), first).sweep.Unreachable? && NeitherDecidesNorDies(between)
    ensures var w0 := Exec(NewBox(now, status), first);
            var w := Exec(Apply(w0, ReadFacts), between);
            && w.sweep.FactsRead?
            && DecidesExactly(AutoRepairDecision(w.sweep.facts, w.now), Trailing(w0.probes), w0.status, w0.ops, w.now)
            && (Apply(w, Decide).sweep.Approved? <==>
                  && Trailing(w0.probes) >= 3 && IsOperationAllowed(w0.status, RepairBox)
                  && !PersonActed(w0.ops, w.now) && |RecentRepairs(w0.ops, w.now)| < 2)
            && (!Apply(w, Decide).sweep.Approved? ==> Apply(w, Decide).sweep.Idle?)
  {
    hide AutoRepairFacts, AutoRepairDecision, Trailing, PersonActed, RecentRepairs, Spaced, AllDue, IsOperationAllowed;
    var w0 := Exec(NewBox(now, status), first);
    RunsStayGated(now, status, first);
    FactsWait(Apply(w0, ReadFacts), between);
    var w := Exec(Apply(w0, ReadFacts), between);
    FactsDecide(w0.failures, w0.ops, w0.status, w0.now, w.now);
  }

  /** An approved repair starts if and only if the box is then idle and in a status a
    * repair may begin from: one operation, the sweep's own, at that time. */
  lemma ApprovedStartsExactly(w: World)
    requires w.sweep.Approved?
    ensures var w' := Apply(w, StartRepair);
            && w'.sweep.Idle?
            && (!Busy(w) && IsOperationAllowed(w.status, RepairBox) <==> |w'.ops| == |w.ops| + 1)
            && (|w'.ops| == |w.ops| + 1 ==>
                  && w'.ops[..|w.ops|] == w.ops && w'.status == Repairing
                  && IsAutoRepair(w'.ops[|w.ops|]) && w'.ops[|w.ops|].createdAt == w.now && w'.ops[|w.ops|].open)
            && (|w'.ops| != |w.ops| + 1 ==> w'.ops == w.ops && w'.status == w.status)
  {}

  // ---- Two in a day, and no third ----

  const REPAIR_FAILS: seq<Action> := [StartRepair, Settle(0, RepairFailed)]
  const DOWN_AGAIN: seq<Action> := [Probe(false), ReadFacts, Decide]
  const AGAIN_FAILS: seq<Action> := [StartRepair, Settle(1, RepairFailed)]

  function Auto(probes: nat, operations: nat): Op {
    Op(RepairBox, AutoRepairSweep, 0, false, Seen(probes, operations))
  }

  function FailedOnce(): World {
    World(0, RepairFailed, 3, [false, false, false], [Auto(3, 0)], Idle)
  }

  function DueAgain(): World {
    FailedOnce().(failures := 4, probes := [false, false, false, false], sweep := Approved(Facts(4, None, [0], RepairFailed), 0, 0, 1))
  }

  function FailedTwice(): World {
    DueAgain().(ops := [Auto(3, 0), Auto(4, 1)], sweep := Idle)
  }

  lemma TwoSteps(w: World, a: Action, b: Action)
    ensures Exec(w, [a, b]) == Apply(Apply(w, a), b)
  {
    FirstThen(w, a, [b]);
    FirstThen(Apply(w, a), b, []);
    assert [a, b] == [a] + [b] && [b] == [b] + [];
  }

  lemma ThreeSteps(w: World, a: Action, b: Action, c: Action)
    ensures Exec(w, [a, b, c]) == Apply(Apply(Apply(w, a), b), c)
  {
    FirstThen(w, a, [b, c]);
    TwoSteps(Apply(w, a), b, c);
    assert [a, b, c] == [a] + [b, c];
  }

  lemma FirstRepair()
    ensures Exec(Down(), REPAIR_FAILS) == FailedOnce()
  {
    TwoSteps(Down(), StartRepair, Settle(0, RepairFailed));
    assert Apply(Down(), StartRepair).ops == [Auto(3, 0).(open := true)];
  }

  lemma OneRepairRead(failures: nat)
    ensures AutoRepairFacts(failures, [Auto(3, 0)], RepairFailed, 0) == Facts(failures, None, [0], RepairFailed)
    ensures WithinWindow([0], 0) == 1
  {
    var ops, since := [Auto(3, 0)], 0 - AUTO_REPAIR_WINDOW_MS;
    assert ops[..0] == [] && [0][..0] == [];
    assert LastByPerson(ops[..0], 0 - OWNER_QUIET_WINDOW_MS) == None;
    assert AutoRepairsSince(ops[..0], since) == [] && AutoRepairsSince(ops, since) == [] + [0];
  }

  lemma SecondIsDue()
    ensures Exec(FailedOnce(), DOWN_AGAIN) == DueAgain()
  {
    ThreeSteps(FailedOnce(), Probe(false), ReadFacts, Decide);
    OneRepairRead(4);
    assert [false, false, false] + [false] == [false, false, false, false];
  }

  lemma SecondRepair()
    ensures Exec(DueAgain(), AGAIN_FAILS) == FailedTwice()
  {
    TwoSteps(DueAgain(), StartRepair, Settle(1, RepairFailed));
    assert !DueAgain().ops[0].open;
    assert Apply(DueAgain(), StartRepair).ops == [Auto(3, 0), Auto(4, 1).(open := true)];
  }

  /** The box goes down, is repaired, fails and is repaired again in the same day; when
    * it is down a third time, no repair is approved. */
  lemma TwoRepairsInADay()
    ensures var run := ONE_DOWN + ONE_DOWN + REPAIR_DUE + REPAIR_FAILS + DOWN_AGAIN + AGAIN_FAILS;
            var w := Exec(NewBox(0, Running), run);
            && |RepairsWithin(w.ops, 0)| == 2 && w.failures == 4
            && Exec(w, DOWN_AGAIN).sweep.Idle?
  {
    hide Exec, Apply;
    var w0, toDown := NewBox(0, Running), ONE_DOWN + ONE_DOWN + REPAIR_DUE;
    DownIsReached();
    RunOnward(w0, toDown, REPAIR_FAILS);
    RunOnward(w0, toDown + REPAIR_FAILS, DOWN_AGAIN);
    RunOnward(w0, toDown + REPAIR_FAILS + DOWN_AGAIN, AGAIN_FAILS);
    FirstRepair();
    SecondIsDue();
    SecondRepair();
    assert RepairsWithin(FailedTwice().ops, 0) == {0, 1};
    ThirdIsRefused();
  }

  lemma ThirdIsRefused()
    ensures Exec(FailedTwice(), DOWN_AGAIN).sweep.Idle?
  {
    hide AutoRepairFacts, AutoRepairDecision, Exec, PersonActed;
    ThreeSteps(FailedTwice(), Probe(false), ReadFacts, Decide);
    var w := Apply(FailedTwice(), Probe(false));
    FactsDecide(5, w.ops, RepairFailed, 0, 0);
    assert RecentRepairs(w.ops, 0) == {0, 1};
  }
}
