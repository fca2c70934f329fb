/** The capacity alert: a reason and a start time stored on the settings row,
  * moved by every reconcile. */
module CapacityAlert {
  import opened Tables
  import opened Store
  import opened Capacity

  datatype AlertState = AlertState(reason: Option<LimitReason>, startedAt: Option<int>)
  datatype SettingsRow = SettingsRow(settings: Settings, alert: AlertState)

  datatype AlertEvent =
    | BlockedAlert(reason: LimitReason, startedAt: int)
    | RecoveredAlert(reason: LimitReason, startedAt: int)
    | ClearedSilently

  /** The settings row, absent until somebody writes a setting, and the history of
    * alert transitions. */
  datatype Machine = Machine(row: Option<SettingsRow>, log: seq<AlertEvent>)

  datatype Transition = NoTransition | Clear | Blocked(reason: LimitReason) | Recovered(reason: LimitReason)

  const UNCONFIGURED := Settings(true, None, None, None, 3)
  const NO_ALERT := AlertState(None, None)

  function SettingsOf(m: Machine): Settings {
    if m.row.Some? then m.row.value.settings else UNCONFIGURED
  }

  function StoredReason(m: Machine): Option<LimitReason> {
    if m.row.Some? then m.row.value.alert.reason else None
  }

  function Usage(m: Machine, demand: Demand): CapacityUsage {
    CapacityAvailability(demand, SettingsOf(m), LargestSnapshotSlots())
  }

  function AlertTransition(previous: Option<LimitReason>, usage: CapacityUsage): Transition {
    if usage.limitBlockReason == previous then NoTransition
    else if usage.limitBlockReason.Some? then Blocked(usage.limitBlockReason.value)
    else if previous.None? then NoTransition
    else if usage.blockReason == Some(LimitsNotConfigured) then Clear
    else Recovered(previous.value)
  }

  /** What one reconcile makes of the machine. */
  function Reconciled(m: Machine, demand: Demand, now: int): Machine {
    var transition := AlertTransition(StoredReason(m), Usage(m, demand));
    if transition.NoTransition? || m.row.None? then m else
      var row := m.row.value;
      match transition
      case Blocked(reason) =>
        Machine(Some(row.(alert := AlertState(Some(reason), Some(now)))), m.log + [BlockedAlert(reason, now)])
      case Clear => Machine(Some(row.(alert := NO_ALERT)), m.log + [ClearedSilently])
      case Recovered(reason) =>
        var startedAt := if row.alert.startedAt.Some? then row.alert.startedAt.value else now;
        Machine(Some(row.(alert := NO_ALERT)), m.log + [RecoveredAlert(reason, startedAt)])
  }

  datatype Action = Reconcile(demand: Demand, now: int) | WriteSettings(settings: Settings)

  function Apply(m: Machine, a: Action): Machine {
    match a
    case Reconcile(demand, now) => Reconciled(m, demand, now)
    case WriteSettings(settings) =>
      m.(row := Some(if m.row.Some? then m.row.value.(settings := settings) else SettingsRow(settings, NO_ALERT)))
  }

  function Exec(m: Machine, actions: seq<Action>): Machine {
    if actions == [] then m else Apply(Exec(m, actions[..|actions| - 1]), actions[|actions| - 1])
  }

  const START := Machine(None, [])

  /** A recovery closes the block that opened just before it, and only that one. */
  predicate Paired(log: seq<AlertEvent>) {
    forall k :: 0 <= k < |log| && log[k].RecoveredAlert? ==>
      k > 0 && log[k - 1] == BlockedAlert(log[k].reason, log[k].startedAt)
  }

  predicate Consistent(m: Machine) {
    && Paired(m.log)
    && (m.row.None? ==> m.log == [])
    && (m.row.Some? ==>
          var alert := m.row.value.alert;
          && (alert.reason.Some? <==> alert.startedAt.Some?)
          && (alert.reason.Some? ==>
                m.log != [] && m.log[|m.log| - 1] == BlockedAlert(alert.reason.value, alert.startedAt.value)))
  }

  /** What a reconcile makes of a stored row, case by case. Nothing new: nothing. Blocked
    * by a limit it was not blocked by before: that, from now on, and an alert. No longer
    * blocked: the alert of when and by what it was, unless somebody took a limit away,
    * which is no recovery to report - while checkout is on. Settings stay. */
  lemma ReconcilesExactly(m: Machine, demand: Demand, now: int)
    requires m.row.Some? && Consistent(m)
    ensures var row, m' := m.row.value, Reconciled(m, demand, now);
            var before, limit := row.alert, Usage(m, demand).limitBlockReason;
            var silent := row.settings.checkoutEnabled && !IsConfigured(row.settings);
            && m'.row.Some? && m'.row.value.settings == row.settings
            && (limit == before.reason ==> m' == m)
            && (limit.Some? && limit != before.reason ==>
                  m'.row.value.alert == AlertState(limit, Some(now)) && m'.log == m.log + [BlockedAlert(limit.value, now)])
            && (limit.None? && before.reason.Some? ==>
                  && m'.row.value.alert == AlertState(None, None)
                  && m'.log == m.log + [if silent then ClearedSilently
                                        else RecoveredAlert(before.reason.value, before.startedAt.value)])
  {}

  /** Without a settings row no limit is set, so nothing blocks and nothing is stored; a
    * settings write makes or patches the row and leaves the alert as it was. */
  lemma RowsExactly(m: Machine, demand: Demand, now: int, settings: Settings)
    ensures m.row.None? ==> Reconciled(m, demand, now) == m
    ensures var m' := Apply(m, WriteSettings(settings));
            m'.log == m.log && m'.row == Some(SettingsRow(settings, if m.row.Some? then m.row.value.alert else AlertState(None, None)))
  {}

  lemma ReconcileKeepsConsistent(m: Machine, demand: Demand, now: int)
    requires Consistent(m)
    ensures Consistent(Reconciled(m, demand, now))
  {
    hide Reconciled, Usage;
    if m.row.Some? {
      ReconcilesExactly(m, demand, now);
    } else {
      RowsExactly(m, demand, now, UNCONFIGURED);
    }
  }

  lemma {:induction false} RunsStayConsistent(actions: seq<Action>)
    ensures Consistent(Exec(START, actions))
  {
    hide Consistent, Reconciled;
    if actions == [] {
      StartIsConsistent();
    } else {
      var m, a := Exec(START, actions[..|actions| - 1]), actions[|actions| - 1];
      RunsStayConsistent(actions[..|actions| - 1]);
      match a
      case Reconcile(demand, now) => ReconcileKeepsConsistent(m, demand, now);
      case WriteSettings(settings) => WriteKeepsConsistent(m, settings);
    }
  }

  lemma StartIsConsistent()
    ensures Consistent(START)
  {}

  lemma WriteKeepsConsistent(m: Machine, settings: Settings)
    requires Consistent(m)
    ensures Consistent(Apply(m, WriteSettings(settings)))
  {
    hide Reconciled;
    RowsExactly(m, Demand(0, 0, 0, 0), 0, settings);
  }

  /** In every run, a recovered alert carries the reason and start time of the
    * latest blocked alert, with no other transition between the two. */
  lemma RecoveriesAnswerTheirBlock(actions: seq<Action>, k: nat)
    requires k < |Exec(START, actions).log| && Exec(START, actions).log[k].RecoveredAlert?
    ensures var log := Exec(START, actions).log;
            k > 0 && log[k - 1] == BlockedAlert(log[k].reason, log[k].startedAt)
  {
    RunsStayConsistent(actions);
  }

  /** After a reconcile the stored reason is the current block, and asking again
    * about the same demand changes nothing, raises nothing. */
  lemma ReconcileSettles(m: Machine, demand: Demand, now: int, later: int)
    ensures var after := Reconciled(m, demand, now);
            && StoredReason(after) == Usage(after, demand).limitBlockReason
            && Reconciled(after, demand, later) == after
    ensures SettingsOf(Reconciled(m, demand, now)) == SettingsOf(m)
  {}

  /** The two branches kept only for the type checker cannot be reached: a
    * recovery without a previous reason, and a transition without a stored row. */
  lemma DeadBranches(m: Machine, demand: Demand)
    ensures var usage := Usage(m, demand);
            usage.limitBlockReason != StoredReason(m) && usage.limitBlockReason.None? ==> StoredReason(m).Some?
    ensures !AlertTransition(StoredReason(m), Usage(m, demand)).NoTransition? ==> m.row.Some?
  {}

  /** The settings row as the program patches it. */
  class SettingsTable {
    var row: Option<SettingsRow>
    var log: seq<AlertEvent>

    constructor ()
      ensures State() == START
    {
      row := None;
      log := [];
    }

    function State(): Machine
      reads this
    {
      Machine(row, log)
    }

    method ReconcileCapacityAlert(demand: Demand, now: int) returns (transition: Transition)
      modifies this
      ensures transition == AlertTransition(old(StoredReason(State())), old(Usage(State(), demand)))
      ensures State() == Reconciled(old(State()), demand, now)
    {
      DeadBranches(State(), demand);
      var previous := StoredReason(State());
      var usage := Usage(State(), demand);
      if usage.limitBlockReason == previous {
        return NoTransition;
      }
      if row.None? {
        assert false;
      }
      var stored := row.value;
      if usage.limitBlockReason.Some? {
        var reason := usage.limitBlockReason.value;
        row := Some(stored.(alert := AlertState(Some(reason), Some(now))));
        log := log + [BlockedAlert(reason, now)];
        return Blocked(reason);
      }
      if previous.None? {
        assert false;
      }
      row := Some(stored.(alert := NO_ALERT));
      if usage.blockReason == Some(LimitsNotConfigured) {
        log := log + [ClearedSilently];
        return Clear;
      }
      var startedAt := if stored.alert.startedAt.Some? then stored.alert.startedAt.value else now;
      log := log + [RecoveredAlert(previous.value, startedAt)];
      return Recovered(previous.value);
    }
  }
}
