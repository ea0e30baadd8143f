/** The metrics alarms: each is fed by several debounced conditions, one per source, and is raised while
    any of them is active, at the highest severity among them. */
module MetricsMonitor {
  import opened Options
  import opened AlarmRegistry
  import opened Debounce

  /** The outcome of one check: limits given with it override the configured ones (zero does not). */
  datatype Report = Report(alarm: int, source: string, reading: Reading, raise: Option<int>, clear: Option<int>)

  /** An alarm's message: back to normal, or the joined messages of its active conditions. */
  datatype Note = BackToNormal | Joined(parts: map<string, string>)

  type Reg = Registry<Note, map<string, string>>

  type Conditions = map<string, Condition>

  datatype Monitor = Monitor(conditions: map<int, Conditions>, reg: Reg)

  function LimitsOf(thresholds: Limits, r: Report): Limits {
    Limits(if r.raise.Some? && r.raise.value != 0 then r.raise.value else thresholds.raise,
           if r.clear.Some? && r.clear.value != 0 then r.clear.value else thresholds.clear)
  }

  function ConditionsOf(m: Monitor, alarm: int): Conditions {
    if alarm in m.conditions then m.conditions[alarm] else map[]
  }

  function ConditionOf(m: Monitor, alarm: int, source: string): Condition {
    var conditions := ConditionsOf(m, alarm);
    if source in conditions then conditions[source] else Idle()
  }

  predicate Holds(conditions: Conditions, level: Level) {
    exists source :: source in conditions && conditions[source].level == level
  }

  /** The highest severity among the conditions, CLEARED if none is active. */
  function Highest(conditions: Conditions): Level {
    if Holds(conditions, CRITICAL) then CRITICAL
    else if Holds(conditions, MAJOR) then MAJOR
    else if Holds(conditions, MINOR) then MINOR
    else if Holds(conditions, WARNING) then WARNING
    else CLEARED
  }

  function ActiveMessages(conditions: Conditions): map<string, string> {
    map source | source in conditions && conditions[source].level != CLEARED :: conditions[source].message
  }

  /** The section that brings an alarm in line with its conditions. */
  function SyncSection(alarm: int, conditions: Conditions): Section<Note, map<string, string>> {
    if Highest(conditions) == CLEARED then ClearSection(alarm, Some(BackToNormal), None)
    else SetSection(alarm, Some(Highest(conditions)), None, Some(Joined(ActiveMessages(conditions))),
                    Some(ActiveMessages(conditions)))
  }

  function Update(thresholds: Limits, m: Monitor, r: Report): Monitor {
    var c := ConditionOf(m, r.alarm, r.source);
    var limits := LimitsOf(thresholds, r);
    var conditions := ConditionsOf(m, r.alarm)[r.source := Feed(c, r.reading, limits)];
    Monitor(m.conditions[r.alarm := conditions],
            if Fires(c, r.reading, limits) then Apply(m.reg, SyncSection(r.alarm, conditions)) else m.reg)
  }

  function UpdateAll(thresholds: Limits, m: Monitor, reports: seq<Report>): Monitor {
    if reports == [] then m
    else Update(thresholds, UpdateAll(thresholds, m, reports[..|reports| - 1]), reports[|reports| - 1])
  }

  // ----- Aggregation -----

  lemma HighestIsHighest(conditions: Conditions)
    ensures forall source :: source in conditions ==> Rank(conditions[source].level) <= Rank(Highest(conditions))
    ensures Highest(conditions) != CLEARED ==> Holds(conditions, Highest(conditions))
  {
    forall source | source in conditions ensures Rank(conditions[source].level) <= Rank(Highest(conditions)) {
      assert Holds(conditions, conditions[source].level);
    }
  }

  /** A registered alarm is active iff one of its conditions is, at the maximum of their severities. */
  ghost predicate AlarmAggregates(m: Monitor, alarm: int) {
    alarm in m.reg.states ==>
      var state, highest := m.reg.states[alarm], Highest(ConditionsOf(m, alarm));
      && (state.active <==> highest != CLEARED)
      && (state.active ==> state.severity == highest)
  }

  /** Runs on one side of the held severity only; what every reachable condition is. */
  predicate Sided(c: Condition) {
    c.shifts > 0 ==> c.shiftLevel != c.level
  }

  ghost predicate Aggregated(m: Monitor) {
    && (forall alarm :: AlarmAggregates(m, alarm))
    && (forall alarm, source :: Sided(ConditionOf(m, alarm, source)))
  }

  /** The severity changes exactly when a run completes. */
  lemma FiresIffChanges(c: Condition, r: Reading, limits: Limits)
    requires Sided(c)
    ensures Fires(c, r, limits) <==> Feed(c, r, limits).level != c.level
    ensures Sided(Feed(c, r, limits))
  {
  }

  lemma UnchangedLevelKeepsHighest(conditions: Conditions, source: string, c: Condition)
    requires c.level == if source in conditions then conditions[source].level else CLEARED
    ensures Highest(conditions[source := c]) == Highest(conditions)
  {
    var after := conditions[source := c];
    forall level: Level | level != CLEARED ensures Holds(after, level) <==> Holds(conditions, level) {
      if Holds(after, level) {
        var s :| s in after && after[s].level == level;
        assert s in conditions && conditions[s].level == level;
      }
      if Holds(conditions, level) {
        var s :| s in conditions && conditions[s].level == level;
        assert s in after && after[s].level == level;
      }
    }
  }

  /** One report keeps the aggregation; a severity change emits at most one event, any other report none,
      and the events already emitted stay. */
  lemma UpdateKeepsAggregated(thresholds: Limits, m: Monitor, r: Report)
    requires Aggregated(m)
    ensures Aggregated(Update(thresholds, m, r))
    ensures var after := Update(thresholds, m, r);
            && m.reg.log <= after.reg.log && |after.reg.log| <= |m.reg.log| + 1
            && (ConditionOf(after, r.alarm, r.source).level == ConditionOf(m, r.alarm, r.source).level ==>
                  after.reg == m.reg)
  {
    var c, limits := ConditionOf(m, r.alarm, r.source), LimitsOf(thresholds, r);
    var after := Update(thresholds, m, r);
    assert Sided(c);
    FiresIffChanges(c, r.reading, limits);
    forall alarm ensures AlarmAggregates(after, alarm) {
      assert AlarmAggregates(m, alarm);
      if alarm == r.alarm && !Fires(c, r.reading, limits) {
        UnchangedLevelKeepsHighest(ConditionsOf(m, alarm), r.source, Feed(c, r.reading, limits));
      }
    }
    forall alarm, source ensures Sided(ConditionOf(after, alarm, source)) {
      assert Sided(ConditionOf(m, alarm, source));
    }
  }

  // ----- Runs -----

  /** The readings of one condition. */
  function ReadingsOf(reports: seq<Report>, alarm: int, source: string): seq<Reading> {
    if reports == [] then []
    else
      var earlier, last := ReadingsOf(reports[..|reports| - 1], alarm, source), reports[|reports| - 1];
      if last.alarm == alarm && last.source == source then earlier + [last.reading] else earlier
  }

  /** Every report of an alarm comes with the same limits, as the checks are written: its own where it gives any but
      zero, else the configured ones. */
  ghost predicate LimitsByAlarm(thresholds: Limits, reports: seq<Report>, limits: int -> Limits) {
    forall i :: 0 <= i < |reports| ==> TakesLimits(thresholds, reports[i], limits(reports[i].alarm))
  }

  predicate TakesLimits(thresholds: Limits, r: Report, limits: Limits) {
    && (if r.raise == None || r.raise == Some(0) then limits.raise == thresholds.raise else Some(limits.raise) == r.raise)
    && (if r.clear == None || r.clear == Some(0) then limits.clear == thresholds.clear else Some(limits.clear) == r.clear)
  }

  /** The monitor over a registry in which no alarm is active yet. */
  ghost predicate Quiescent(m: Monitor) {
    m.conditions == map[] && forall alarm :: !IsActive(m.reg, alarm)
  }

  lemma {:induction false} RunsAggregate(thresholds: Limits, m: Monitor, reports: seq<Report>)
    requires Quiescent(m)
    ensures Aggregated(UpdateAll(thresholds, m, reports))
    ensures UpdateAll(thresholds, m, reports).reg.states.Keys == m.reg.states.Keys
  {
    if reports == [] {
      forall alarm ensures AlarmAggregates(m, alarm) {
        assert !IsActive(m.reg, alarm);
      }
    } else {
      RunsAggregate(thresholds, m, reports[..|reports| - 1]);
      UpdateKeepsAggregated(thresholds, UpdateAll(thresholds, m, reports[..|reports| - 1]), reports[|reports| - 1]);
    }
  }

  lemma {:induction false} ConditionsFollowReadings(thresholds: Limits, m: Monitor, reports: seq<Report>,
                                                    limits: int -> Limits, alarm: int, source: string)
    requires Quiescent(m) && LimitsByAlarm(thresholds, reports, limits)
    ensures ConditionOf(UpdateAll(thresholds, m, reports), alarm, source)
            == FeedAll(ReadingsOf(reports, alarm, source), limits(alarm))
  {
    if reports == [] {
    } else {
      var last := reports[|reports| - 1];
      assert TakesLimits(thresholds, last, limits(last.alarm));
      assert LimitsOf(thresholds, last) == limits(last.alarm);
      ConditionsFollowReadings(thresholds, m, reports[..|reports| - 1], limits, alarm, source);
      if last.alarm == alarm && last.source == source {
        var earlier := ReadingsOf(reports[..|reports| - 1], alarm, source);
        assert (earlier + [last.reading])[..|earlier|] == earlier;
      }
    }
  }

  /** The severity a source holds on an alarm, told from the history of its reports alone. */
  function HeldBy(reports: seq<Report>, limits: int -> Limits, alarm: int, source: string): Level {
    History(ReadingsOf(reports, alarm, source), limits(alarm)).level
  }

  /** The main result: after any reports, a registered metrics alarm is active iff the history of some
      source holds a severity, at the highest of them. */
  lemma AlarmFollowsHistory(thresholds: Limits, m: Monitor, reports: seq<Report>, limits: int -> Limits, alarm: int)
    requires Quiescent(m) && LimitsByAlarm(thresholds, reports, limits) && alarm in m.reg.states
    ensures var after := UpdateAll(thresholds, m, reports);
            && alarm in after.reg.states
            && (after.reg.states[alarm].active <==> exists source :: HeldBy(reports, limits, alarm, source) != CLEARED)
            && (after.reg.states[alarm].active ==>
                  && after.reg.states[alarm].severity != INDETERMINATE
                  && (exists source :: HeldBy(reports, limits, alarm, source) == after.reg.states[alarm].severity)
                  && forall source ::
                       Rank(HeldBy(reports, limits, alarm, source)) <= Rank(after.reg.states[alarm].severity))
  {
    var after := UpdateAll(thresholds, m, reports);
    var conditions := ConditionsOf(after, alarm);
    RunsAggregate(thresholds, m, reports);
    assert AlarmAggregates(after, alarm);
    HighestIsHighest(conditions);
    forall source ensures HeldBy(reports, limits, alarm, source) == ConditionOf(after, alarm, source).level {
      ConditionsFollowReadings(thresholds, m, reports, limits, alarm, source);
      DebounceRefinesHistory(ReadingsOf(reports, alarm, source), limits(alarm));
    }
    if Highest(conditions) != CLEARED {
      var source :| source in conditions && conditions[source].level == Highest(conditions);
      assert HeldBy(reports, limits, alarm, source) == Highest(conditions);
    }
  }

  // ----- The monitor -----

  class MetricsMonitor {
    const manager: AlarmManager<Note, map<string, string>>
    const thresholds: Limits
    var conditions: map<int, Conditions>

    function State(): Monitor
      reads this, manager
    {
      Monitor(conditions, manager.Reg())
    }

    constructor (manager: AlarmManager<Note, map<string, string>>, thresholds: Limits)
      ensures this.manager == manager && this.thresholds == thresholds && conditions == map[]
    {
      this.manager := manager;
      this.thresholds := thresholds;
      conditions := map[];
    }

    /** One report's outcome. The conditions change before the manager is called: a failing notifier
        (outcome NotifierFailed) leaves them and the registry in step. */
    method Feed(r: Report) returns (outcome: Outcome)
      requires manager.Valid()
      modifies this, manager
      ensures manager.Valid() && State() == Update(thresholds, old(State()), r)
      ensures old(Aggregated(State())) ==> Aggregated(State())
    {
      if Aggregated(State()) {
        UpdateKeepsAggregated(thresholds, State(), r);
      }
      var known := ConditionsOf(State(), r.alarm);
      var c := ConditionOf(State(), r.alarm, r.source);
      var limits := LimitsOf(thresholds, r);
      if r.reading.level == c.level {
        conditions := conditions[r.alarm := known[r.source := c.(shifts := 0, message := r.reading.message)]];
        return Unchanged;
      }
      var up := Rank(r.reading.level) > Rank(c.level);
      c := WithReading(c, r.reading);
      if c.shifts < (if up then limits.raise else limits.clear) {
        conditions := conditions[r.alarm := known[r.source := c]];
        return Unchanged;
      }
      conditions := conditions[r.alarm := known[r.source := c.(level := c.shiftLevel, message := c.shiftMessage,
                                                              shifts := 0)]];
      outcome := Sync(r.alarm);
    }

    method Sync(alarm: int) returns (outcome: Outcome)
      requires manager.Valid()
      modifies manager
      ensures manager.Valid() && manager.Reg() == Apply(old(manager.Reg()), SyncSection(alarm, ConditionsOf(State(), alarm)))
    {
      var known := ConditionsOf(State(), alarm);
      var active := ActiveMessages(known);
      if Highest(known) == CLEARED {
        outcome := manager.ClearAlarm(alarm, Some(BackToNormal), None);
      } else {
        outcome := manager.SetAlarm(alarm, Some(Highest(known)), None, Some(Joined(active)), Some(active));
      }
    }
  }
}
