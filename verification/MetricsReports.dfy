/** Single reports of the metrics alarms: alarms reported as they are, and what a change of severity tells. */
module MetricsReports {
  import opened Options
  import opened AlarmRegistry
  import opened Debounce
  import opened MetricsMonitor

  // ----- The order of severities -----

  /** From clear to the worst. */
  const LEVELS: seq<Level> := [CLEARED, WARNING, MINOR, MAJOR, CRITICAL]

  lemma LevelsInOrder(a: nat, b: nat)
    requires a < |LEVELS| && b < |LEVELS|
    ensures Rank(LEVELS[a]) <= Rank(LEVELS[b]) <==> a <= b
    ensures forall level: Level :: level in LEVELS
  {
    assert LEVELS[0] == CLEARED && LEVELS[1] == WARNING && LEVELS[2] == MINOR && LEVELS[3] == MAJOR && LEVELS[4] == CRITICAL;
    forall level: Level ensures level in LEVELS {
      match level
      case CLEARED => assert LEVELS[0] == level;
      case WARNING => assert LEVELS[1] == level;
      case MINOR => assert LEVELS[2] == level;
      case MAJOR => assert LEVELS[3] == level;
      case CRITICAL => assert LEVELS[4] == level;
    }
  }

  // ----- States reported as they are -----

  /** With one report to raise and one to clear, the severity held is the last one reported. */
  lemma UndebouncedHoldsLast(readings: seq<Reading>, limits: Limits)
    requires limits.raise == 1 && limits.clear == 1 && readings != []
    ensures History(readings, limits).level == readings[|readings| - 1].level
  {
    UndebouncedIsJudged(readings, History(readings[..|readings| - 1], limits), limits);
  }

  lemma UndebouncedIsJudged(readings: seq<Reading>, h: Held, limits: Limits)
    requires limits.raise == 1 && limits.clear == 1 && readings != [] && h.since < |readings|
    ensures Judged(readings, h, limits).level == readings[|readings| - 1].level
  {
    var last, window := readings[|readings| - 1], readings[|readings| - 1..];
    assert window == [last];
    assert forall up :: Closest(window, up) == last;
    assert forall up :: Shifted(readings, h.since, h.level, limits, up) <==> Beyond(last, h.level, up);
    LevelsDiffer(last.level, h.level);
  }

  lemma LevelsDiffer(a: Level, b: Level)
    ensures a == b || Rank(a) < Rank(b) || Rank(b) < Rank(a)
  {
  }

  /** The report says how many reports shift it: one, either way. */
  predicate AsIs(r: Report) {
    r.raise == Some(1) && r.clear == Some(1)
  }

  /** The severity of a source's last report on an alarm; clear before any. */
  function LastReported(reports: seq<Report>, alarm: int, source: string): Level {
    var readings := ReadingsOf(reports, alarm, source);
    if readings == [] then CLEARED else readings[|readings| - 1].level
  }

  lemma HeldIsLastReported(reports: seq<Report>, limits: int -> Limits, alarm: int, source: string)
    requires limits(alarm).raise == 1 && limits(alarm).clear == 1
    ensures HeldBy(reports, limits, alarm, source) == LastReported(reports, alarm, source)
  {
    if ReadingsOf(reports, alarm, source) != [] {
      UndebouncedHoldsLast(ReadingsOf(reports, alarm, source), limits(alarm));
    }
  }

  lemma LimitsAsIs(thresholds: Limits, reports: seq<Report>, limits: int -> Limits, alarm: int, i: nat)
    requires LimitsByAlarm(thresholds, reports, limits)
    requires i < |reports| && reports[i].alarm == alarm && AsIs(reports[i])
    ensures limits(alarm).raise == 1 && limits(alarm).clear == 1
  {
    assert TakesLimits(thresholds, reports[i], limits(reports[i].alarm));
  }

  /** An alarm whose reports override the configured limits with one, as those of a lost AMF connection do, follows what is
      reported at once, whatever is configured: it is active iff some source's last report is a breach, at the worst of
      them. */
  lemma AsIsFollowsLastReports(thresholds: Limits, m: Monitor, reports: seq<Report>, limits: int -> Limits, alarm: int, i: nat)
    requires Quiescent(m) && LimitsByAlarm(thresholds, reports, limits) && alarm in m.reg.states
    requires i < |reports| && reports[i].alarm == alarm && AsIs(reports[i])
    ensures var after := UpdateAll(thresholds, m, reports);
            && alarm in after.reg.states
            && (after.reg.states[alarm].active <==> exists source :: LastReported(reports, alarm, source) != CLEARED)
            && (after.reg.states[alarm].active ==>
                  && after.reg.states[alarm].severity != INDETERMINATE
                  && (exists source :: LastReported(reports, alarm, source) == after.reg.states[alarm].severity)
                  && forall source ::
                       Rank(LastReported(reports, alarm, source)) <= Rank(after.reg.states[alarm].severity))
  {
    AlarmFollowsHistory(thresholds, m, reports, limits, alarm);
    LimitsAsIs(thresholds, reports, limits, alarm, i);
    forall source ensures HeldBy(reports, limits, alarm, source) == LastReported(reports, alarm, source) {
      HeldIsLastReported(reports, limits, alarm, source);
    }
  }

  // ----- What a change tells -----

  /** The report changed the severity its source holds. */
  ghost predicate Shifts(thresholds: Limits, m: Monitor, r: Report) {
    ConditionOf(Update(thresholds, m, r), r.alarm, r.source).level != ConditionOf(m, r.alarm, r.source).level
  }

  /** The note and the details name the active conditions, and no other, with their messages. */
  ghost predicate TellsActive(note: Note, details: Option<map<string, string>>, conditions: Conditions) {
    match note
    case BackToNormal => details == None && forall s :: s in conditions ==> conditions[s].level == CLEARED
    case Joined(parts) =>
      && details == Some(parts)
      && (exists s :: s in parts)
      && (forall s :: s in parts <==> s in conditions && conditions[s].level != CLEARED)
      && (forall s :: s in parts ==> parts[s] == conditions[s].message)
  }

  /** After a change of a source's severity, its registered alarm tells exactly the sources that hold one, each with its
      message; once none does, that all is normal again. */
  lemma ChangeTellsActive(thresholds: Limits, m: Monitor, r: Report)
    requires Aggregated(m) && Shifts(thresholds, m, r) && r.alarm in m.reg.states
    ensures var after := Update(thresholds, m, r);
            var conditions := after.conditions[r.alarm];
            && r.alarm in after.reg.states
            && after.reg.states[r.alarm].message.Some?
            && TellsActive(after.reg.states[r.alarm].message.value, after.reg.states[r.alarm].details, conditions)
  {
    var c, limits := ConditionOf(m, r.alarm, r.source), LimitsOf(thresholds, r);
    assert Sided(c);
    FiresIffChanges(c, r.reading, limits);
    var conditions := Update(thresholds, m, r).conditions[r.alarm];
    HighestIsHighest(conditions);
    if Highest(conditions) != CLEARED {
      var s :| s in conditions && conditions[s].level == Highest(conditions);
      assert s in ActiveMessages(conditions);
    }
  }
}
