/** The two-sided severity debounce of a metrics condition, and the history it stands for. */
module Debounce {
  import opened AlarmRegistry

  /** The severities a metrics condition can take: all that are ranked. */
  type Level = s: Severity | s != INDETERMINATE witness CLEARED

  function Rank(l: Level): nat {
    match l
    case CLEARED => 0
    case WARNING => 1
    case MINOR => 2
    case MAJOR => 3
    case CRITICAL => 4
  }

  /** The outcome of one report: its breach, or CLEARED with no message. */
  datatype Reading = Reading(level: Level, message: string)

  /** How many consecutive reports shift a condition up, and down. */
  datatype Limits = Limits(raise: int, clear: int)

  /** What the monitor stores per condition: the held severity, and the run that may shift it. */
  datatype Condition = Condition(level: Level, message: string, shifts: nat, shiftLevel: Level, shiftMessage: string)

  function Idle(): Condition {
    Condition(CLEARED, "", 0, CLEARED, "")
  }

  /** The run of consecutive reports on one side of the held level, with a further report beyond it. */
  function WithReading(c: Condition, r: Reading): (run: Condition)
    ensures run.shifts > 0 && run.level == c.level
  {
    var up := Rank(r.level) > Rank(c.level);
    if c.shifts > 0 && (Rank(c.shiftLevel) > Rank(c.level)) == up then
      // the closest to the held level counts: MAJOR and CRITICAL above WARNING shift to MAJOR
      var closer := if up then Rank(r.level) <= Rank(c.shiftLevel) else Rank(r.level) >= Rank(c.shiftLevel);
      if closer then c.(shifts := c.shifts + 1, shiftLevel := r.level, shiftMessage := r.message)
      else c.(shifts := c.shifts + 1)
    else c.(shifts := 1, shiftLevel := r.level, shiftMessage := r.message)
  }

  /** Whether a report completes a run, so that the severity changes and the alarm is synchronised. */
  predicate Fires(c: Condition, r: Reading, limits: Limits) {
    && r.level != c.level
    && WithReading(c, r).shifts >= if Rank(r.level) > Rank(c.level) then limits.raise else limits.clear
  }

  function Feed(c: Condition, r: Reading, limits: Limits): Condition {
    if r.level == c.level then c.(shifts := 0, message := r.message)
    else
      var run := WithReading(c, r);
      if Fires(c, r, limits) then run.(level := run.shiftLevel, message := run.shiftMessage, shifts := 0) else run
  }

  function FeedAll(readings: seq<Reading>, limits: Limits): Condition {
    if readings == [] then Idle()
    else Feed(FeedAll(readings[..|readings| - 1], limits), readings[|readings| - 1], limits)
  }

  // ----- The history definition -----

  /** Whether every reading lies strictly above (respectively below) the given level. */
  predicate AllBeyond(readings: seq<Reading>, level: Level, up: bool) {
    forall i :: 0 <= i < |readings| ==> Beyond(readings[i], level, up)
  }

  predicate Beyond(r: Reading, level: Level, up: bool) {
    if up then Rank(r.level) > Rank(level) else Rank(r.level) < Rank(level)
  }

  /** The reading closest to where an up (down) run started: the lowest (highest), the latest of several. */
  function Closest(readings: seq<Reading>, up: bool): Reading
    requires readings != []
  {
    var last := readings[|readings| - 1];
    if |readings| == 1 then last
    else
      var earlier := Closest(readings[..|readings| - 1], up);
      if NoFarther(last, earlier, up) then last else earlier
  }

  predicate NoFarther(r: Reading, s: Reading, up: bool) {
    if up then Rank(r.level) <= Rank(s.level) else Rank(r.level) >= Rank(s.level)
  }

  lemma {:induction false} ClosestIsClosest(readings: seq<Reading>, up: bool)
    requires readings != []
    ensures Closest(readings, up) in readings
    ensures forall i :: 0 <= i < |readings| ==> NoFarther(Closest(readings, up), readings[i], up)
  {
    if |readings| == 1 {
    } else {
      var earlier := readings[..|readings| - 1];
      ClosestIsClosest(earlier, up);
      assert forall i :: 0 <= i < |earlier| ==> earlier[i] == readings[i];
    }
  }

  /** A limit below one asks for one report. */
  function Needed(limits: Limits, up: bool): (n: nat)
    ensures n >= 1
  {
    var limit := if up then limits.raise else limits.clear;
    if limit < 1 then 1 else limit
  }

  /** Whether the last N readings, all later than index `since`, lie strictly beyond the level. */
  predicate Shifted(readings: seq<Reading>, since: nat, level: Level, limits: Limits, up: bool) {
    && since + Needed(limits, up) <= |readings|
    && AllBeyond(readings[|readings| - Needed(limits, up)..], level, up)
  }

  /** What a condition holds: its severity and message, and how many readings preceded its last change. */
  datatype Held = Held(level: Level, message: string, since: nat)

  /** The severity changes exactly when the last N readings since its previous change all lie on one side
      of it, and then becomes the closest of them; a reading at the held severity refreshes the message. */
  function History(readings: seq<Reading>, limits: Limits): (h: Held)
    ensures h.since <= |readings|
  {
    if readings == [] then Held(CLEARED, "", 0)
    else Judged(readings, History(readings[..|readings| - 1], limits), limits)
  }

  /** What is held with the last of some readings, given what was held before it. */
  function Judged(readings: seq<Reading>, h: Held, limits: Limits): (next: Held)
    requires readings != [] && h.since <= |readings|
    ensures next.since <= |readings|
  {
    var last := readings[|readings| - 1];
    if Shifted(readings, h.since, h.level, limits, true) then
      var r := Closest(readings[|readings| - Needed(limits, true)..], true);
      Held(r.level, r.message, |readings|)
    else if Shifted(readings, h.since, h.level, limits, false) then
      var r := Closest(readings[|readings| - Needed(limits, false)..], false);
      Held(r.level, r.message, |readings|)
    else if last.level == h.level then h.(message := last.message)
    else h
  }

  // ----- The debouncer refines the history -----

  /** The readings before a run: all since the last change, and the one just before it, if any, is not
      on the run's side. */
  predicate RunStartsAfter(before: seq<Reading>, since: nat, level: Level, up: bool) {
    since == |before| || (since < |before| && !Beyond(before[|before| - 1], level, up))
  }

  /** The stored run: the longest of readings on one side of the held level since the last change, and
      not yet long enough to shift it. */
  ghost predicate RunOf(c: Condition, before: seq<Reading>, run: seq<Reading>, since: nat, limits: Limits, up: bool) {
    && RunStartsAfter(before, since, c.level, up)
    && 0 < |run| == c.shifts < Needed(limits, up)
    && AllBeyond(run, c.level, up)
    && Reading(c.shiftLevel, c.shiftMessage) == Closest(run, up)
    && Beyond(Closest(run, up), c.level, up)
  }

  /** The condition stands for what is held after some readings, and for the run they end in. */
  ghost predicate Represents(c: Condition, readings: seq<Reading>, h: Held, limits: Limits) {
    && c.level == h.level && c.message == h.message
    && c.shifts <= |readings|
    && var start := |readings| - c.shifts;
       if c.shifts == 0 then h.since == |readings| || (h.since < |readings| && readings[|readings| - 1].level == c.level)
       else RunOf(c, readings[..start], readings[start..], h.since, limits, Rank(c.shiftLevel) > Rank(c.level))
  }

  /** A window that ends on the wrong side of the level, or on it, shifts nothing. */
  lemma LastReadingDecides(readings: seq<Reading>, since: nat, level: Level, limits: Limits, up: bool)
    requires readings != [] && !Beyond(readings[|readings| - 1], level, up)
    ensures !Shifted(readings, since, level, limits, up)
  {
    if Needed(limits, up) <= |readings| {
      var window := readings[|readings| - Needed(limits, up)..];
      assert window[|window| - 1] == readings[|readings| - 1];
    }
  }

  /** A maximal run shifts the level exactly when it is as long as needed. */
  lemma RunShiftsWhenFull(before: seq<Reading>, run: seq<Reading>, since: nat, level: Level, limits: Limits, up: bool)
    requires RunStartsAfter(before, since, level, up)
    requires 0 < |run| <= Needed(limits, up) && AllBeyond(run, level, up)
    ensures Shifted(before + run, since, level, limits, up) <==> |run| == Needed(limits, up)
    ensures !Shifted(before + run, since, level, limits, !up)
    ensures |run| == Needed(limits, up) ==> (before + run)[|before + run| - |run|..] == run
  {
    var readings, n := before + run, Needed(limits, up);
    assert readings[|readings| - 1] == run[|run| - 1];
    LastReadingDecides(readings, since, level, limits, !up);
    if |run| == n {
      assert readings[|readings| - n..] == run;
    } else if since + n <= |readings| {
      var window := readings[|readings| - n..];
      assert window[|before| - 1 - (|readings| - n)] == before[|before| - 1];
    }
  }

  lemma ClosestGrows(run: seq<Reading>, r: Reading, up: bool)
    requires run != []
    ensures Closest(run + [r], up)
            == var earlier := Closest(run, up);
               if NoFarther(r, earlier, up) then r else earlier
  {
    assert (run + [r])[..|run|] == run;
  }

  /** A condition after a reading beyond its level completed the given run: shifted, or storing the run. */
  ghost predicate RunAfter(c: Condition, next: Condition, run: seq<Reading>, limits: Limits, up: bool) {
    && 0 < |run| <= Needed(limits, up) && AllBeyond(run, c.level, up)
    && var closest := Closest(run, up);
       && Beyond(closest, c.level, up)
       && next == if |run| >= Needed(limits, up)
                  then Condition(closest.level, closest.message, 0, closest.level, closest.message)
                  else Condition(c.level, c.message, |run|, closest.level, closest.message)
  }

  lemma FeedContinuesRun(c: Condition, before: seq<Reading>, run: seq<Reading>, r: Reading, since: nat, limits: Limits,
                         up: bool)
    requires RunOf(c, before, run, since, limits, up) && Beyond(r, c.level, up)
    ensures RunAfter(c, Feed(c, r, limits), run + [r], limits, up)
  {
    ClosestGrows(run, r, up);
    var closest := Closest(run + [r], up);
    assert WithReading(c, r) == Condition(c.level, c.message, c.shifts + 1, closest.level, closest.message);
  }

  lemma FeedStartsRun(c: Condition, r: Reading, limits: Limits, up: bool)
    requires Beyond(r, c.level, up)
    requires c.shifts == 0 || (Rank(c.shiftLevel) > Rank(c.level)) != up
    ensures RunAfter(c, Feed(c, r, limits), [r], limits, up)
  {
  }

  lemma FullRunRepresents(c: Condition, next: Condition, before: seq<Reading>, run: seq<Reading>, h: Held, limits: Limits,
                          up: bool)
    requires RunAfter(c, next, run, limits, up) && |run| == Needed(limits, up)
    requires h.level == c.level && h.message == c.message && RunStartsAfter(before, h.since, c.level, up)
    ensures Represents(next, before + run, Judged(before + run, h, limits), limits)
  {
    RunShiftsWhenFull(before, run, h.since, c.level, limits, up);
  }

  lemma PartRunRepresents(c: Condition, next: Condition, before: seq<Reading>, run: seq<Reading>, h: Held, limits: Limits,
                          up: bool)
    requires RunAfter(c, next, run, limits, up) && |run| < Needed(limits, up)
    requires h.level == c.level && h.message == c.message && RunStartsAfter(before, h.since, c.level, up)
    ensures Represents(next, before + run, Judged(before + run, h, limits), limits)
  {
    var readings := before + run;
    RunShiftsWhenFull(before, run, h.since, c.level, limits, up);
    assert readings[|readings| - 1] == run[|run| - 1];
    assert Beyond(run[|run| - 1], c.level, up);
    assert Judged(readings, h, limits) == h;
    assert readings[..|before|] == before && readings[|before|..] == run;
  }

  lemma RunAfterRepresents(c: Condition, next: Condition, before: seq<Reading>, run: seq<Reading>, h: Held, limits: Limits,
                           up: bool)
    requires RunAfter(c, next, run, limits, up)
    requires h.level == c.level && h.message == c.message && RunStartsAfter(before, h.since, c.level, up)
    ensures Represents(next, before + run, Judged(before + run, h, limits), limits)
  {
    if |run| == Needed(limits, up) {
      FullRunRepresents(c, next, before, run, h, limits, up);
    } else {
      PartRunRepresents(c, next, before, run, h, limits, up);
    }
  }

  lemma FeedAtLevelRefines(c: Condition, earlier: seq<Reading>, r: Reading, h: Held, limits: Limits)
    requires Represents(c, earlier, h, limits) && h.since <= |earlier| && r.level == c.level
    ensures Represents(Feed(c, r, limits), earlier + [r], Judged(earlier + [r], h, limits), limits)
  {
    LastReadingDecides(earlier + [r], h.since, h.level, limits, true);
    LastReadingDecides(earlier + [r], h.since, h.level, limits, false);
  }

  /** A reading beyond the level continues the stored run if that is on the same side... */
  lemma FeedSameSideRefines(c: Condition, earlier: seq<Reading>, r: Reading, h: Held, limits: Limits, up: bool)
    requires Represents(c, earlier, h, limits) && h.since <= |earlier| && Beyond(r, c.level, up)
    requires c.shifts > 0 && (Rank(c.shiftLevel) > Rank(c.level)) == up
    ensures Represents(Feed(c, r, limits), earlier + [r], Judged(earlier + [r], h, limits), limits)
  {
    var before, run := earlier[..|earlier| - c.shifts], earlier[|earlier| - c.shifts..];
    FeedContinuesRun(c, before, run, r, h.since, limits, up);
    assert before + (run + [r]) == earlier + [r];
    RunAfterRepresents(c, Feed(c, r, limits), before, run + [r], h, limits, up);
  }

  /** ... and starts a new one otherwise. */
  lemma FeedOtherSideRefines(c: Condition, earlier: seq<Reading>, r: Reading, h: Held, limits: Limits, up: bool)
    requires Represents(c, earlier, h, limits) && h.since <= |earlier| && Beyond(r, c.level, up)
    requires c.shifts == 0 || (Rank(c.shiftLevel) > Rank(c.level)) != up
    ensures Represents(Feed(c, r, limits), earlier + [r], Judged(earlier + [r], h, limits), limits)
  {
    FeedStartsRun(c, r, limits, up);
    if c.shifts > 0 {
      var run := earlier[|earlier| - c.shifts..];
      assert run[|run| - 1] == earlier[|earlier| - 1];
      assert Beyond(run[|run| - 1], c.level, !up);
    }
    RunAfterRepresents(c, Feed(c, r, limits), earlier, [r], h, limits, up);
  }

  lemma FeedRefines(c: Condition, earlier: seq<Reading>, r: Reading, h: Held, limits: Limits)
    requires Represents(c, earlier, h, limits) && h.since <= |earlier|
    ensures Represents(Feed(c, r, limits), earlier + [r], Judged(earlier + [r], h, limits), limits)
  {
    var up := Rank(r.level) > Rank(c.level);
    if r.level == c.level {
      FeedAtLevelRefines(c, earlier, r, h, limits);
    } else if c.shifts > 0 && (Rank(c.shiftLevel) > Rank(c.level)) == up {
      FeedSameSideRefines(c, earlier, r, h, limits, up);
    } else {
      FeedOtherSideRefines(c, earlier, r, h, limits, up);
    }
  }

  /** The debouncer holds, after any readings, what its history definition says. */
  lemma {:induction false} DebounceRefinesHistory(readings: seq<Reading>, limits: Limits)
    ensures Represents(FeedAll(readings, limits), readings, History(readings, limits), limits)
    ensures FeedAll(readings, limits).level == History(readings, limits).level
    ensures FeedAll(readings, limits).message == History(readings, limits).message
  {
    if readings == [] {
    } else {
      var earlier, r := readings[..|readings| - 1], readings[|readings| - 1];
      DebounceRefinesHistory(earlier, limits);
      assert readings == earlier + [r];
      FeedRefines(FeedAll(earlier, limits), earlier, r, History(earlier, limits), limits);
    }
  }

  lemma ShiftMovesBeyond(readings: seq<Reading>, since: nat, level: Level, limits: Limits, up: bool)
    requires Shifted(readings, since, level, limits, up)
    ensures Beyond(Closest(readings[|readings| - Needed(limits, up)..], up), level, up)
    ensures !Shifted(readings, since, level, limits, !up)
  {
    var window := readings[|readings| - Needed(limits, up)..];
    assert window[|window| - 1] == readings[|readings| - 1];
    LastReadingDecides(readings, since, level, limits, !up);
    ClosestIsClosest(window, up);
  }

  /** A change of the held severity, from one level to another. */
  predicate Moves(readings: seq<Reading>, since: nat, before: Level, after: Level, limits: Limits) {
    var up := Rank(after) > Rank(before);
    && (up <==> Shifted(readings, since, before, limits, true))
    && (Rank(after) < Rank(before) <==> Shifted(readings, since, before, limits, false))
    && (after != before ==>
          && Needed(limits, up) <= |readings|
          && after == Closest(readings[|readings| - Needed(limits, up)..], up).level)
  }

  lemma ShiftMoves(readings: seq<Reading>, since: nat, level: Level, limits: Limits, up: bool)
    requires Shifted(readings, since, level, limits, up)
    ensures Moves(readings, since, level, Closest(readings[|readings| - Needed(limits, up)..], up).level, limits)
  {
    var after := Closest(readings[|readings| - Needed(limits, up)..], up).level;
    ShiftMovesBeyond(readings, since, level, limits, up);
    assert (Rank(after) > Rank(level)) == up;
  }

  lemma JudgedMoves(readings: seq<Reading>, h: Held, limits: Limits)
    requires readings != [] && h.since <= |readings|
    ensures Moves(readings, h.since, h.level, Judged(readings, h, limits).level, limits)
  {
    if Shifted(readings, h.since, h.level, limits, true) {
      ShiftMoves(readings, h.since, h.level, limits, true);
    } else if Shifted(readings, h.since, h.level, limits, false) {
      ShiftMoves(readings, h.since, h.level, limits, false);
    }
  }

  /** In terms of what is held: the last report changes the severity iff the last N readings since the
      previous change all lie strictly on one side of it, and it moves to the closest of them. */
  lemma ChangesIffShifted(readings: seq<Reading>, limits: Limits)
    requires readings != []
    ensures var earlier := readings[..|readings| - 1];
            Moves(readings, History(earlier, limits).since,
                  FeedAll(earlier, limits).level, FeedAll(readings, limits).level, limits)
  {
    DebounceRefinesHistory(readings, limits);
    DebounceRefinesHistory(readings[..|readings| - 1], limits);
    JudgedMoves(readings, History(readings[..|readings| - 1], limits), limits);
  }

  /** Hence a change up (down) comes no sooner than raise (clear) reports after the change before it. */
  lemma ChangesAreSpaced(readings: seq<Reading>, limits: Limits)
    requires readings != []
    ensures var before, after := FeedAll(readings[..|readings| - 1], limits).level, FeedAll(readings, limits).level;
            after != before ==>
              |readings| - History(readings[..|readings| - 1], limits).since >= Needed(limits, Rank(after) > Rank(before))
  {
    ChangesIffShifted(readings, limits);
  }
}
