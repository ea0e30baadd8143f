/** What the mirror holds, report by report: over any run of the bridge, the last thing the O-RU said of each fault and
    source, whole; and what an alarm is registered, ranked and retired as. */
module FaultReports {
  import opened Decimals
  import opened Options
  import opened OrderedDict
  import opened AlarmRegistry
  import opened FaultBridge
  import opened FaultMirror

  // ----- Runs of a bridge -----

  /** A connect cycle that reads the active-alarm-list, or a live alarm-notif. */
  datatype Happening = Cycle(listed: seq<Alarm>) | Notified(alarm: Alarm)

  function After(r: Renderer, m: Mirror, run: seq<Happening>): Mirror {
    if run == [] then m
    else Happened(r, After(r, m, run[..|run| - 1]), run[|run| - 1])
  }

  function Happened(r: Renderer, m: Mirror, h: Happening): Mirror {
    match h
    case Cycle(listed) => Reconcile(r, m, listed)
    case Notified(a) => Notify(r, m, a)
  }

  // ----- What was said -----

  /** The alarms that say a fault is active at a source, in order, since it was last cleared or not listed: those
      notified, and of each list the last one. */
  function Said(run: seq<Happening>, f: int, source: Source): seq<Alarm> {
    if run == [] then []
    else
      var earlier := Said(run[..|run| - 1], f, source);
      match run[|run| - 1]
      case Cycle(listed) =>
        var entry := LastEntry(listed, f, source);
        if entry.None? then [] else earlier + [entry.value]
      case Notified(a) =>
        if !Concerns(a, f, source) then earlier
        else if a.isCleared then []
        else earlier + [a]
  }

  /** Two alarms say the same of a fault, whenever they say it. */
  predicate SameState(a: Alarm, b: Alarm) {
    SeverityOf(a.severity) == SeverityOf(b.severity) && a.report == b.report
  }

  /** From the k-th alarm on the same is said; what was said before it differs. */
  ghost predicate LastChange(said: seq<Alarm>, k: int) {
    && 0 <= k < |said|
    && (forall j :: k <= j < |said| ==> SameState(said[j], said[|said| - 1]))
    && (0 < k ==> !SameState(said[k - 1], said[|said| - 1]))
  }

  ghost predicate SaidFirstAt(said: seq<Alarm>, eventTime: Option<string>) {
    exists k :: LastChange(said, k) && said[k].eventTime == eventTime
  }

  /** The report held: every leaf as last said, with the time that state was first said. */
  ghost predicate Holds(said: seq<Alarm>, held: Option<Report>) {
    if said == [] then held == None
    else
      var last := said[|said| - 1];
      && held.Some?
      && held.value.severity == SeverityOf(last.severity)
      && held.value.leaves == last.report
      && SaidFirstAt(said, held.value.eventTime)
  }

  lemma SaidOnceMore(said: seq<Alarm>, a: Alarm, k: int)
    requires LastChange(said, k) && SameState(said[|said| - 1], a)
    ensures LastChange(said + [a], k)
  {
  }

  /** A report merged into the one held. */
  lemma MergeHolds(said: seq<Alarm>, held: Option<Report>, a: Alarm)
    requires Holds(said, held)
    ensures Holds(said + [a], Some(Merge(held, ReportOf(a))))
  {
    var all := said + [a];
    if said != [] && SameState(said[|said| - 1], a) {
      var k :| LastChange(said, k) && said[k].eventTime == held.value.eventTime;
      SaidOnceMore(said, a, k);
      assert all[k] == said[k];
    } else {
      assert LastChange(all, |said|);
      assert all[|said|] == a;
      assert said != [] ==> all[|said| - 1] == said[|said| - 1];
    }
  }

  /** One notification changes what is held of its fault and source only. */
  lemma NotifyHeld(r: Renderer, m: Mirror, a: Alarm, f: int, source: Source)
    ensures var before := Get(SourcesOf(m.reports, f), source);
            Get(SourcesOf(Notify(r, m, a).reports, f), source)
            == if !Concerns(a, f, source) then before
               else if a.isCleared then None
               else Some(Merge(before, ReportOf(a)))
  {
    if FaultId(a) == Some(f) {
      var sources := SourcesOf(m.reports, f);
      GetRemove(sources, a.source, source);
      GetPut(sources, a.source, Merge(Get(sources, a.source), ReportOf(a)), source);
    }
  }

  /** A cycle leaves the registry's reports as collected from its list. */
  lemma ReconcileHeld(r: Renderer, m: Mirror, listed: seq<Alarm>)
    requires KnownRegistered(m)
    ensures Reconcile(r, m, listed).reports == Collect(m.reports, listed)
    ensures Synced(r, Reconcile(r, m, listed))
  {
    ReconcileSyncs(r, m, listed);
  }

  /** After any run of a new bridge, over any registry: what it holds of a fault and source is what the O-RU last said of
      them, leaf by leaf, since it was last cleared or found unlisted, at the time it first said so. */
  lemma {:induction false} MirrorHoldsLastSaid(r: Renderer, m: Mirror, run: seq<Happening>, f: int, source: Source)
    requires m.reports == map[] && KnownRegistered(m)
    ensures var after := After(r, m, run);
            && Tidy(after.reports) && KnownRegistered(after)
            && Holds(Said(run, f, source), Get(SourcesOf(after.reports, f), source))
  {
    if run == [] {
    } else {
      var earlier := After(r, m, run[..|run| - 1]);
      var said := Said(run[..|run| - 1], f, source);
      MirrorHoldsLastSaid(r, m, run[..|run| - 1], f, source);
      match run[|run| - 1]
      case Cycle(listed) =>
        ReconcileHeld(r, earlier, listed);
        CollectedValue(earlier.reports, listed, f, source);
        var entry := LastEntry(listed, f, source);
        if entry.Some? {
          MergeHolds(said, Get(SourcesOf(earlier.reports, f), source), entry.value);
        }
      case Notified(a) =>
        NotifyKeepsTidy(r, earlier, a);
        NotifyHeld(r, earlier, a, f, source);
        if Concerns(a, f, source) && !a.isCleared {
          MergeHolds(said, Get(SourcesOf(earlier.reports, f), source), a);
        }
    }
  }

  ghost predicate HasCycle(run: seq<Happening>) {
    exists i :: 0 <= i < |run| && run[i].Cycle?
  }

  /** From its first cycle on the bridge is in sync. */
  lemma {:induction false} RunsStaySynced(r: Renderer, m: Mirror, run: seq<Happening>)
    requires m.reports == map[] && KnownRegistered(m) && HasCycle(run)
    ensures Synced(r, After(r, m, run))
  {
    var n := |run| - 1;
    MirrorHoldsLastSaid(r, m, run[..n], 0, None);
    if run[n].Notified? {
      CycleCameEarlier(run);
      RunsStaySynced(r, m, run[..n]);
    }
    HappeningSyncs(r, After(r, m, run[..n]), run[n]);
  }

  lemma CycleCameEarlier(run: seq<Happening>)
    requires HasCycle(run) && run[|run| - 1].Notified?
    ensures HasCycle(run[..|run| - 1])
  {
    var i :| 0 <= i < |run| && run[i].Cycle?;
    assert run[..|run| - 1][i].Cycle?;
  }

  lemma HappeningSyncs(r: Renderer, m: Mirror, h: Happening)
    requires KnownRegistered(m) && (h.Notified? ==> Synced(r, m))
    ensures Synced(r, Happened(r, m, h))
  {
    match h
    case Cycle(listed) => ReconcileHeld(r, m, listed);
    case Notified(a) => NotifyKeepsSynced(r, m, a);
  }

  ghost predicate SaidActive(run: seq<Happening>, f: int, source: Source) {
    Said(run, f, source) != []
  }

  /** After any run with a cycle in it, the alarm of a fault is active exactly when some source was last said to have it;
      then its message and details are the renderer's of the reports held, and its severity that of the source said to
      have it worst. */
  lemma AlarmTellsLastSaid(r: Renderer, m: Mirror, run: seq<Happening>, f: int)
    requires m.reports == map[] && KnownRegistered(m) && HasCycle(run)
    requires 0 <= f < FAULT_ID_LIMIT
    ensures var after := After(r, m, run);
            && (FaultActive(after.reg, f) <==> exists source :: SaidActive(run, f, source))
            && (FaultActive(after.reg, f) ==>
                  && f in after.reports
                  && FaultState(after.reg, f).value.message == r.message(after.reports[f])
                  && FaultState(after.reg, f).value.details == Some(r.details(f, after.reports[f]))
                  && WorstSaid(run, f, FaultState(after.reg, f).value.severity))
  {
    var after := After(r, m, run);
    RunsStaySynced(r, m, run);
    forall source
      ensures SaidActive(run, f, source) <==> Mirrored(after.reports, f, source).Some?
      ensures SaidActive(run, f, source) ==> Mirrored(after.reports, f, source) == Some(LastSaid(run, f, source))
    {
      MirrorHoldsLastSaid(r, m, run, f, source);
    }
    SyncedAlarmAggregates(r, after, f);
    assert FaultSynced(r, after, f);
    if FaultActive(after.reg, f) {
      var severity := FaultState(after.reg, f).value.severity;
      var source :| Mirrored(after.reports, f, source) == Some(severity);
      assert SaidActive(run, f, source);
    }
  }

  /** The severity last said of a fault at a source. */
  function LastSaid(run: seq<Happening>, f: int, source: Source): Severity
    requires SaidActive(run, f, source)
  {
    var said := Said(run, f, source);
    SeverityOf(said[|said| - 1].severity)
  }

  ghost predicate WorstSaid(run: seq<Happening>, f: int, severity: Severity) {
    && (exists source :: SaidActive(run, f, source) && LastSaid(run, f, source) == severity)
    && (forall source :: SaidActive(run, f, source) ==> Rank(severity) <= Rank(LastSaid(run, f, source)))
  }

  // ----- Severities -----

  /** The fault severities of o-ran-fm, most severe first, and what the registry calls them. */
  const LITERALS := ["CRITICAL", "MAJOR", "MINOR", "WARNING"]
  const SEVERITIES := [CRITICAL, MAJOR, MINOR, WARNING]

  /** The literals are ranked in their order; any other, or none, is INDETERMINATE and comes after all of them. */
  lemma SeveritiesInOrder(literal: Option<string>)
    ensures forall i :: 0 <= i < 4 ==> SeverityOf(Some(LITERALS[i])) == SEVERITIES[i] && Rank(SEVERITIES[i]) == i
    ensures (literal.None? || literal.value !in LITERALS) <==> SeverityOf(literal) == INDETERMINATE
    ensures Rank(INDETERMINATE) == 4
  {
    assert LITERALS[0] == "CRITICAL" && LITERALS[1] == "MAJOR" && LITERALS[2] == "MINOR" && LITERALS[3] == "WARNING";
    assert "MAJOR"[1] != "MINOR"[1];
  }

  /** A fault-id is one that fits sixteen bits; anything else is ignored. */
  lemma FaultIdsFit(r: Renderer, m: Mirror, a: Alarm)
    ensures FaultId(a).Some? <==> a.faultId.Some? && 0 <= a.faultId.value <= 65_535
    ensures FaultId(a).Some? ==> FaultId(a) == a.faultId
    ensures FaultId(a).None? ==> Notify(r, m, a) == m
  {
  }

  // ----- Ties -----

  /** At their first difference the one comes before the other, which a longer text has too. */
  ghost predicate FirstDifference(a: string, b: string, k: nat) {
    k <= |a| && k < |b| && a[..k] == b[..k] && (k == |a| || a[k] < b[k])
  }

  lemma SameStart(a: string, b: string, k: nat)
    requires FirstDifference(a, b, k)
    ensures 0 < k ==> a != "" && a[0] == b[0]
  {
    if 0 < k {
      assert a[..k][0] == a[0] && b[..k][0] == b[0];
    }
  }

  lemma {:induction false} TextLessIff(a: string, b: string)
    ensures TextLess(a, b) <==> exists k: nat :: FirstDifference(a, b, k)
  {
    if b == "" {
    } else if a == "" {
      assert FirstDifference(a, b, 0);
    } else if a[0] != b[0] {
      assert a[0] < b[0] ==> FirstDifference(a, b, 0);
      forall k: nat | FirstDifference(a, b, k) ensures k == 0 {
        SameStart(a, b, k);
      }
    } else {
      TextLessIff(a[1..], b[1..]);
      if k: nat :| FirstDifference(a[1..], b[1..], k) {
        assert a[..k + 1] == [a[0]] + a[1..][..k] && b[..k + 1] == [b[0]] + b[1..][..k];
        assert FirstDifference(a, b, k + 1);
      }
      if k: nat :| FirstDifference(a, b, k) {
        assert k > 0;
        assert a[1..][..k - 1] == a[..k][1..] && b[1..][..k - 1] == b[..k][1..];
        assert FirstDifference(a[1..], b[1..], k - 1);
      }
    }
  }

  lemma {:induction false} TextLessIsOrder(a: string, b: string, c: string)
    ensures !TextLess(a, a)
    ensures TextLess(a, b) && TextLess(b, c) ==> TextLess(a, c)
  {
    if a != "" && b != "" && c != "" {
      TextLessIsOrder(a[1..], b[1..], c[1..]);
    } else if a != "" {
      TextLessIsOrder(a[1..], "", "");
    }
  }

  /** Of the most severe sources, the one whose name sorts first leads; one without a name sorts as None. */
  lemma {:induction false} TiesByName(sources: Sources, e: Entry<Source, Report>)
    requires e in sources
    ensures var lead := Leading(sources);
            && Rank(lead.value.severity) <= Rank(e.value.severity)
            && (lead.value.severity == e.value.severity ==> !TextLess(e.key.GetOr("None"), lead.key.GetOr("None")))
  {
    var lead, last := Leading(sources), sources[|sources| - 1];
    TextLessIsOrder(lead.key.GetOr("None"), lead.key.GetOr("None"), lead.key.GetOr("None"));
    if |sources| > 1 {
      var earlier := sources[..|sources| - 1];
      if e in earlier {
        TiesByName(earlier, e);
        TextLessIsOrder(e.key.GetOr("None"), last.key.GetOr("None"), Leading(earlier).key.GetOr("None"));
      } else {
        assert e == last;
      }
    }
  }

  // ----- Definitions and retirement -----

  const KINDS: set<string> := {
    "COMMUNICATIONS-ALARM", "PROCESSING-ERROR-ALARM", "ENVIRONMENTAL-ALARM", "QUALITY-OF-SERVICE-ALARM", "EQUIPMENT-ALARM",
    "INTEGRITY-VIOLATION", "OPERATIONAL-VIOLATION", "PHYSICAL-VIOLATION", "SECURITY-SERVICE-OR-MECHANISM-VIOLATION",
    "TIME-DOMAIN-VIOLATION"
  }

  /** On first sight a fault is registered at 4000 plus its id, typed as its leading report says, with that report's
      severity by default; a definition that exists already stays. */
  lemma FirstSightRegisters(r: Renderer, m: Mirror, f: int, sources: Sources)
    requires sources != [] && (f in m.known ==> FaultState(m.reg, f).Some?)
    ensures var lead, after := Leading(sources).value, Raise(r, m, f, sources);
            && 4000 + f in after.reg.states
            && var definition := after.reg.states[4000 + f].definition;
               if 4000 + f in m.reg.states then definition == m.reg.states[4000 + f].definition
               else && definition.id == 4000 + f && definition.name == "RU_FAULT_" + IntText(f)
                    && definition.defaultSeverity == lead.severity && definition.defaultTrend == NoChange
                    && definition.kind in KINDS
                    && (lead.leaves.alarmType.Some? && lead.leaves.alarmType.value in KINDS
                        ==> definition.kind == lead.leaves.alarmType.value)
                    && (lead.leaves.alarmType.None? || lead.leaves.alarmType.value !in KINDS
                        ==> definition.kind == "EQUIPMENT-ALARM")
  {
  }

  /** A fault that was active and is no longer listed is cleared as not listed. */
  lemma UnlistedIsRetired(r: Renderer, m: Mirror, listed: seq<Alarm>, f: int)
    requires KnownRegistered(m) && 0 <= f < FAULT_ID_LIMIT && FaultActive(m.reg, f)
    requires forall a :: a in listed && FaultId(a) == Some(f) ==> a.isCleared
    ensures var state := FaultState(Reconcile(r, m, listed).reg, f);
            && state.Some? && !state.value.active && state.value.severity == CLEARED
            && state.value.message == Some("not in the O-RU active-alarm-list at reconcile")
            && state.value.details == Some(r.details(f, []))
  {
    var collected := m.(reports := Collect(m.reports, listed));
    var stale := StaleFaults(m.reg, collected.reports);
    CollectedIffListed(m.reports, listed, f);
    RaiseBelowSettles(r, collected, FAULT_ID_LIMIT);
    ClearBelowRetires(r, RaiseBelow(r, collected, FAULT_ID_LIMIT), stale, FAULT_ID_LIMIT, f);
  }

  lemma {:induction false} ClearBelowRetires(r: Renderer, m: Mirror, stale: set<int>, limit: nat, f: int)
    requires f in stale && 0 <= f && FaultActive(m.reg, f)
    ensures var state := FaultState(ClearBelow(r, m, stale, limit).reg, f);
            if limit <= f then state == FaultState(m.reg, f)
            else && state.Some? && !state.value.active && state.value.severity == CLEARED
                 && state.value.message == Some(STALE_MESSAGE) && state.value.details == Some(r.details(f, []))
  {
    if limit != 0 {
      ClearBelowRetires(r, m, stale, limit - 1, f);
    }
  }

  /** The clearance by the last source is announced with its own text, and the details of its own report. */
  lemma LastClearanceIsTold(r: Renderer, m: Mirror, a: Alarm, f: int)
    requires Synced(r, m) && FaultId(a) == Some(f) && a.isCleared
    requires Get(SourcesOf(m.reports, f), a.source).Some? && Remove(SourcesOf(m.reports, f), a.source) == []
    ensures var state := FaultState(Notify(r, m, a).reg, f);
            && state.Some? && !state.value.active && state.value.severity == CLEARED
            && state.value.message == a.report.text
            && state.value.details == Some(r.details(f, [Entry(a.source, Report(SeverityOf(a.severity), a.report, a.eventTime))]))
  {
    assert FaultSynced(r, m, f);
  }
}
