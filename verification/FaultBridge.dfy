/** The O-RU fault bridge: o-ran-fm faults, each reported by several sources, mirrored into the alarm
    registry as alarm 4000 + fault-id. */
module FaultBridge {
  import opened Decimals
  import opened Options
  import opened OrderedDict
  import opened AlarmRegistry

  const FAULT_ALARM_BASE := 4000
  const FAULT_ID_LIMIT := 65536
  const STALE_MESSAGE := "not in the O-RU active-alarm-list at reconcile"

  type Source = Option<string>

  /** One fault as parsed from o-ran-fm: an alarm-notif, or an entry of the active-alarm-list. */
  datatype Alarm = Alarm(faultId: Option<int>, source: Source, isCleared: bool, severity: Option<string>, report: Leaves,
                         eventTime: Option<string>)

  /** The remaining o-ran-fm leaves of a report, all compared for change detection. */
  datatype Leaves = Leaves(text: Option<string>, affected: seq<string>, alarmType: Option<string>,
                           probableCause: Option<string>, specificProblem: Option<string>, repair: Option<string>,
                           extra: seq<Entry<string, string>>)

  datatype Report = Report(severity: Severity, leaves: Leaves, eventTime: Option<string>)

  type Sources = seq<Entry<Source, Report>>

  /** How the reports of a fault become an alarm's message and details: any function of them, as the
      registry only compares the outcome. */
  datatype Renderer = Renderer(message: Sources -> Option<string>, details: (int, Sources) -> map<string, string>)

  type Reg = Registry<string, map<string, string>>

  /** The bridge's bookkeeping together with the registry it mirrors into. */
  datatype Mirror = Mirror(known: set<int>, reports: map<int, Sources>, reg: Reg)

  /** The mirrored alarm of a fault. */
  function FaultState(reg: Reg, f: int): Option<AlarmState<string, map<string, string>>> {
    if FAULT_ALARM_BASE + f in reg.states then Some(reg.states[FAULT_ALARM_BASE + f]) else None
  }

  predicate FaultActive(reg: Reg, f: int) {
    FaultState(reg, f).Some? && FaultState(reg, f).value.active
  }

  // ----- Reports -----

  function SeverityOf(literal: Option<string>): Severity {
    if literal == Some("CRITICAL") then CRITICAL
    else if literal == Some("MAJOR") then MAJOR
    else if literal == Some("MINOR") then MINOR
    else if literal == Some("WARNING") then WARNING
    else INDETERMINATE
  }

  /** Most severe first; a report is never CLEARED. */
  function Rank(s: Severity): nat {
    match s
    case CRITICAL => 0
    case MAJOR => 1
    case MINOR => 2
    case WARNING => 3
    case INDETERMINATE => 4
    case CLEARED => 5
  }

  function ReportOf(a: Alarm): Report {
    Report(SeverityOf(a.severity), a.report, a.eventTime)
  }

  /** The fault-id when it is a uint16. */
  function FaultId(a: Alarm): Option<int> {
    if a.faultId.Some? && 0 <= a.faultId.value < FAULT_ID_LIMIT then a.faultId else None
  }

  /** A re-report that differs in its event-time only keeps the first report. */
  function Merge(previous: Option<Report>, report: Report): Report {
    if previous.Some? && previous.value.(eventTime := report.eventTime) == report then previous.value else report
  }

  function SourcesOf(reports: map<int, Sources>, f: int): Sources {
    if f in reports then reports[f] else []
  }

  // ----- Aggregation over sources -----

  predicate TextLess(a: string, b: string) {
    if b == "" then false
    else if a == "" then true
    else if a[0] != b[0] then a[0] < b[0]
    else TextLess(a[1..], b[1..])
  }

  function SourceText(s: Source): string {
    s.GetOr("None")
  }

  predicate RanksBefore(a: Entry<Source, Report>, b: Entry<Source, Report>) {
    || Rank(a.value.severity) < Rank(b.value.severity)
    || (a.value.severity == b.value.severity && TextLess(SourceText(a.key), SourceText(b.key)))
  }

  /** The report an alarm takes its severity and text from: the most severe, ties by source name. */
  function Leading(sources: Sources): (lead: Entry<Source, Report>)
    requires sources != []
    ensures lead in sources
    ensures forall e :: e in sources ==> Rank(lead.value.severity) <= Rank(e.value.severity)
  {
    if |sources| == 1 then sources[0]
    else
      var lead, last := Leading(sources[..|sources| - 1]), sources[|sources| - 1];
      assert forall e :: e in sources ==> e in sources[..|sources| - 1] || e == last;
      if RanksBefore(last, lead) then last else lead
  }

  // ----- The bridge -----

  /** The registry's type of an O-RU alarm-type; EQUIPMENT when the O-RU reports none it knows. */
  function KindOf(alarmType: Option<string>): string {
    if alarmType.Some? && alarmType.value in {
         "COMMUNICATIONS-ALARM", "PROCESSING-ERROR-ALARM", "ENVIRONMENTAL-ALARM", "QUALITY-OF-SERVICE-ALARM",
         "INTEGRITY-VIOLATION", "OPERATIONAL-VIOLATION", "PHYSICAL-VIOLATION",
         "SECURITY-SERVICE-OR-MECHANISM-VIOLATION", "TIME-DOMAIN-VIOLATION"}
    then alarmType.value else "EQUIPMENT-ALARM"
  }

  function FaultName(f: int): string {
    "RU_FAULT_" + IntText(f)
  }

  function EnsureRegistered(m: Mirror, f: int, severity: Severity, alarmType: Option<string>): Mirror {
    if f in m.known then m
    else
      var definition := Definition(FAULT_ALARM_BASE + f, FaultName(f), KindOf(alarmType), severity, NoChange);
      m.(known := m.known + {f}, reg := Apply(m.reg, RegisterSection(definition)))
  }

  /** Set the mirrored alarm to the aggregate of the sources. */
  function Raise(r: Renderer, m: Mirror, f: int, sources: Sources): Mirror
    requires sources != []
  {
    var lead := Leading(sources).value;
    var m1 := EnsureRegistered(m, f, lead.severity, lead.leaves.alarmType);
    m1.(reg := Apply(m1.reg, SetSection(FAULT_ALARM_BASE + f, Some(lead.severity), None, r.message(sources),
                                        Some(r.details(f, sources)))))
  }

  /** One live alarm-notif. */
  function Notify(r: Renderer, m: Mirror, a: Alarm): Mirror {
    var id := FaultId(a);
    if id.None? then m
    else
      var f, sources := id.value, SourcesOf(m.reports, id.value);
      if a.isCleared then
        if Get(sources, a.source).None? then m
        else
          var rest := Remove(sources, a.source);
          if rest != [] then Raise(r, m.(reports := m.reports[f := rest]), f, rest)
          else m.(reports := m.reports - {f},
                  reg := Apply(m.reg, ClearSection(FAULT_ALARM_BASE + f, a.report.text,
                                                   Some(r.details(f, [Entry(a.source, ReportOf(a))])))))
      else
        var updated := Put(sources, a.source, Merge(Get(sources, a.source), ReportOf(a)));
        Raise(r, m.(reports := m.reports[f := updated]), f, updated)
  }

  function NotifyAll(r: Renderer, m: Mirror, alarms: seq<Alarm>): Mirror {
    if alarms == [] then m else Notify(r, NotifyAll(r, m, alarms[..|alarms| - 1]), alarms[|alarms| - 1])
  }

  /** Bookkeeping as the bridge keeps it: uint16 fault-ids, each with at least one source, none twice. */
  ghost predicate Tidy(reports: map<int, Sources>) {
    forall f :: f in reports ==> 0 <= f < FAULT_ID_LIMIT && reports[f] != [] && Distinct(reports[f])
  }

  /** The reports of an active-alarm-list, each merged with the report held before. */
  function Collect(held: map<int, Sources>, listed: seq<Alarm>): (reports: map<int, Sources>)
    ensures Tidy(reports)
  {
    if listed == [] then map[]
    else
      var reports, a := Collect(held, listed[..|listed| - 1]), listed[|listed| - 1];
      if FaultId(a).None? || a.isCleared then reports
      else
        var f := FaultId(a).value;
        var report := Merge(Get(SourcesOf(held, f), a.source), ReportOf(a));
        PutKeepsDistinct(SourcesOf(reports, f), a.source, report);
        reports[f := Put(SourcesOf(reports, f), a.source, report)]
  }

  /** The mirrored faults an active-alarm-list no longer lists. */
  function StaleFaults(reg: Reg, reports: map<int, Sources>): set<int> {
    set f | 0 <= f < FAULT_ID_LIMIT && FaultActive(reg, f) && f !in reports
  }

  /** Raise the reported faults with an id below `limit`, in ascending order. */
  function RaiseBelow(r: Renderer, m: Mirror, limit: nat): Mirror
    requires Tidy(m.reports)
  {
    if limit == 0 then m
    else
      var earlier := RaiseBelow(r, m, limit - 1);
      if limit - 1 in m.reports then Raise(r, earlier, limit - 1, m.reports[limit - 1]) else earlier
  }

  function ClearStale(r: Renderer, m: Mirror, f: int): Mirror {
    m.(reg := Apply(m.reg, ClearSection(FAULT_ALARM_BASE + f, Some(STALE_MESSAGE), Some(r.details(f, [])))))
  }

  /** Clear the stale faults with an id below `limit`, in ascending order. */
  function ClearBelow(r: Renderer, m: Mirror, stale: set<int>, limit: nat): Mirror {
    if limit == 0 then m
    else
      var earlier := ClearBelow(r, m, stale, limit - 1);
      if limit - 1 in stale then ClearStale(r, earlier, limit - 1) else earlier
  }

  /** A connect cycle's reconciliation with the O-RU's active-alarm-list. */
  function Reconcile(r: Renderer, m: Mirror, listed: seq<Alarm>): Mirror {
    var collected := m.(reports := Collect(m.reports, listed));
    ClearBelow(r, RaiseBelow(r, collected, FAULT_ID_LIMIT), StaleFaults(m.reg, collected.reports), FAULT_ID_LIMIT)
  }
}
