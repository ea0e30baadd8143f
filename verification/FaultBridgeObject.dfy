/** The bridge object over a live alarm manager. */
module FaultBridgeObject {
  import opened Options
  import opened OrderedDict
  import opened AlarmRegistry
  import opened FaultBridge
  import opened FaultMirror

  class RuFaultBridge {
    const manager: AlarmManager<string, map<string, string>>
    const renderer: Renderer
    var known: set<int>
    var reports: map<int, Sources>

    ghost predicate Valid()
      reads this, manager
    {
      manager.Valid() && Tidy(reports) && KnownRegistered(State())
    }

    function State(): Mirror
      reads this, manager
    {
      Mirror(known, reports, manager.Reg())
    }

    /** A bridge created, or recreated, over any registry. */
    constructor (manager: AlarmManager<string, map<string, string>>, renderer: Renderer)
      requires manager.Valid()
      ensures Valid() && this.manager == manager && this.renderer == renderer
      ensures known == {} && reports == map[]
    {
      this.manager := manager;
      this.renderer := renderer;
      known, reports := {}, map[];
    }

    method EnsureRegisteredFault(f: int, severity: Severity, alarmType: Option<string>)
      requires manager.Valid()
      modifies this`known, manager
      ensures manager.Valid() && State() == EnsureRegistered(old(State()), f, severity, alarmType)
    {
      if f in known {
        return;
      }
      // an id registered earlier (a bridge recreated over a live manager) is reported and left alone
      var _ := manager.Register(Definition(FAULT_ALARM_BASE + f, FaultName(f), KindOf(alarmType), severity, NoChange));
      known := known + {f};
    }

    method RaiseFault(f: int, sources: Sources) returns (outcome: Outcome)
      requires manager.Valid() && sources != []
      modifies this`known, manager
      ensures manager.Valid() && State() == Raise(renderer, old(State()), f, sources)
    {
      var lead := Leading(sources).value;
      EnsureRegisteredFault(f, lead.severity, lead.leaves.alarmType);
      outcome := manager.SetAlarm(FAULT_ALARM_BASE + f, Some(lead.severity), None, renderer.message(sources),
                                  Some(renderer.details(f, sources)));
    }

    /** A live alarm-notif. The bookkeeping changes before the manager is called, so a failing notifier
        (outcome NotifierFailed) leaves the mirror in step with the registry. */
    method HandleAlarm(a: Alarm) returns (outcome: Outcome)
      requires Valid()
      modifies this, manager
      ensures Valid() && State() == Notify(renderer, old(State()), a)
      ensures old(Synced(renderer, State())) ==> Synced(renderer, State())
    {
      NotifyKeepsTidy(renderer, State(), a);
      if Synced(renderer, State()) {
        NotifyKeepsSynced(renderer, State(), a);
      }
      outcome := Unchanged;
      if FaultId(a).None? {
        return;
      }
      var f := FaultId(a).value;
      var sources := SourcesOf(reports, f);
      if a.isCleared {
        if Get(sources, a.source).None? {
          return;
        }
        sources := Remove(sources, a.source);
        if sources != [] {
          reports := reports[f := sources];
          outcome := RaiseFault(f, sources);
          return;
        }
        reports := reports - {f};
        outcome := manager.ClearAlarm(FAULT_ALARM_BASE + f, a.report.text,
                                      Some(renderer.details(f, [Entry(a.source, ReportOf(a))])));
      } else {
        sources := Put(sources, a.source, Merge(Get(sources, a.source), ReportOf(a)));
        reports := reports[f := sources];
        outcome := RaiseFault(f, sources);
      }
    }

    /** A connect cycle: synchronise with the O-RU's active-alarm-list; a refused read (None) keeps the
        mirror. A notifier failure on one update does not stop the sweep. */
    method HandleCycle(answer: Option<seq<Alarm>>)
      requires Valid()
      modifies this, manager
      ensures Valid()
      ensures State() == if answer.Some? then Reconcile(renderer, old(State()), answer.value) else old(State())
      ensures answer.Some? ==> Synced(renderer, State())
    {
      if answer.None? {
        return;
      }
      var listed := answer.value;
      ghost var before := State();
      ReconcileSyncs(renderer, before, listed);
      var collected: map<int, Sources> := map[];
      for k := 0 to |listed|
        invariant collected == Collect(before.reports, listed[..k])
      {
        assert listed[..k + 1][..k] == listed[..k];
        var a := listed[k];
        if FaultId(a).Some? && !a.isCleared {
          var f := FaultId(a).value;
          var report := Merge(Get(SourcesOf(reports, f), a.source), ReportOf(a));
          collected := collected[f := Put(SourcesOf(collected, f), a.source, report)];
        }
      }
      assert listed[..|listed|] == listed;
      reports := collected;
      ghost var start := State();
      var stale := StaleFaults(manager.Reg(), reports);
      for f := 0 to FAULT_ID_LIMIT
        invariant manager.Valid() && State() == RaiseBelow(renderer, start, f) && reports == collected
      {
        if f in reports {
          var _ := RaiseFault(f, reports[f]);
        }
      }
      ghost var raised := State();
      for f := 0 to FAULT_ID_LIMIT
        invariant manager.Valid() && State() == ClearBelow(renderer, raised, stale, f)
      {
        if f in stale {
          var _ := manager.ClearAlarm(FAULT_ALARM_BASE + f, Some(STALE_MESSAGE), Some(renderer.details(f, [])));
        }
      }
    }
  }
}
