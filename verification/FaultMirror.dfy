/** The mirror refines a last-write-wins log of what the O-RU reported. */
module FaultMirror {
  import opened Options
  import opened OrderedDict
  import opened AlarmRegistry
  import opened FaultBridge

  /** The severity the mirror holds for a fault and source; None when it is not mirrored. */
  function Mirrored(reports: map<int, Sources>, f: int, source: Source): Option<Severity> {
    var held := Get(SourcesOf(reports, f), source);
    if held.Some? then Some(held.value.severity) else None
  }

  // ----- The log -----

  predicate Concerns(a: Alarm, f: int, source: Source) {
    FaultId(a) == Some(f) && a.source == source
  }

  /** What the active-alarm-list last says of a fault and source; residual cleared entries say nothing. */
  function Listed(listed: seq<Alarm>, f: int, source: Source): Option<Severity> {
    if listed == [] then None
    else
      var last := listed[|listed| - 1];
      if Concerns(last, f, source) && !last.isCleared then Some(SeverityOf(last.severity))
      else Listed(listed[..|listed| - 1], f, source)
  }

  /** What the last notification says of a fault and source, None after a clear; `before` if none does. */
  function LastReport(before: Option<Severity>, alarms: seq<Alarm>, f: int, source: Source): Option<Severity> {
    if alarms == [] then before
    else
      var last := alarms[|alarms| - 1];
      if !Concerns(last, f, source) then LastReport(before, alarms[..|alarms| - 1], f, source)
      else if last.isCleared then None
      else Some(SeverityOf(last.severity))
  }

  // ----- The invariant -----

  /** Every id the bridge believes registered is. A bridge starts with no such belief. */
  ghost predicate KnownRegistered(m: Mirror) {
    forall f :: f in m.known ==> FaultState(m.reg, f).Some?
  }

  /** The alarm of a fault as its sources demand it. */
  ghost predicate Settled(r: Renderer, reg: Reg, f: int, sources: Sources)
    requires sources != []
  {
    var state := FaultState(reg, f);
    && state.Some?
    && state.value.active
    && state.value.severity == Leading(sources).value.severity
    && state.value.trend == state.value.definition.defaultTrend
    && state.value.message == r.message(sources)
    && state.value.details == Some(r.details(f, sources))
  }

  ghost predicate FaultSynced(r: Renderer, m: Mirror, f: int)
    requires Tidy(m.reports)
  {
    if f in m.reports then f in m.known && Settled(r, m.reg, f, m.reports[f]) else !FaultActive(m.reg, f)
  }

  ghost predicate Synced(r: Renderer, m: Mirror) {
    && Tidy(m.reports)
    && KnownRegistered(m)
    && forall f :: 0 <= f < FAULT_ID_LIMIT ==> FaultSynced(r, m, f)
  }

  // ----- Steps -----

  /** Raising a fault settles its alarm and touches no other. */
  lemma RaiseSettles(r: Renderer, m: Mirror, f: int, sources: Sources)
    requires sources != [] && (f in m.known ==> FaultState(m.reg, f).Some?)
    ensures var after := Raise(r, m, f, sources);
            && after.reports == m.reports
            && after.known == m.known + {f}
            && Settled(r, after.reg, f, sources)
            && forall g :: g != f ==> FaultState(after.reg, g) == FaultState(m.reg, g)
  {
  }

  /** Clearing a fault leaves it inactive and touches no other. */
  lemma ClearSettles(reg: Reg, f: int, message: Option<string>, details: Option<map<string, string>>)
    ensures var after := Apply(reg, ClearSection(FAULT_ALARM_BASE + f, message, details));
            && !FaultActive(after, f)
            && (FaultState(after, f).Some? <==> FaultState(reg, f).Some?)
            && forall g :: g != f ==> FaultState(after, g) == FaultState(reg, g)
  {
  }

  /** A step that settles one fault according to its reports keeps the mirror in sync. */
  lemma OneFaultStep(r: Renderer, m: Mirror, after: Mirror, f: int)
    requires Synced(r, m) && Tidy(after.reports) && FaultSynced(r, after, f)
    requires m.known <= after.known <= m.known + {f}
    requires FaultState(m.reg, f).Some? || f in after.known ==> FaultState(after.reg, f).Some?
    requires forall g :: g != f ==> FaultState(after.reg, g) == FaultState(m.reg, g)
    requires forall g :: g != f ==> (g in after.reports <==> g in m.reports)
    requires forall g :: g != f && g in m.reports ==> after.reports[g] == m.reports[g]
    ensures Synced(r, after)
  {
    forall g | 0 <= g < FAULT_ID_LIMIT ensures FaultSynced(r, after, g) {
      assert FaultSynced(r, m, g);
    }
  }

  /** The clearance of a source that is mirrored. */
  lemma ClearanceKeepsSynced(r: Renderer, m: Mirror, a: Alarm, f: int)
    requires Synced(r, m) && a.isCleared && FaultId(a) == Some(f) && Get(SourcesOf(m.reports, f), a.source).Some?
    ensures Synced(r, Notify(r, m, a))
  {
    var sources := SourcesOf(m.reports, f);
    var rest := Remove(sources, a.source);
    RemoveKeepsDistinct(sources, a.source);
    if rest != [] {
      RaiseSettles(r, m.(reports := m.reports[f := rest]), f, rest);
    } else {
      ClearSettles(m.reg, f, a.report.text, Some(r.details(f, [Entry(a.source, ReportOf(a))])));
      assert FaultSynced(r, m, f);
    }
    OneFaultStep(r, m, Notify(r, m, a), f);
  }

  lemma NotifyKeepsSynced(r: Renderer, m: Mirror, a: Alarm)
    requires Synced(r, m)
    ensures Synced(r, Notify(r, m, a))
  {
    if FaultId(a).Some? {
      var f := FaultId(a).value;
      var sources := SourcesOf(m.reports, f);
      if a.isCleared {
        if Get(sources, a.source).Some? {
          ClearanceKeepsSynced(r, m, a, f);
        }
      } else {
        var report := Merge(Get(sources, a.source), ReportOf(a));
        PutKeepsDistinct(sources, a.source, report);
        var updated := Put(sources, a.source, report);
        RaiseSettles(r, m.(reports := m.reports[f := updated]), f, updated);
        OneFaultStep(r, m, Notify(r, m, a), f);
      }
    }
  }

  /** Even out of sync, a notification keeps the bookkeeping well-formed. */
  lemma NotifyKeepsTidy(r: Renderer, m: Mirror, a: Alarm)
    requires Tidy(m.reports) && KnownRegistered(m)
    ensures Tidy(Notify(r, m, a).reports) && KnownRegistered(Notify(r, m, a))
  {
    if FaultId(a).Some? {
      var f := FaultId(a).value;
      var sources := SourcesOf(m.reports, f);
      if a.isCleared {
        var rest := Remove(sources, a.source);
        RemoveKeepsDistinct(sources, a.source);
        if rest != [] {
          RaiseSettles(r, m.(reports := m.reports[f := rest]), f, rest);
        } else {
          ClearSettles(m.reg, f, a.report.text, Some(r.details(f, [Entry(a.source, ReportOf(a))])));
        }
      } else {
        var report := Merge(Get(sources, a.source), ReportOf(a));
        PutKeepsDistinct(sources, a.source, report);
        var updated := Put(sources, a.source, report);
        RaiseSettles(r, m.(reports := m.reports[f := updated]), f, updated);
      }
    }
  }

  /** One notification is one write to the log. */
  lemma NotifyIsLastWrite(r: Renderer, m: Mirror, a: Alarm, f: int, source: Source)
    ensures Mirrored(Notify(r, m, a).reports, f, source)
            == if !Concerns(a, f, source) then Mirrored(m.reports, f, source)
               else if a.isCleared then None
               else Some(SeverityOf(a.severity))
  {
    if FaultId(a) == Some(f) {
      if a.isCleared {
        ClearanceIsLastWrite(r, m, a, f, source);
      } else {
        RaiseIsLastWrite(r, m, a, f, source);
      }
    }
  }

  lemma ClearanceIsLastWrite(r: Renderer, m: Mirror, a: Alarm, f: int, source: Source)
    requires FaultId(a) == Some(f) && a.isCleared
    ensures Mirrored(Notify(r, m, a).reports, f, source) == if a.source == source then None else Mirrored(m.reports, f, source)
  {
    GetRemove(SourcesOf(m.reports, f), a.source, source);
  }

  lemma RaiseIsLastWrite(r: Renderer, m: Mirror, a: Alarm, f: int, source: Source)
    requires FaultId(a) == Some(f) && !a.isCleared
    ensures Mirrored(Notify(r, m, a).reports, f, source)
            == if a.source == source then Some(SeverityOf(a.severity)) else Mirrored(m.reports, f, source)
  {
    var sources := SourcesOf(m.reports, f);
    var report := Merge(Get(sources, a.source), ReportOf(a));
    GetPut(sources, a.source, report, source);
    assert Notify(r, m, a).reports == m.reports[f := Put(sources, a.source, report)];
  }

  lemma {:induction false} CollectIsLastWrite(held: map<int, Sources>, listed: seq<Alarm>, f: int, source: Source)
    ensures Mirrored(Collect(held, listed), f, source) == Listed(listed, f, source)
  {
    if listed == [] {
    } else {
      var earlier, a := Collect(held, listed[..|listed| - 1]), listed[|listed| - 1];
      CollectIsLastWrite(held, listed[..|listed| - 1], f, source);
      if FaultId(a) == Some(f) && !a.isCleared {
        GetPut(SourcesOf(earlier, f), a.source, Merge(Get(SourcesOf(held, f), a.source), ReportOf(a)), source);
      }
    }
  }

  // ----- Reconciliation -----

  /** After raising the faults below a limit: theirs are settled, the others' alarms are as before. */
  ghost predicate RaisedBelow(r: Renderer, m: Mirror, after: Mirror, limit: nat)
    requires Tidy(m.reports)
  {
    && after.reports == m.reports
    && KnownRegistered(after)
    && (forall f :: f in m.reports && f < limit ==> f in after.known && Settled(r, after.reg, f, m.reports[f]))
    && (forall f :: f !in m.reports || f >= limit ==> FaultState(after.reg, f) == FaultState(m.reg, f))
  }

  lemma RaiseOneMore(r: Renderer, m: Mirror, earlier: Mirror, f: nat)
    requires Tidy(m.reports) && RaisedBelow(r, m, earlier, f) && f in m.reports
    ensures RaisedBelow(r, m, Raise(r, earlier, f, m.reports[f]), f + 1)
  {
    var after := Raise(r, earlier, f, m.reports[f]);
    RaiseSettles(r, earlier, f, m.reports[f]);
    forall g | g in m.reports && g < f + 1 ensures g in after.known && Settled(r, after.reg, g, m.reports[g]) {
      assert g != f ==> FaultState(after.reg, g) == FaultState(earlier.reg, g);
    }
  }

  lemma {:induction false} RaiseBelowSettles(r: Renderer, m: Mirror, limit: nat)
    requires Tidy(m.reports) && KnownRegistered(m)
    ensures RaisedBelow(r, m, RaiseBelow(r, m, limit), limit)
  {
    if limit == 0 {
    } else {
      RaiseBelowSettles(r, m, limit - 1);
      if limit - 1 in m.reports {
        RaiseOneMore(r, m, RaiseBelow(r, m, limit - 1), limit - 1);
      }
    }
  }

  lemma {:induction false} ClearBelowClears(r: Renderer, m: Mirror, stale: set<int>, limit: nat)
    requires forall f :: f in stale ==> 0 <= f
    ensures var after := ClearBelow(r, m, stale, limit);
            && after.reports == m.reports && after.known == m.known
            && (forall f :: FaultState(m.reg, f).Some? ==> FaultState(after.reg, f).Some?)
            && (forall f :: f in stale && f < limit ==> !FaultActive(after.reg, f))
            && (forall f :: !(f in stale && f < limit) ==> FaultState(after.reg, f) == FaultState(m.reg, f))
  {
    if limit == 0 {
    } else {
      ClearBelowClears(r, m, stale, limit - 1);
      if limit - 1 in stale {
        ClearSettles(ClearBelow(r, m, stale, limit - 1).reg, limit - 1, Some(STALE_MESSAGE),
                     Some(r.details(limit - 1, [])));
      }
    }
  }

  /** Raising what is reported and clearing what is stale settles every fault below the limit. */
  lemma RaiseAndClear(r: Renderer, m: Mirror, stale: set<int>, limit: nat)
    requires Tidy(m.reports) && KnownRegistered(m)
    requires forall f :: f in stale <==> 0 <= f < limit && FaultActive(m.reg, f) && f !in m.reports
    ensures var after := ClearBelow(r, RaiseBelow(r, m, limit), stale, limit);
            && after.reports == m.reports
            && KnownRegistered(after)
            && forall f :: 0 <= f < limit ==> FaultSynced(r, after, f)
  {
    var raised := RaiseBelow(r, m, limit);
    RaiseBelowSettles(r, m, limit);
    ClearBelowClears(r, raised, stale, limit);
    var after := ClearBelow(r, raised, stale, limit);
    forall f | 0 <= f < limit ensures FaultSynced(r, after, f) {
      if f in m.reports {
        assert FaultState(after.reg, f) == FaultState(raised.reg, f);
      } else if f !in stale {
        assert FaultState(after.reg, f) == FaultState(m.reg, f);
      }
    }
  }

  /** From any bridge state over any live registry, reconciliation brings the mirror in sync: the active
      fault alarms become exactly the listed, uncleared faults. */
  lemma ReconcileSyncs(r: Renderer, m: Mirror, listed: seq<Alarm>)
    requires KnownRegistered(m)
    ensures Synced(r, Reconcile(r, m, listed))
    ensures Reconcile(r, m, listed).reports == Collect(m.reports, listed)
    ensures forall f :: 0 <= f < FAULT_ID_LIMIT ==>
                          (FaultActive(Reconcile(r, m, listed).reg, f)
                           <==> exists a :: a in listed && FaultId(a) == Some(f) && !a.isCleared)
  {
    var collected := m.(reports := Collect(m.reports, listed));
    RaiseAndClear(r, collected, StaleFaults(m.reg, collected.reports), FAULT_ID_LIMIT);
    var after := Reconcile(r, m, listed);
    forall f | 0 <= f < FAULT_ID_LIMIT
      ensures FaultActive(after.reg, f) <==> exists a :: a in listed && FaultId(a) == Some(f) && !a.isCleared
    {
      assert FaultSynced(r, after, f);
      CollectedIffListed(m.reports, listed, f);
    }
  }

  lemma {:induction false} CollectedIffListed(held: map<int, Sources>, listed: seq<Alarm>, f: int)
    ensures f in Collect(held, listed) <==> exists a :: a in listed && FaultId(a) == Some(f) && !a.isCleared
  {
    if listed == [] {
    } else {
      var last := listed[|listed| - 1];
      CollectedIffListed(held, listed[..|listed| - 1], f);
      assert forall a :: a in listed <==> a in listed[..|listed| - 1] || a == last;
    }
  }

  // ----- Main results -----

  /** In sync, an alarm is active iff some source is mirrored, at the most severe of them. */
  lemma SyncedAlarmAggregates(r: Renderer, m: Mirror, f: int)
    requires Synced(r, m) && 0 <= f < FAULT_ID_LIMIT
    ensures FaultActive(m.reg, f) <==> exists source :: Mirrored(m.reports, f, source).Some?
    ensures FaultActive(m.reg, f) ==>
              var severity := FaultState(m.reg, f).value.severity;
              && (exists source :: Mirrored(m.reports, f, source) == Some(severity))
              && (forall source :: Mirrored(m.reports, f, source).Some? ==>
                                     Rank(severity) <= Rank(Mirrored(m.reports, f, source).value))
  {
    assert FaultSynced(r, m, f);
    if f in m.reports {
      var sources := m.reports[f];
      var lead := Leading(sources);
      EntryIffGet(sources, lead.key, lead.value);
      assert Mirrored(m.reports, f, lead.key) == Some(lead.value.severity);
      forall source | Mirrored(m.reports, f, source).Some?
        ensures Rank(lead.value.severity) <= Rank(Mirrored(m.reports, f, source).value)
      {
        EntryIffGet(sources, source, Get(sources, source).value);
      }
    } else {
      assert forall source :: Mirrored(m.reports, f, source).None?;
    }
  }

  lemma {:induction false} NotifyAllIsLog(r: Renderer, m: Mirror, alarms: seq<Alarm>, f: int, source: Source)
    requires Synced(r, m)
    ensures Synced(r, NotifyAll(r, m, alarms))
    ensures Mirrored(NotifyAll(r, m, alarms).reports, f, source)
            == LastReport(Mirrored(m.reports, f, source), alarms, f, source)
  {
    if alarms == [] {
    } else {
      var earlier := NotifyAll(r, m, alarms[..|alarms| - 1]);
      NotifyAllIsLog(r, m, alarms[..|alarms| - 1], f, source);
      NotifyKeepsSynced(r, earlier, alarms[|alarms| - 1]);
      NotifyIsLastWrite(r, earlier, alarms[|alarms| - 1], f, source);
    }
  }

  /** After a reconciliation and any notifications, a fault and source is mirrored iff its last report was
      not a clear; the alarm is active iff some source is; and its severity is the most severe of them. */
  lemma MirrorRefinesLog(r: Renderer, m: Mirror, listed: seq<Alarm>, alarms: seq<Alarm>, f: int)
    requires KnownRegistered(m) && 0 <= f < FAULT_ID_LIMIT
    ensures var after := NotifyAll(r, Reconcile(r, m, listed), alarms);
            && (forall source :: Mirrored(after.reports, f, source)
                                 == LastReport(Listed(listed, f, source), alarms, f, source))
            && (FaultActive(after.reg, f)
                <==> exists source :: LastReport(Listed(listed, f, source), alarms, f, source).Some?)
            && (FaultActive(after.reg, f) ==>
                  var severity := FaultState(after.reg, f).value.severity;
                  && (exists source :: LastReport(Listed(listed, f, source), alarms, f, source) == Some(severity))
                  && forall source :: LastReport(Listed(listed, f, source), alarms, f, source).Some? ==>
                                        Rank(severity) <= Rank(LastReport(Listed(listed, f, source), alarms, f, source).value))
  {
    var reconciled := Reconcile(r, m, listed);
    var after := NotifyAll(r, reconciled, alarms);
    ReconcileSyncs(r, m, listed);
    forall source
      ensures Mirrored(after.reports, f, source) == LastReport(Listed(listed, f, source), alarms, f, source)
    {
      CollectIsLastWrite(m.reports, listed, f, source);
      NotifyAllIsLog(r, reconciled, alarms, f, source);
    }
    NotifyAllIsLog(r, reconciled, alarms, f, None);
    SyncedAlarmAggregates(r, after, f);
  }

  /** A cleared entry of the active-alarm-list is skipped, it does not undo an earlier uncleared one. */
  lemma ResidualClearIsIgnored(held: map<int, Sources>, a: Alarm)
    requires FaultId(a).Some? && !a.isCleared
    ensures Mirrored(Collect(held, [a, a.(isCleared := true)]), FaultId(a).value, a.source) == Some(SeverityOf(a.severity))
  {
    var listed := [a, a.(isCleared := true)];
    CollectIsLastWrite(held, listed, FaultId(a).value, a.source);
    assert listed[..1] == [a];
  }

  // ----- A second reconciliation -----

  /** The same list read again: only event-times may differ. */
  ghost predicate SameButTimes(listed: seq<Alarm>, again: seq<Alarm>) {
    && |listed| == |again|
    && forall i :: 0 <= i < |listed| ==> again[i] == listed[i].(eventTime := again[i].eventTime)
  }

  function Keys(sources: Sources): seq<Source> {
    if sources == [] then [] else [sources[0].key] + Keys(sources[1..])
  }

  lemma {:induction false} PutKeys(a: Sources, b: Sources, k: Source, v: Report, w: Report)
    requires Keys(a) == Keys(b)
    ensures Keys(Put(a, k, v)) == Keys(Put(b, k, w))
  {
    if a == [] {
      assert b == [];
      assert Put(a, k, v)[1..] == [] == Put(b, k, w)[1..];
    } else {
      assert Keys(a)[0] == Keys(b)[0] && Keys(a)[1..] == Keys(a[1..]) && Keys(b)[1..] == Keys(b[1..]);
      if a[0].key == k {
        assert Put(a, k, v)[1..] == a[1..] && Put(b, k, w)[1..] == b[1..];
      } else {
        PutKeys(a[1..], b[1..], k, v, w);
        assert Put(a, k, v)[1..] == Put(a[1..], k, v) && Put(b, k, w)[1..] == Put(b[1..], k, w);
      }
    }
  }

  /** Dictionaries with the same keys in the same order and the same values are the same. */
  lemma {:induction false} SameDictionary(a: Sources, b: Sources)
    requires Distinct(a) && Distinct(b) && Keys(a) == Keys(b)
    requires forall k :: Get(a, k) == Get(b, k)
    ensures a == b
  {
    if a == [] {
      assert b == [];
    } else {
      assert Keys(a)[0] == Keys(b)[0] && Keys(a)[1..] == Keys(a[1..]) && Keys(b)[1..] == Keys(b[1..]);
      assert Get(a, a[0].key) == Get(b, a[0].key);
      forall k ensures Get(a[1..], k) == Get(b[1..], k) {
        assert Get(a, k) == Get(b, k);
      }
      SameDictionary(a[1..], b[1..]);
    }
  }

  /** One entry of a list, collected over the reports of those before it. */
  lemma CollectedLast(held: map<int, Sources>, listed: seq<Alarm>, f: int)
    requires listed != []
    ensures var earlier, a := Collect(held, listed[..|listed| - 1]), listed[|listed| - 1];
            if FaultId(a) == Some(f) && !a.isCleared
            then && f in Collect(held, listed)
                 && SourcesOf(Collect(held, listed), f)
                    == Put(SourcesOf(earlier, f), a.source, Merge(Get(SourcesOf(held, f), a.source), ReportOf(a)))
            else && (f in Collect(held, listed) <==> f in earlier)
                 && SourcesOf(Collect(held, listed), f) == SourcesOf(earlier, f)
  {
  }

  /** The order of sources depends on the list alone, not on what was held before. */
  lemma {:induction false} CollectedKeys(held: map<int, Sources>, held': map<int, Sources>, listed: seq<Alarm>,
                                         again: seq<Alarm>, f: int)
    requires SameButTimes(listed, again)
    ensures f in Collect(held, listed) <==> f in Collect(held', again)
    ensures Keys(SourcesOf(Collect(held, listed), f)) == Keys(SourcesOf(Collect(held', again), f))
  {
    if listed == [] {
    } else {
      var n := |listed| - 1;
      CollectedKeys(held, held', listed[..n], again[..n], f);
      CollectedLast(held, listed, f);
      CollectedLast(held', again, f);
      if FaultId(listed[n]) == Some(f) && !listed[n].isCleared {
        PutKeys(SourcesOf(Collect(held, listed[..n]), f), SourcesOf(Collect(held', again[..n]), f), listed[n].source,
                Merge(Get(SourcesOf(held, f), listed[n].source), ReportOf(listed[n])),
                Merge(Get(SourcesOf(held', f), listed[n].source), ReportOf(again[n])));
      }
    }
  }

  /** The last uncleared entry of a list for a fault and source. */
  function LastEntry(listed: seq<Alarm>, f: int, source: Source): Option<Alarm> {
    if listed == [] then None
    else
      var last := listed[|listed| - 1];
      if Concerns(last, f, source) && !last.isCleared then Some(last)
      else LastEntry(listed[..|listed| - 1], f, source)
  }

  lemma {:induction false} CollectedValue(held: map<int, Sources>, listed: seq<Alarm>, f: int, source: Source)
    ensures Get(SourcesOf(Collect(held, listed), f), source)
            == match LastEntry(listed, f, source)
               case None => None
               case Some(a) => Some(Merge(Get(SourcesOf(held, f), source), ReportOf(a)))
  {
    if listed == [] {
    } else {
      var earlier, a := Collect(held, listed[..|listed| - 1]), listed[|listed| - 1];
      CollectedValue(held, listed[..|listed| - 1], f, source);
      if FaultId(a) == Some(f) && !a.isCleared {
        GetPut(SourcesOf(earlier, f), a.source, Merge(Get(SourcesOf(held, f), a.source), ReportOf(a)), source);
      }
    }
  }

  lemma {:induction false} SameLastEntry(listed: seq<Alarm>, again: seq<Alarm>, f: int, source: Source)
    requires SameButTimes(listed, again)
    ensures match LastEntry(listed, f, source)
            case None => LastEntry(again, f, source).None?
            case Some(a) => && LastEntry(again, f, source).Some?
                            && LastEntry(again, f, source).value == a.(eventTime := LastEntry(again, f, source).value.eventTime)
  {
    if listed == [] {
    } else {
      SameLastEntry(listed[..|listed| - 1], again[..|listed| - 1], f, source);
    }
  }

  lemma CollectTwice(held: map<int, Sources>, listed: seq<Alarm>, again: seq<Alarm>)
    requires SameButTimes(listed, again)
    ensures Collect(Collect(held, listed), again) == Collect(held, listed)
  {
    var once := Collect(held, listed);
    var twice := Collect(once, again);
    forall f ensures f in twice <==> f in once
             ensures f in once ==> twice[f] == once[f]
    {
      CollectedKeys(held, once, listed, again, f);
      forall source ensures Get(SourcesOf(twice, f), source) == Get(SourcesOf(once, f), source) {
        CollectedValue(held, listed, f, source);
        CollectedValue(once, again, f, source);
        SameLastEntry(listed, again, f, source);
      }
      if f in once {
        SameDictionary(twice[f], once[f]);
      }
    }
  }

  lemma {:induction false} RaiseBelowIsSettled(r: Renderer, m: Mirror, limit: nat)
    requires Synced(r, m)
    ensures RaiseBelow(r, m, limit) == m
  {
    if limit == 0 {
    } else {
      RaiseBelowIsSettled(r, m, limit - 1);
      if limit - 1 in m.reports {
        assert FaultSynced(r, m, limit - 1);
      }
    }
  }

  lemma {:induction false} NothingToClear(r: Renderer, m: Mirror, limit: nat)
    ensures ClearBelow(r, m, {}, limit) == m
  {
    if limit == 0 {
    } else {
      NothingToClear(r, m, limit - 1);
    }
  }

  /** Reconciling the same list again, differing only in event-times, changes nothing at all: no event is
      emitted, whatever the bridge and the registry held before the first time. */
  lemma SecondReconcileIsSilent(r: Renderer, m: Mirror, listed: seq<Alarm>, again: seq<Alarm>)
    requires KnownRegistered(m) && SameButTimes(listed, again)
    ensures Reconcile(r, Reconcile(r, m, listed), again) == Reconcile(r, m, listed)
  {
    var once := Reconcile(r, m, listed);
    ReconcileSyncs(r, m, listed);
    CollectTwice(m.reports, listed, again);
    RaiseBelowIsSettled(r, once, FAULT_ID_LIMIT);
    assert StaleFaults(once.reg, once.reports) == {} by {
      forall f | 0 <= f < FAULT_ID_LIMIT && f !in once.reports ensures !FaultActive(once.reg, f) {
        assert FaultSynced(r, once, f);
      }
    }
    NothingToClear(r, once, FAULT_ID_LIMIT);
  }
}
