/** Runs of the collector over all its jobs: every job's collection is the run of its own operations since it
    was last started, whatever happens to the other jobs in between. */
module PmCollector {
  import opened Options
  import opened PmFiles

  /** One call on the collector. */
  datatype Call =
    | Report(id: string, samples: seq<Sample>)
    | Sync(active: map<string, Periods>, now: Instant)
    | TickAll(now: Instant)

  predicate ValidCall(call: Call) {
    call.Sync? ==> forall id :: id in call.active ==> call.active[id].Valid()
  }

  /** The jobs after a call, as the methods of the collector leave them. */
  ghost function Called(jobs: Jobs, call: Call): Jobs
    requires ValidCall(call) && JobsValid(jobs)
  {
    match call
    case Report(id, samples) => if id in jobs then jobs[id := Added(jobs[id], samples)] else jobs
    case Sync(active, now) => Synced(jobs, active, now)
    case TickAll(now) => Ticked(jobs, jobs.Keys, now)
  }

  /** The files a tick publishes for a job. */
  function PublishedBy(job: Job, now: Instant): seq<File>
    requires job.key.Valid()
  {
    var due := DueFile(job, now);
    if due.Some? && due.value.periods != [] then [due.value] else []
  }

  // ----- One job's own operations -----

  /** A job since its last start: its periods, when it was started, and what happened to it. */
  datatype History = History(key: Periods, start: Instant, ops: seq<Op>)

  function AddsOf(samples: seq<Sample>): (ops: seq<Op>)
    ensures |ops| == |samples|
  {
    seq(|samples|, i requires 0 <= i < |samples| => AddSample(samples[i]))
  }

  ghost function Remember(histories: map<string, History>, call: Call): map<string, History> {
    match call
    case Report(id, samples) =>
      if id in histories then histories[id := histories[id].(ops := histories[id].ops + AddsOf(samples))] else histories
    case Sync(active, now) =>
      map id | id in active ::
        if id in histories && histories[id].key == active[id] then histories[id] else History(active[id], now, [])
    case TickAll(now) => map id | id in histories :: histories[id].(ops := histories[id].ops + [TickAt(now)])
  }

  ghost function RememberAll(calls: seq<Call>): map<string, History> {
    if calls == [] then map[] else Remember(RememberAll(calls[..|calls| - 1]), calls[|calls| - 1])
  }

  ghost predicate HistoriesValid(histories: map<string, History>) {
    forall id :: id in histories ==> histories[id].key.Valid()
  }

  function TrackOf(h: History): Track
    requires h.key.Valid()
  {
    FollowAll(h.key, h.start, h.ops)
  }

  /** The collector's jobs, told from their histories. */
  ghost predicate Tells(histories: map<string, History>, jobs: Jobs) {
    && HistoriesValid(histories) && JobsValid(jobs) && histories.Keys == jobs.Keys
    && forall id :: id in jobs ==> jobs[id] == TrackOf(histories[id]).job
  }

  ghost function CalledAll(calls: seq<Call>): (jobs: Jobs)
    requires forall i :: 0 <= i < |calls| ==> ValidCall(calls[i])
    ensures JobsValid(jobs)
  {
    if calls == [] then map[]
    else
      var earlier := CalledAll(calls[..|calls| - 1]);
      CallKeepsJobsValid(earlier, calls[|calls| - 1]);
      Called(earlier, calls[|calls| - 1])
  }

  lemma {:induction false} AddedKeepsKey(job: Job, samples: seq<Sample>)
    ensures Added(job, samples).key == job.key
  {
    if samples == [] {
    } else {
      AddedKeepsKey(job, samples[..|samples| - 1]);
    }
  }

  lemma CallKeepsJobsValid(jobs: Jobs, call: Call)
    requires ValidCall(call) && JobsValid(jobs)
    ensures JobsValid(Called(jobs, call))
  {
    if call.Report? && call.id in jobs {
      AddedKeepsKey(jobs[call.id], call.samples);
    }
  }

  // ----- The clock -----

  /** The latest instant a run of calls has seen. */
  function Clock(calls: seq<Call>): Instant {
    if calls == [] then 0
    else if calls[|calls| - 1].Report? then Clock(calls[..|calls| - 1])
    else calls[|calls| - 1].now
  }

  /** Synchronisations and ticks never go back; ticks may come arbitrarily late. */
  predicate InTime(calls: seq<Call>) {
    calls != [] ==>
      && InTime(calls[..|calls| - 1])
      && (!calls[|calls| - 1].Report? ==> Clock(calls[..|calls| - 1]) <= calls[|calls| - 1].now)
  }

  ghost predicate HistoryInTime(h: History, clock: Instant) {
    Ordered(h.start, h.ops) && LastTick(h.start, h.ops) <= clock
  }

  // ----- Histories of several operations -----

  lemma {:induction false} FollowAdds(h: History, samples: seq<Sample>, clock: Instant)
    requires h.key.Valid() && HistoryInTime(h, clock)
    ensures var g := h.(ops := h.ops + AddsOf(samples));
            && TrackOf(g).job == Added(TrackOf(h).job, samples)
            && TrackOf(g).files == TrackOf(h).files
            && HistoryInTime(g, clock)
  {
    if samples == [] {
      assert h.ops + AddsOf(samples) == h.ops;
    } else {
      var earlier, last := samples[..|samples| - 1], samples[|samples| - 1];
      FollowAdds(h, earlier, clock);
      var ops := h.ops + AddsOf(earlier);
      assert h.ops + AddsOf(samples) == ops + [AddSample(last)];
      assert (ops + [AddSample(last)])[..|ops|] == ops;
    }
  }

  lemma FollowTick(h: History, now: Instant, clock: Instant)
    requires h.key.Valid() && HistoryInTime(h, clock) && clock <= now
    ensures var g := h.(ops := h.ops + [TickAt(now)]);
            && TrackOf(g).job == Tick(TrackOf(h).job, now)
            && Published(TrackOf(g).files) == Published(TrackOf(h).files) + PublishedBy(TrackOf(h).job, now)
            && HistoryInTime(g, now)
  {
    assert (h.ops + [TickAt(now)])[..|h.ops|] == h.ops;
    var due, files := DueFile(TrackOf(h).job, now), TrackOf(h).files;
    if due.Some? {
      assert (files + [due.value])[..|files|] == files;
    }
  }

  /** A call on the collector is, for each job, its own operations or a new start. */
  lemma CallTells(histories: map<string, History>, jobs: Jobs, call: Call, clock: Instant)
    requires Tells(histories, jobs) && ValidCall(call) && (!call.Report? ==> clock <= call.now)
    requires forall id :: id in histories ==> HistoryInTime(histories[id], clock)
    ensures Tells(Remember(histories, call), Called(jobs, call))
    ensures var after, time := Remember(histories, call), if call.Report? then clock else call.now;
            forall id :: id in after ==> HistoryInTime(after[id], time)
  {
    CallKeepsJobsValid(jobs, call);
    match call
    case Report(id, samples) => ReportTells(histories, jobs, id, samples, clock);
    case Sync(active, now) => SyncTells(histories, jobs, active, now, clock);
    case TickAll(now) => TickTells(histories, jobs, now, clock);
  }

  lemma ReportTells(histories: map<string, History>, jobs: Jobs, id: string, samples: seq<Sample>, clock: Instant)
    requires Tells(histories, jobs) && JobsValid(Called(jobs, Report(id, samples)))
    requires forall i :: i in histories ==> HistoryInTime(histories[i], clock)
    ensures Tells(Remember(histories, Report(id, samples)), Called(jobs, Report(id, samples)))
    ensures var after := Remember(histories, Report(id, samples)); forall i :: i in after ==> HistoryInTime(after[i], clock)
  {
    if id in histories {
      FollowAdds(histories[id], samples, clock);
    }
  }

  lemma SyncTells(histories: map<string, History>, jobs: Jobs, active: map<string, Periods>, now: Instant, clock: Instant)
    requires Tells(histories, jobs) && AllValid(active) && clock <= now && JobsValid(Called(jobs, Sync(active, now)))
    requires forall id :: id in histories ==> HistoryInTime(histories[id], clock)
    ensures Tells(Remember(histories, Sync(active, now)), Called(jobs, Sync(active, now)))
    ensures var after := Remember(histories, Sync(active, now)); forall id :: id in after ==> HistoryInTime(after[id], now)
  {
  }

  lemma TickTells(histories: map<string, History>, jobs: Jobs, now: Instant, clock: Instant)
    requires Tells(histories, jobs) && JobsValid(jobs) && clock <= now
    requires forall id :: id in histories ==> HistoryInTime(histories[id], clock)
    ensures Tells(Remember(histories, TickAll(now)), Called(jobs, TickAll(now)))
    ensures var after := Remember(histories, TickAll(now)); forall id :: id in after ==> HistoryInTime(after[id], now)
  {
    forall id | id in histories {
      FollowTick(histories[id], now, clock);
    }
  }

  /** After any calls, in time: each job is the run of its own operations since its last start. */
  lemma {:induction false} RunsTell(calls: seq<Call>)
    requires InTime(calls) && forall i :: 0 <= i < |calls| ==> ValidCall(calls[i])
    ensures Tells(RememberAll(calls), CalledAll(calls))
    ensures forall id :: id in RememberAll(calls) ==> HistoryInTime(RememberAll(calls)[id], Clock(calls))
  {
    if calls == [] {
    } else {
      var earlier := calls[..|calls| - 1];
      RunsTell(earlier);
      CallTells(RememberAll(earlier), CalledAll(earlier), calls[|calls| - 1], Clock(earlier));
    }
  }

  /** Hence for every job of a collector run: its windows tile time since it was last started, every sample
      reported to it since is in exactly one closed file, pending period or the open buffer, and when
      granularity divides the file period, its periods lie within their windows. */
  lemma CollectorRunsTileAndConserve(calls: seq<Call>, id: string)
    requires InTime(calls) && forall i :: 0 <= i < |calls| ==> ValidCall(calls[i])
    requires id in CalledAll(calls)
    ensures id in RememberAll(calls) && RememberAll(calls)[id].key.Valid()
    ensures var t := TrackOf(RememberAll(calls)[id]);
            && t.job == CalledAll(calls)[id]
            && Tiles(t) && (forall k :: Conserves(t, k)) && (t.job.key.Divides() ==> WholePeriods(t))
  {
    RunsTell(calls);
    var h := RememberAll(calls)[id];
    RunsTileAndConserve(h.key, h.start, h.ops);
  }

  /** What a tick publishes of a job is what its own run publishes next. */
  lemma TickPublishes(histories: map<string, History>, jobs: Jobs, id: string, now: Instant, clock: Instant)
    requires Tells(histories, jobs) && id in jobs && HistoryInTime(histories[id], clock) && clock <= now
    ensures var after := Remember(histories, TickAll(now));
            && id in after && after[id].key.Valid()
            && Published(TrackOf(after[id]).files)
               == Published(TrackOf(histories[id]).files) + PublishedBy(jobs[id], now)
  {
    FollowTick(histories[id], now, clock);
  }

  // ----- The collector itself -----

  function FilesOf(published: map<string, File>, id: string): seq<File> {
    if id in published then [published[id]] else []
  }

  /** One call, made on the collector; a tick hands over the files to publish. */
  method Perform(collector: PmFiles, call: Call) returns (published: map<string, File>)
    requires ValidCall(call) && JobsValid(collector.jobs)
    modifies collector
    ensures collector.jobs == Called(old(collector.jobs), call)
    ensures forall id :: id in published ==> id in old(collector.jobs)
    ensures forall id :: id in old(collector.jobs) ==>
              FilesOf(published, id) == if call.TickAll? then PublishedBy(old(collector.jobs)[id], call.now) else []
  {
    published := map[];
    match call {
      case Report(id, samples) => collector.AddSamples(id, samples);
      case Sync(active, now) => collector.SyncJobs(active, now);
      case TickAll(now) => published := collector.TickJobs(now);
    }
  }

  /** A run of calls on a new collector. */
  method Drive(calls: seq<Call>) returns (collector: PmFiles)
    requires forall i :: 0 <= i < |calls| ==> ValidCall(calls[i])
    ensures fresh(collector) && collector.jobs == CalledAll(calls)
  {
    collector := new PmFiles();
    for i := 0 to |calls|
      invariant fresh(collector) && collector.jobs == CalledAll(calls[..i])
    {
      assert calls[..i + 1][..i] == calls[..i];
      var _ := Perform(collector, calls[i]);
    }
    assert calls[..|calls|] == calls;
  }
}
