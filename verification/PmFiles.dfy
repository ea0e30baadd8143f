/** File-based PM reporting: samples are gathered into granularity periods, and periods into files, on
    wall-clock boundaries that a late tick may find long past. */
module PmFiles {
  import opened Arithmetic
  import opened Options

  const TICKS_PER_SECOND := 1_000_000

  /** Instants are microseconds since the epoch. */
  type Instant = nat

  /** The first wall-clock multiple of `period` seconds strictly after now. */
  function NextBoundary(now: Instant, period: int): Instant
    requires 0 < period
  {
    (now / TICKS_PER_SECOND / period + 1) * period * TICKS_PER_SECOND
  }

  /** What a job reports by: granularity in seconds, file reporting period in minutes. */
  datatype Periods = Periods(granularity: int, reporting: int)
  {
    predicate Valid() {
      0 < granularity && 0 < reporting
    }

    function FileSeconds(): int {
      reporting * 60
    }

    /** Whether files hold whole granularity periods. */
    predicate Divides() {
      Valid() && FileSeconds() % granularity == 0
    }
  }

  /** The object a value was measured on, and the metric's name. */
  datatype Key = Key(measured: string, name: string)

  datatype Sample = Sample(key: Key, value: real)

  type Buffer = map<Key, seq<real>>

  /** A closed granularity period; its file shows the mean of each key's samples. */
  datatype Period = Period(end: Instant, samples: Buffer)

  /** A closed file window. Only one with periods is published. */
  datatype File = File(begin: Instant, end: Instant, periods: seq<Period>)

  /** The collection state of one job. */
  datatype Job = Job(key: Periods, samples: Buffer, periods: seq<Period>, begin: Instant,
                                periodEnd: Instant, fileEnd: Instant)

  function NewJob(key: Periods, now: Instant): Job
    requires key.Valid()
  {
    Job(key, map[], [], now, NextBoundary(now, key.granularity), NextBoundary(now, key.FileSeconds()))
  }

  function Of(samples: Buffer, k: Key): seq<real> {
    if k in samples then samples[k] else []
  }

  function Buffered(samples: Buffer, s: Sample): Buffer {
    samples[s.key := Of(samples, s.key) + [s.value]]
  }

  function Add(job: Job, s: Sample): Job {
    job.(samples := Buffered(job.samples, s))
  }

  /** The granularity half of a tick. */
  function ClosePeriod(job: Job, now: Instant): Job
    requires job.key.Valid()
  {
    if now < job.periodEnd then job
    else job.(periods := if job.samples == map[] then job.periods else job.periods + [Period(job.periodEnd, job.samples)],
           samples := map[],
           periodEnd := NextBoundary(now, job.key.granularity))
  }

  /** The file window a tick closes, if any. */
  function DueFile(job: Job, now: Instant): Option<File>
    requires job.key.Valid()
  {
    if now < job.fileEnd then None else Some(File(job.begin, job.fileEnd, ClosePeriod(job, now).periods))
  }

  function Tick(job: Job, now: Instant): Job
    requires job.key.Valid()
  {
    var closed := ClosePeriod(job, now);
    if now < job.fileEnd then closed
    else closed.(begin := job.fileEnd, periods := [], fileEnd := NextBoundary(now, job.key.FileSeconds()))
  }

  // ----- Arithmetic of boundaries -----

  /** In seconds: the boundary is the multiple of the period next after now. */
  lemma NextBoundaryInSeconds(seconds: nat, period: int)
    requires 0 < period
    ensures var b := (seconds / period + 1) * period;
            seconds < b <= seconds + period && b % period == 0
  {
    DivModUnique((seconds / period + 1) * period, period, seconds / period + 1, 0);
    Distribute(seconds / period, 1, period);
    assert seconds == seconds / period * period + seconds % period;
  }

  /** How NextBoundary relates now, two periods, and any later boundary. */
  lemma BoundaryIsAfter(now: Instant, period: int)
    requires 0 < period
    ensures now < NextBoundary(now, period) <= now + period * TICKS_PER_SECOND
  {
    NextBoundaryInSeconds(now / TICKS_PER_SECOND, period);
  }

  /** A boundary of the shorter period, when it divides the longer, is never past that of the longer. */
  lemma ShorterComesFirst(now: Instant, then_: Instant, key: Periods)
    requires key.Divides() && now < NextBoundary(then_, key.FileSeconds())
    ensures NextBoundary(now, key.granularity) <= NextBoundary(then_, key.FileSeconds())
  {
    var g, f := key.granularity, key.FileSeconds();
    var n, t := now / TICKS_PER_SECOND, then_ / TICKS_PER_SECOND;
    NextBoundaryInSeconds(n, g);
    NextBoundaryInSeconds(t, f);
    var short, long := (n / g + 1) * g, (t / f + 1) * f;
    assert n < long;
    MultipleOfMultiple(long, f, g);
    if long < short {
      MultiplesApart(long, short, g);
    }
  }

  // ----- Runs of one job -----

  datatype Op = AddSample(sample: Sample) | TickAt(now: Instant)

  /** What became of a job since it was started. */
  datatype Track = Track(job: Job, files: seq<File>, added: seq<Sample>, start: Instant,
                                    last: Instant)

  function StartTrack(key: Periods, now: Instant): Track
    requires key.Valid()
  {
    Track(NewJob(key, now), [], [], now, now)
  }

  function Follow(t: Track, op: Op): Track
    requires t.job.key.Valid()
  {
    match op
    case AddSample(s) => t.(job := Add(t.job, s), added := t.added + [s])
    case TickAt(now) =>
      var due := DueFile(t.job, now);
      t.(job := Tick(t.job, now), last := now, files := if due.Some? then t.files + [due.value] else t.files)
  }

  function FollowAll(key: Periods, start: Instant, ops: seq<Op>): (t: Track)
    requires key.Valid()
    ensures t.job.key == key
  {
    if ops == [] then StartTrack(key, start) else Follow(FollowAll(key, start, ops[..|ops| - 1]), ops[|ops| - 1])
  }

  /** Ticks never go back; they may come arbitrarily late. */
  predicate Ordered(start: Instant, ops: seq<Op>) {
    ops != [] ==>
      && Ordered(start, ops[..|ops| - 1])
      && (ops[|ops| - 1].TickAt? ==> LastTick(start, ops[..|ops| - 1]) <= ops[|ops| - 1].now)
  }

  function LastTick(start: Instant, ops: seq<Op>): Instant {
    if ops == [] then start
    else if ops[|ops| - 1].TickAt? then ops[|ops| - 1].now
    else LastTick(start, ops[..|ops| - 1])
  }

  /** The windows tile time from the start of the job to the open window. */
  ghost predicate Tiles(t: Track) {
    && (forall i :: 0 <= i < |t.files| ==> t.files[i].begin < t.files[i].end)
    && (forall i :: 0 <= i < |t.files| - 1 ==> t.files[i].end == t.files[i + 1].begin)
    && (if t.files == [] then t.job.begin == t.start
        else t.files[0].begin == t.start && t.files[|t.files| - 1].end == t.job.begin)
    && t.job.begin <= t.last < t.job.fileEnd && t.last < t.job.periodEnd
  }

  lemma FollowTiles(t: Track, op: Op)
    requires t.job.key.Valid() && Tiles(t) && (op.TickAt? ==> t.last <= op.now)
    ensures Tiles(Follow(t, op))
  {
    if op.TickAt? {
      BoundaryIsAfter(op.now, t.job.key.granularity);
      BoundaryIsAfter(op.now, t.job.key.FileSeconds());
    }
  }

  // ----- Conservation -----

  function ValuesOf(samples: seq<Sample>, k: Key): seq<real> {
    if samples == [] then []
    else
      var earlier, last := ValuesOf(samples[..|samples| - 1], k), samples[|samples| - 1];
      if last.key == k then earlier + [last.value] else earlier
  }

  function InPeriods(periods: seq<Period>, k: Key): seq<real> {
    if periods == [] then []
    else InPeriods(periods[..|periods| - 1], k) + Of(periods[|periods| - 1].samples, k)
  }

  function InFiles(files: seq<File>, k: Key): seq<real> {
    if files == [] then [] else InFiles(files[..|files| - 1], k) + InPeriods(files[|files| - 1].periods, k)
  }

  /** Each sample is in exactly one place: a closed file, a pending period or the open buffer, and the
      samples of a key keep their order across them. */
  ghost predicate Conserves(t: Track, k: Key) {
    InFiles(t.files, k) + InPeriods(t.job.periods, k) + Of(t.job.samples, k) == ValuesOf(t.added, k)
  }

  lemma ClosePeriodConserves(job: Job, now: Instant, k: Key)
    requires job.key.Valid()
    ensures var closed := ClosePeriod(job, now);
            InPeriods(closed.periods, k) + Of(closed.samples, k) == InPeriods(job.periods, k) + Of(job.samples, k)
  {
    var p := Period(job.periodEnd, job.samples);
    assert (job.periods + [p])[..|job.periods|] == job.periods;
  }

  lemma AddConserves(t: Track, s: Sample, k: Key)
    requires t.job.key.Valid() && Conserves(t, k)
    ensures Conserves(Follow(t, AddSample(s)), k)
  {
    assert (t.added + [s])[..|t.added|] == t.added;
    if s.key == k {
      var earlier := InFiles(t.files, k) + InPeriods(t.job.periods, k);
      assert earlier + (Of(t.job.samples, k) + [s.value]) == (earlier + Of(t.job.samples, k)) + [s.value];
    }
  }

  /** The granularity half of a tick moves samples from the buffer to a period. */
  lemma PeriodTickConserves(t: Track, now: Instant, k: Key)
    requires t.job.key.Valid() && Conserves(t, k)
    ensures Conserves(t.(job := ClosePeriod(t.job, now)), k)
  {
    var closed := ClosePeriod(t.job, now);
    ClosePeriodConserves(t.job, now, k);
    var files := InFiles(t.files, k);
    Regroup(files, InPeriods(t.job.periods, k), Of(t.job.samples, k));
    Regroup(files, InPeriods(closed.periods, k), Of(closed.samples, k));
  }

  lemma Regroup(a: seq<real>, b: seq<real>, c: seq<real>)
    ensures a + b + c == a + (b + c)
  {
  }

  /** The file half moves the periods to a file. */
  lemma FileTickConserves(files: seq<File>, file: File, k: Key)
    ensures InFiles(files + [file], k) + InPeriods([], k) == InFiles(files, k) + InPeriods(file.periods, k)
  {
    assert (files + [file])[..|files|] == files;
  }

  lemma TickConserves(t: Track, now: Instant, k: Key)
    requires t.job.key.Valid() && Conserves(t, k)
    ensures Conserves(Follow(t, TickAt(now)), k)
  {
    PeriodTickConserves(t, now, k);
    var closed, due, after := ClosePeriod(t.job, now), DueFile(t.job, now), Follow(t, TickAt(now));
    if due.Some? {
      assert after.files == t.files + [due.value] && after.job.periods == [] && after.job.samples == closed.samples;
      FileTickConserves(t.files, due.value, k);
    } else {
      assert after.files == t.files && after.job == closed;
    }
  }

  lemma FollowConserves(t: Track, op: Op, k: Key)
    requires t.job.key.Valid() && Conserves(t, k)
    ensures Conserves(Follow(t, op), k)
  {
    match op
    case AddSample(s) => AddConserves(t, s, k);
    case TickAt(now) => TickConserves(t, now, k);
  }

  // ----- Whole granularity periods -----

  /** Period ends strictly increase, within (begin, limit]. */
  ghost predicate Ends(periods: seq<Period>, begin: Instant, limit: Instant) {
    && (forall i :: 0 <= i < |periods| ==> begin < periods[i].end <= limit)
    && (forall i :: 0 <= i < |periods| - 1 ==> periods[i].end < periods[i + 1].end)
  }

  /** Every file's periods end within its window; the pending ones within the open window, before the next
      period end, which is not past the window's. */
  ghost predicate WholePeriods(t: Track) {
    && (forall i :: 0 <= i < |t.files| ==> Ends(t.files[i].periods, t.files[i].begin, t.files[i].end))
    && Ends(t.job.periods, t.job.begin, t.last)
    && t.job.periodEnd <= t.job.fileEnd
    && IsFileBoundary(t.job.fileEnd, t.job.key)
  }

  ghost predicate IsFileBoundary(end: Instant, key: Periods) {
    key.Valid() && exists since: Instant :: end == NextBoundary(since, key.FileSeconds())
  }

  lemma FollowKeepsWholePeriods(t: Track, op: Op)
    requires t.job.key.Divides() && Tiles(t) && WholePeriods(t) && (op.TickAt? ==> t.last <= op.now)
    ensures WholePeriods(Follow(t, op))
  {
    if op.TickAt? {
      var now, key := op.now, t.job.key;
      var next := Follow(t, op);
      var closed := ClosePeriod(t.job, now);
      assert Ends(closed.periods, t.job.begin, now);
      var since: Instant :| t.job.fileEnd == NextBoundary(since, key.FileSeconds());
      if now < t.job.fileEnd {
        if t.job.periodEnd <= now {
          ShorterComesFirst(now, since, key);
        }
      } else {
        BoundaryIsAfter(now, key.FileSeconds());
        ShorterComesFirst(now, now, key);
        assert Ends(closed.periods, t.job.begin, t.job.fileEnd);
        assert next.job.fileEnd == NextBoundary(now, key.FileSeconds());
      }
    }
  }

  // ----- Main results -----

  /** For every interleaving of samples and late, non-decreasing ticks. */
  lemma {:induction false} RunsTileAndConserve(key: Periods, start: Instant, ops: seq<Op>)
    requires key.Valid() && Ordered(start, ops)
    ensures var t := FollowAll(key, start, ops);
            && Tiles(t) && t.last == LastTick(start, ops)
            && (forall k :: Conserves(t, k))
            && (key.Divides() ==> WholePeriods(t))
  {
    if ops == [] {
      BoundaryIsAfter(start, key.granularity);
      BoundaryIsAfter(start, key.FileSeconds());
      if key.Divides() {
        ShorterComesFirst(start, start, key);
      }
    } else {
      var earlier, op := FollowAll(key, start, ops[..|ops| - 1]), ops[|ops| - 1];
      RunsTileAndConserve(key, start, ops[..|ops| - 1]);
      FollowTiles(earlier, op);
      forall k ensures Conserves(Follow(earlier, op), k) {
        FollowConserves(earlier, op, k);
      }
      if key.Divides() {
        FollowKeepsWholePeriods(earlier, op);
      }
    }
  }

  /** A window that held no period publishes no file; the published files are the others, in order. */
  function Published(files: seq<File>): seq<File> {
    if files == [] then []
    else
      var earlier, last := Published(files[..|files| - 1]), files[|files| - 1];
      if last.periods == [] then earlier else earlier + [last]
  }

  /** Skipping empty windows loses no sample. */
  lemma {:induction false} PublishedHoldAllSamples(files: seq<File>, k: Key)
    ensures InFiles(Published(files), k) == InFiles(files, k)
  {
    if files == [] {
    } else {
      var earlier, last := Published(files[..|files| - 1]), files[|files| - 1];
      PublishedHoldAllSamples(files[..|files| - 1], k);
      assert (earlier + [last])[..|earlier|] == earlier;
      assert InFiles(earlier, k) + [] == InFiles(earlier, k);
    }
  }

  // ----- The collector -----

  type Jobs = map<string, Job>

  ghost predicate AllValid(active: map<string, Periods>) {
    forall id :: id in active ==> active[id].Valid()
  }

  ghost predicate JobsValid(jobs: Jobs) {
    forall id :: id in jobs ==> jobs[id].key.Valid()
  }

  /** Jobs no longer active are dropped; a new one, or one whose periods changed, starts over. */
  ghost function Synced(jobs: Jobs, active: map<string, Periods>, now: Instant): Jobs
    requires AllValid(active)
  {
    map id | id in active :: if id in jobs && jobs[id].key == active[id] then jobs[id] else NewJob(active[id], now)
  }

  ghost function Ticked(jobs: Jobs, ids: set<string>, now: Instant): Jobs
    requires JobsValid(jobs)
  {
    map id | id in jobs :: if id in ids then Tick(jobs[id], now) else jobs[id]
  }

  ghost function Added(job: Job, samples: seq<Sample>): Job {
    if samples == [] then job else Add(Added(job, samples[..|samples| - 1]), samples[|samples| - 1])
  }

  class PmFiles {
    var jobs: Jobs

    constructor ()
      ensures jobs == map[]
    {
      jobs := map[];
    }

    /** Buffer one report's metrics for a job; ignored while the job is not collected. */
    method AddSamples(id: string, samples: seq<Sample>)
      modifies this
      ensures jobs == if id in old(jobs) then old(jobs)[id := Added(old(jobs)[id], samples)] else old(jobs)
    {
      if id !in jobs {
        return;
      }
      for k := 0 to |samples|
        invariant jobs == old(jobs)[id := Added(old(jobs)[id], samples[..k])]
      {
        assert samples[..k + 1][..k] == samples[..k];
        var job := jobs[id];
        jobs := jobs[id := job.(samples := Buffered(job.samples, samples[k]))];
      }
      assert samples[..|samples|] == samples;
    }

    method SyncJobs(active: map<string, Periods>, now: Instant)
      requires AllValid(active)
      modifies this
      ensures jobs == Synced(old(jobs), active, now)
    {
      var before := jobs;
      jobs := map id | id in jobs && id in active :: jobs[id];
      var todo := active.Keys;
      while todo != {}
        invariant todo <= active.Keys
        invariant forall id :: id in active && id !in todo ==> id in jobs && jobs[id] == Synced(before, active, now)[id]
        invariant forall id :: id in todo ==> (id in jobs <==> id in before) && (id in jobs ==> jobs[id] == before[id])
        invariant jobs.Keys <= active.Keys
        decreases todo
      {
        var id :| id in todo;
        if !(id in jobs && jobs[id].key == active[id]) {
          jobs := jobs[id := NewJob(active[id], now)];
        }
        todo := todo - {id};
      }
      assert jobs.Keys == active.Keys;
    }

    /** One tick of every job; the files to publish. */
    method TickJobs(now: Instant) returns (published: map<string, File>)
      requires JobsValid(jobs)
      modifies this
      ensures jobs == Ticked(old(jobs), old(jobs).Keys, now)
      ensures forall id :: id in published <==> id in old(jobs) && DueFile(old(jobs)[id], now).Some?
                                                && DueFile(old(jobs)[id], now).value.periods != []
      ensures forall id :: id in published ==> published[id] == DueFile(old(jobs)[id], now).value
    {
      published := map[];
      var before := jobs;
      var todo := jobs.Keys;
      while todo != {}
        invariant todo <= before.Keys && jobs.Keys == before.Keys
        invariant forall id :: id in before ==>
                                 jobs[id] == if id in todo then before[id] else Tick(before[id], now)
        invariant forall id :: id in published <==> id in before.Keys - todo && DueFile(before[id], now).Some?
                                                     && DueFile(before[id], now).value.periods != []
        invariant forall id :: id in published ==> published[id] == DueFile(before[id], now).value
        decreases todo
      {
        var id :| id in todo;
        var job := jobs[id];
        if now >= job.periodEnd {
          if job.samples != map[] {
            job := job.(periods := job.periods + [Period(job.periodEnd, job.samples)]);
          }
          job := job.(samples := map[], periodEnd := NextBoundary(now, job.key.granularity));
        }
        if now >= job.fileEnd {
          var file := File(job.begin, job.fileEnd, job.periods);
          job := job.(begin := job.fileEnd, periods := [], fileEnd := NextBoundary(now, job.key.FileSeconds()));
          if file.periods != [] {
            published := published[id := file];
          }
        }
        assert job == Tick(before[id], now);
        jobs := jobs[id := job];
        todo := todo - {id};
      }
    }
  }
}
