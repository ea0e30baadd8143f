/** Where the boundaries of PM periods and files lie, over every run of a job, however late its ticks come. */
module PmBoundaries {
  import opened Arithmetic
  import opened Options
  import opened PmFiles

  /** A whole number of periods since the epoch. */
  predicate Aligned(at: Instant, period: int)
    requires 0 < period
  {
    at % (period * TICKS_PER_SECOND) == 0
  }

  lemma BoundaryIsMultiple(now: Instant, period: int)
    requires 0 < period
    ensures Aligned(NextBoundary(now, period), period)
  {
    var k := now / TICKS_PER_SECOND / period + 1;
    Reassociate(k, period, TICKS_PER_SECOND);
    DivModUnique(NextBoundary(now, period), period * TICKS_PER_SECOND, k, 0);
  }

  /** The boundary is the first multiple of the period after now. */
  lemma BoundaryIsFirst(now: Instant, period: int, at: Instant)
    requires 0 < period
    ensures now < NextBoundary(now, period) && Aligned(NextBoundary(now, period), period)
    ensures now < at && Aligned(at, period) ==> NextBoundary(now, period) <= at
  {
    var d, b := period * TICKS_PER_SECOND, NextBoundary(now, period);
    BoundaryIsAfter(now, period);
    BoundaryIsMultiple(now, period);
    if now < at < b && Aligned(at, period) {
      MultiplesApart(at, b, d);
    }
  }

  /** Until a boundary is reached it stays the next one. */
  lemma BoundaryStays(earlier: Instant, now: Instant, period: int)
    requires 0 < period && earlier <= now < NextBoundary(earlier, period)
    ensures NextBoundary(now, period) == NextBoundary(earlier, period)
  {
    BoundaryIsFirst(earlier, period, NextBoundary(now, period));
    BoundaryIsFirst(now, period, NextBoundary(earlier, period));
  }

  /** Periods that hold samples and end on boundaries of the granularity. */
  ghost predicate PeriodsAligned(periods: seq<Period>, key: Periods)
    requires key.Valid()
  {
    forall i :: 0 <= i < |periods| ==> Aligned(periods[i].end, key.granularity) && periods[i].samples != map[]
  }

  /** What is open ends at the first boundaries after the last tick; all that is closed ended on one. */
  ghost predicate OnBoundaries(t: Track)
    requires t.job.key.Valid()
  {
    && t.job.periodEnd == NextBoundary(t.last, t.job.key.granularity)
    && t.job.fileEnd == NextBoundary(t.last, t.job.key.FileSeconds())
    && PeriodsAligned(t.job.periods, t.job.key)
    && FilesAligned(t.files, t.job.key)
  }

  ghost predicate FilesAligned(files: seq<File>, key: Periods)
    requires key.Valid()
  {
    forall i :: 0 <= i < |files| ==> Aligned(files[i].end, key.FileSeconds()) && PeriodsAligned(files[i].periods, key)
  }

  lemma ClosedPeriodAligned(job: Job, now: Instant, last: Instant)
    requires job.key.Valid() && last <= now
    requires job.periodEnd == NextBoundary(last, job.key.granularity) && PeriodsAligned(job.periods, job.key)
    ensures var closed := ClosePeriod(job, now);
            closed.periodEnd == NextBoundary(now, job.key.granularity) && PeriodsAligned(closed.periods, job.key)
  {
    BoundaryIsMultiple(last, job.key.granularity);
    if now < job.periodEnd {
      BoundaryStays(last, now, job.key.granularity);
    }
  }

  lemma TickKeepsBoundaries(t: Track, now: Instant)
    requires t.job.key.Valid() && OnBoundaries(t) && t.last <= now
    ensures OnBoundaries(Follow(t, TickAt(now)))
  {
    ClosedPeriodAligned(t.job, now, t.last);
    BoundaryIsMultiple(t.last, t.job.key.FileSeconds());
    if now < t.job.fileEnd {
      BoundaryStays(t.last, now, t.job.key.FileSeconds());
    }
  }

  /** For any periods, and every interleaving of samples and late ticks: the open period and the open file end at the first
      multiples of theirs after the last tick, and every closed one ended on such a multiple; closed periods hold
      samples. */
  lemma {:induction false} RunsKeepBoundaries(key: Periods, start: Instant, ops: seq<Op>)
    requires key.Valid() && Ordered(start, ops)
    ensures OnBoundaries(FollowAll(key, start, ops))
  {
    if ops == [] {
    } else {
      var earlier, op := ops[..|ops| - 1], ops[|ops| - 1];
      RunsKeepBoundaries(key, start, earlier);
      RunsTileAndConserve(key, start, earlier);
      if op.TickAt? {
        TickKeepsBoundaries(FollowAll(key, start, earlier), op.now);
      }
    }
  }

  // ----- Starting over -----

  /** After a synchronisation exactly the active jobs are collected: one with the periods it had goes on as it was; any
      other starts over now, with nothing gathered. */
  lemma SyncStartsOver(jobs: Jobs, active: map<string, Periods>, now: Instant, id: string)
    requires AllValid(active) && JobsValid(jobs)
    ensures var after := Synced(jobs, active, now);
            && (id in after <==> id in active)
            && (id in active && id in jobs && jobs[id].key == active[id] ==> after[id] == jobs[id])
            && (id in active && (id !in jobs || jobs[id].key != active[id]) ==>
                  && after[id].key == active[id]
                  && after[id].samples == map[] && after[id].periods == [] && after[id].begin == now
                  && StartsAt(after[id], now))
  {
    if id in active {
      BoundaryIsFirst(now, active[id].granularity, 0);
      BoundaryIsFirst(now, active[id].FileSeconds(), 0);
      forall at: Instant
        ensures now < at && Aligned(at, active[id].granularity) ==> NextBoundary(now, active[id].granularity) <= at
        ensures now < at && Aligned(at, active[id].FileSeconds()) ==> NextBoundary(now, active[id].FileSeconds()) <= at
      {
        BoundaryIsFirst(now, active[id].granularity, at);
        BoundaryIsFirst(now, active[id].FileSeconds(), at);
      }
    }
  }

  /** The job's first period and file end at the first multiples of theirs after now. */
  ghost predicate StartsAt(job: Job, now: Instant) {
    job.key.Valid() && FirstAfter(now, job.key.granularity, job.periodEnd) && FirstAfter(now, 60 * job.key.reporting, job.fileEnd)
  }

  ghost predicate FirstAfter(now: Instant, period: int, end: Instant)
    requires 0 < period
  {
    now < end && Aligned(end, period) && forall at: Instant :: now < at && Aligned(at, period) ==> end <= at
  }
}
