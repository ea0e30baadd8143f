/** Failure ratios of cumulative counters: increases are gathered into windows of at least min_attempts
    attempts, and each full window is judged once. Counts are reals: no rounding is involved. */
module FailureWindows {
  import opened Options
  import opened AlarmRegistry

  type Counts = map<string, real>

  /** One report: the attempts and the failures per cause since the gNB started. */
  datatype Report = Report(attempted: real, failed: Counts)

  datatype Window = Window(attempted: real, failed: Counts)

  function Count(counts: Counts, cause: string): real {
    if cause in counts then counts[cause] else 0.0
  }

  function Positive(x: real): real {
    if x > 0.0 then x else 0.0
  }

  /** The attempts a window must hold before it is judged: the least number that is no fewer than one and no
      fewer than configured. */
  function Quorum(minAttempts: int): (q: real)
    ensures q >= 1.0 && q >= minAttempts as real
    ensures q == 1.0 || q == minAttempts as real
  {
    (if minAttempts < 1 then 1 else minAttempts) as real
  }

  /** The counts last reported, and the increase gathered since the last judgement. */
  datatype Gathered = Gathered(last: Report, pending: Window)

  function Baseline(r: Report): Gathered {
    Gathered(r, Window(0.0, map[]))
  }

  /** The gathered failures with the increase of some of the causes added; a fall counts as none. */
  function GrownBy(g: Gathered, failed: Counts, causes: set<string>): Counts
    requires causes <= failed.Keys
  {
    map c | c in g.pending.failed.Keys + causes ::
      Count(g.pending.failed, c) + if c in causes then Positive(failed[c] - Count(g.last.failed, c)) else 0.0
  }

  /** The pending window with the increase up to a report added. */
  function Grown(g: Gathered, r: Report): Window {
    Window(g.pending.attempted + (r.attempted - g.last.attempted), GrownBy(g, r.failed, r.failed.Keys))
  }

  lemma GrownByOneMore(g: Gathered, failed: Counts, causes: set<string>, cause: string)
    requires causes <= failed.Keys && cause in failed && cause !in causes
    ensures GrownBy(g, failed, causes + {cause})
            == var grown := GrownBy(g, failed, causes);
               grown[cause := Count(grown, cause) + Positive(failed[cause] - Count(g.last.failed, cause))]
  {
    var grown := GrownBy(g, failed, causes);
    assert Count(grown, cause) == Count(g.pending.failed, cause);
  }

  /** The stored counts of one source, updated in place. */
  class CumulativeFailures {
    var attempted: real
    var failed: Counts
    var windowAttempted: real
    var windowFailed: Counts

    function State(): Gathered
      reads this
    {
      Gathered(Report(attempted, failed), Window(windowAttempted, windowFailed))
    }

    constructor (r: Report)
      ensures State() == Baseline(r)
    {
      attempted, failed := r.attempted, r.failed;
      windowAttempted, windowFailed := 0.0, map[];
    }

    /** Gather the increase up to the report; hand over the window once it holds the quorum. */
    method Add(r: Report, minAttempts: int) returns (window: Option<Window>)
      modifies this
      ensures var grown := Grown(old(State()), r);
              if grown.attempted < Quorum(minAttempts) then window == None && State() == Gathered(r, grown)
              else window == Some(grown) && State() == Baseline(r)
    {
      ghost var before := State();
      assert GrownBy(before, r.failed, {}) == windowFailed;
      windowAttempted := windowAttempted + (r.attempted - attempted);
      var causes := r.failed.Keys;
      while causes != {}
        invariant causes <= r.failed.Keys
        invariant windowFailed == GrownBy(before, r.failed, r.failed.Keys - causes)
        invariant failed == before.last.failed
        invariant windowAttempted == before.pending.attempted + (r.attempted - before.last.attempted)
        decreases causes
      {
        var cause :| cause in causes;
        GrownByOneMore(before, r.failed, r.failed.Keys - causes, cause);
        assert r.failed.Keys - (causes - {cause}) == r.failed.Keys - causes + {cause};
        windowFailed := windowFailed[cause := Count(windowFailed, cause)
                                              + Positive(r.failed[cause] - Count(failed, cause))];
        causes := causes - {cause};
      }
      assert r.failed.Keys - causes == r.failed.Keys;
      attempted, failed := r.attempted, r.failed;
      if windowAttempted < Quorum(minAttempts) {
        return None;
      }
      window := Some(Window(windowAttempted, windowFailed));
      windowAttempted, windowFailed := 0.0, map[];
    }
  }

  // ----- Runs between baselines -----

  /** What happened since the last baseline: the reports, the windows handed over, the state. */
  datatype Track = Track(reports: seq<Report>, handed: seq<Window>, state: Gathered)

  /** One report of a source: the first one, or one that went backwards (the gNB restarted), is a new
      baseline. */
  function Observe(t: Option<Track>, r: Report, minAttempts: int): Track {
    if t.None? || r.attempted < t.value.state.last.attempted then Track([r], [], Baseline(r))
    else
      var track, grown := t.value, Grown(t.value.state, r);
      if grown.attempted < Quorum(minAttempts) then
        Track(track.reports + [r], track.handed, Gathered(r, grown))
      else Track(track.reports + [r], track.handed + [grown], Baseline(r))
  }

  function ObserveAll(reports: seq<Report>, minAttempts: int): Option<Track> {
    if reports == [] then None
    else Some(Observe(ObserveAll(reports[..|reports| - 1], minAttempts), reports[|reports| - 1], minAttempts))
  }

  function AttemptsIn(windows: seq<Window>): real {
    if windows == [] then 0.0 else AttemptsIn(windows[..|windows| - 1]) + windows[|windows| - 1].attempted
  }

  function FailuresIn(windows: seq<Window>, cause: string): real {
    if windows == [] then 0.0
    else FailuresIn(windows[..|windows| - 1], cause) + Count(windows[|windows| - 1].failed, cause)
  }

  /** How far the count of a cause fell back, added up over a run; a missing cause counts zero. */
  function Drops(reports: seq<Report>, cause: string): (d: real)
    ensures d >= 0.0
  {
    if |reports| <= 1 then 0.0
    else
      var n := |reports|;
      Drops(reports[..n - 1], cause)
      + Positive(Count(reports[n - 2].failed, cause) - Count(reports[n - 1].failed, cause))
  }

  ghost predicate NonNegative(counts: Counts) {
    forall c :: c in counts ==> counts[c] >= 0.0
  }

  /** No attempt is lost or judged twice; the failures of a cause exceed its increase by what it dropped. */
  ghost predicate Conserved(t: Track, minAttempts: int) {
    && AttemptsConserved(t, minAttempts)
    && forall cause :: CauseConserved(t, cause)
  }

  ghost predicate AttemptsConserved(t: Track, minAttempts: int) {
    && t.reports != [] && t.state.last == t.reports[|t.reports| - 1]
    && AttemptsIn(t.handed) + t.state.pending.attempted == t.state.last.attempted - t.reports[0].attempted
    && 0.0 <= t.state.pending.attempted < Quorum(minAttempts)
    && (forall i :: 0 <= i < |t.handed| ==> t.handed[i].attempted >= Quorum(minAttempts))
  }

  ghost predicate CauseConserved(t: Track, cause: string) {
    && t.reports != []
    && FailuresIn(t.handed, cause) + Count(t.state.pending.failed, cause)
       == Count(t.state.last.failed, cause) - Count(t.reports[0].failed, cause) + Drops(t.reports, cause)
  }

  lemma GrownCount(g: Gathered, r: Report, cause: string)
    requires NonNegative(g.last.failed)
    ensures Count(Grown(g, r).failed, cause)
            == Count(g.pending.failed, cause) + Positive(Count(r.failed, cause) - Count(g.last.failed, cause))
  {
  }

  lemma AppendedReport(reports: seq<Report>, r: Report, cause: string)
    requires reports != []
    ensures Drops(reports + [r], cause)
            == Drops(reports, cause) + Positive(Count(reports[|reports| - 1].failed, cause) - Count(r.failed, cause))
  {
    assert (reports + [r])[..|reports|] == reports;
  }

  lemma AppendedWindow(windows: seq<Window>, w: Window, cause: string)
    ensures AttemptsIn(windows + [w]) == AttemptsIn(windows) + w.attempted
    ensures FailuresIn(windows + [w], cause) == FailuresIn(windows, cause) + Count(w.failed, cause)
  {
    assert (windows + [w])[..|windows|] == windows;
  }

  lemma ObserveConservesAttempts(t: Track, r: Report, minAttempts: int)
    requires AttemptsConserved(t, minAttempts)
    ensures AttemptsConserved(Observe(Some(t), r, minAttempts), minAttempts)
  {
    AppendedWindow(t.handed, Grown(t.state, r), "");
  }

  lemma ObserveConservesCause(t: Track, r: Report, minAttempts: int, cause: string)
    requires CauseConserved(t, cause) && NonNegative(t.state.last.failed)
    requires t.state.last == t.reports[|t.reports| - 1]
    ensures CauseConserved(Observe(Some(t), r, minAttempts), cause)
  {
    var grown := Grown(t.state, r);
    GrownCount(t.state, r, cause);
    AppendedReport(t.reports, r, cause);
    AppendedWindow(t.handed, grown, cause);
    var next := Observe(Some(t), r, minAttempts);
    if r.attempted >= t.state.last.attempted {
      assert next.reports == t.reports + [r] && next.state.last == r;
      assert FailuresIn(next.handed, cause) + Count(next.state.pending.failed, cause)
             == FailuresIn(t.handed, cause) + Count(grown.failed, cause);
    }
  }

  lemma ObserveConserves(t: Track, r: Report, minAttempts: int)
    requires Conserved(t, minAttempts) && NonNegative(t.state.last.failed)
    ensures Conserved(Observe(Some(t), r, minAttempts), minAttempts)
  {
    ObserveConservesAttempts(t, r, minAttempts);
    forall cause ensures CauseConserved(Observe(Some(t), r, minAttempts), cause) {
      ObserveConservesCause(t, r, minAttempts, cause);
    }
  }

  /** For every run of reports with non-negative counts. */
  lemma {:induction false} RunsConserve(reports: seq<Report>, minAttempts: int)
    requires reports != [] && forall i :: 0 <= i < |reports| ==> NonNegative(reports[i].failed)
    ensures var t := ObserveAll(reports, minAttempts);
            t.Some? && Conserved(t.value, minAttempts) && t.value.state.last == reports[|reports| - 1]
  {
    if |reports| == 1 {
      assert ObserveAll(reports[..0], minAttempts) == None;
    } else {
      RunsConserve(reports[..|reports| - 1], minAttempts);
      ObserveConserves(ObserveAll(reports[..|reports| - 1], minAttempts).value, reports[|reports| - 1], minAttempts);
    }
  }

  /** Whether the count of a cause never went down between two reports. */
  predicate NeverFalls(reports: seq<Report>, cause: string) {
    |reports| > 1 ==>
      var n := |reports|;
      NeverFalls(reports[..n - 1], cause) && Count(reports[n - 2].failed, cause) <= Count(reports[n - 1].failed, cause)
  }

  /** A cause's failures telescope exactly when its count never fell. */
  lemma {:induction false} NoDropsIffNeverFalls(reports: seq<Report>, cause: string)
    ensures Drops(reports, cause) == 0.0 <==> NeverFalls(reports, cause)
  {
    if |reports| <= 1 {
    } else {
      NoDropsIffNeverFalls(reports[..|reports| - 1], cause);
    }
  }

  // ----- Judging a window -----

  ghost function TotalOf(counts: Counts): real {
    if counts == map[] then 0.0
    else
      var c :| c in counts;
      counts[c] + TotalOf(counts - {c})
  }

  /** The total does not depend on the order in which causes are added. */
  lemma {:induction false} TotalTakesAny(counts: Counts, c: string)
    requires c in counts
    ensures TotalOf(counts) == counts[c] + TotalOf(counts - {c})
    decreases |counts|
  {
    var d :| d in counts && TotalOf(counts) == counts[d] + TotalOf(counts - {d});
    if c != d {
      TotalTakesAny(counts - {d}, c);
      TotalTakesAny(counts - {c}, d);
      assert counts - {d} - {c} == counts - {c} - {d};
    }
  }

  /** None while the failure ratio is within the allowed percentage, else MAJOR, or CRITICAL when nothing
      succeeded. */
  ghost function Verdict(w: Window, failPercent: real): Option<Severity>
    requires w.attempted != 0.0
  {
    if 100.0 * TotalOf(w.failed) / w.attempted <= failPercent then None
    else if TotalOf(w.failed) >= w.attempted then Some(CRITICAL)
    else Some(MAJOR)
  }

  /** In terms of the window alone, for one that holds an attempt: no breach exactly while the failures are within the
      allowed share of the attempts; beyond it CRITICAL exactly when nothing succeeded, else MAJOR. */
  lemma VerdictIff(w: Window, failPercent: real)
    requires w.attempted > 0.0
    ensures Verdict(w, failPercent) == None <==> 100.0 * TotalOf(w.failed) <= failPercent * w.attempted
    ensures Verdict(w, failPercent) == Some(CRITICAL)
            <==> 100.0 * TotalOf(w.failed) > failPercent * w.attempted && TotalOf(w.failed) >= w.attempted
    ensures Verdict(w, failPercent) in {None, Some(MAJOR), Some(CRITICAL)}
  {
    RatioIff(100.0 * TotalOf(w.failed), w.attempted, failPercent);
  }

  lemma RatioIff(a: real, b: real, c: real)
    requires b > 0.0
    ensures a / b <= c <==> a <= c * b
  {
    assert a == a / b * b;
    RealOrder(a / b, c, b);
  }

  lemma RealOrder(a: real, b: real, d: real)
    requires d > 0.0
    ensures a <= b <==> a * d <= b * d
  {
    assert (b - a) * d == b * d - a * d;
  }

  method FailureBreach(w: Window, failPercent: real) returns (breach: Option<Severity>)
    requires w.attempted != 0.0
    ensures breach == Verdict(w, failPercent)
  {
    var nofFailed := 0.0;
    var causes := w.failed.Keys;
    ghost var rest := w.failed;
    while causes != {}
      invariant rest.Keys == causes && forall c :: c in causes ==> c in w.failed && rest[c] == w.failed[c]
      invariant nofFailed + TotalOf(rest) == TotalOf(w.failed)
      decreases causes
    {
      var cause :| cause in causes;
      TotalTakesAny(rest, cause);
      nofFailed := nofFailed + w.failed[cause];
      causes, rest := causes - {cause}, rest - {cause};
    }
    assert rest == map[];
    var percent := 100.0 * nofFailed / w.attempted;
    if percent <= failPercent {
      return None;
    }
    breach := Some(if nofFailed >= w.attempted then CRITICAL else MAJOR);
  }

  /** One report of a source: the state it leaves, and the verdict when a window was full (outer None: the
      condition is left untouched). Full windows hold at least one attempt, so the ratio always exists. */
  method CheckFailures(last: CumulativeFailures?, r: Report, minAttempts: int, failPercent: real)
    returns (current: CumulativeFailures, judged: Option<Option<Severity>>)
    modifies last
    ensures last == null || r.attempted < old(last.attempted) ==> current.State() == Baseline(r) && judged == None
    ensures last != null && r.attempted >= old(last.attempted) ==>
              var grown := Grown(old(last.State()), r);
              if grown.attempted < Quorum(minAttempts) then current.State() == Gathered(r, grown) && judged == None
              else current.State() == Baseline(r) && judged == Some(Verdict(grown, failPercent))
  {
    if last == null || r.attempted < last.attempted {
      current := new CumulativeFailures(r);
      return current, None;
    }
    current := last;
    var window := last.Add(r, minAttempts);
    if window.None? {
      return current, None;
    }
    var breach := FailureBreach(window.value, failPercent);
    judged := Some(breach);
  }
}
