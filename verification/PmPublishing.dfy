/** When published files tile time: windows do, but a window without a closed period publishes no file. */
module PmPublishing {
  import opened Arithmetic
  import opened Options
  import opened PmFiles

  /** Each file begins where the one before it ends. */
  predicate Adjacent(files: seq<File>) {
    forall i :: 0 <= i < |files| - 1 ==> files[i].end == files[i + 1].begin
  }

  /** Windows of positive length, each beginning where the one before it ends. */
  predicate Windows(files: seq<File>) {
    Adjacent(files) && forall i :: 0 <= i < |files| ==> files[i].begin < files[i].end
  }

  /** An unmarked place lies between two marked ones. */
  ghost predicate Interrupted(marks: seq<bool>) {
    exists i, j, k :: InterruptedAt(marks, i, j, k)
  }

  predicate InterruptedAt(marks: seq<bool>, i: int, j: int, k: int) {
    0 <= i < j < k < |marks| && marks[i] && !marks[j] && marks[k]
  }

  function Filled(files: seq<File>): (marks: seq<bool>)
    ensures |marks| == |files|
  {
    seq(|files|, i requires 0 <= i < |files| => files[i].periods != [])
  }

  lemma {:induction false} EndsIncrease(files: seq<File>, i: nat)
    requires Windows(files) && i < |files|
    ensures files[i].end <= files[|files| - 1].end
    ensures i < |files| - 1 ==> files[i].end < files[|files| - 1].end
    decreases |files| - i
  {
    if i < |files| - 1 {
      EndsIncrease(files, i + 1);
    }
  }

  lemma {:induction false} LastPublished(files: seq<File>)
    ensures Published(files) == [] <==> forall i :: 0 <= i < |files| ==> files[i].periods == []
    ensures Published(files) != [] ==>
              exists i :: 0 <= i < |files| && files[i].periods != [] && files[i] == Published(files)[|Published(files)| - 1]
                          && forall j :: i < j < |files| ==> files[j].periods == []
  {
    if files == [] {
    } else {
      var earlier := files[..|files| - 1];
      LastPublished(earlier);
      assert forall i :: 0 <= i < |earlier| ==> earlier[i] == files[i];
      if files[|files| - 1].periods != [] {
        assert Published(files) == Published(earlier) + [files[|files| - 1]];
      }
    }
  }

  lemma WindowsBeforeLast(files: seq<File>)
    requires Windows(files) && files != []
    ensures Windows(files[..|files| - 1])
    ensures Filled(files[..|files| - 1]) == Filled(files)[..|files| - 1]
  {
    var earlier := files[..|files| - 1];
    forall i | 0 <= i < |earlier| - 1 ensures earlier[i].end == earlier[i + 1].begin {
      assert files[i].end == files[i + 1].begin;
    }
  }

  /** Published files tile time exactly when no empty window lies between two that are not. */
  lemma {:induction false} PublishedTileIff(files: seq<File>)
    requires Windows(files)
    ensures Adjacent(Published(files)) <==> !Interrupted(Filled(files))
  {
    if files == [] {
    } else {
      var earlier, last := files[..|files| - 1], files[|files| - 1];
      WindowsBeforeLast(files);
      PublishedTileIff(earlier);
      assert files == earlier + [last];
      if last.periods == [] {
        EmptyLast(earlier, last);
      } else {
        FilledLast(earlier, last);
      }
    }
  }

  lemma EmptyLast(earlier: seq<File>, last: File)
    requires last.periods == []
    ensures Published(earlier + [last]) == Published(earlier)
    ensures Interrupted(Filled(earlier + [last])) <==> Interrupted(Filled(earlier))
  {
    var files := earlier + [last];
    assert files[..|earlier|] == earlier && Filled(files)[..|earlier|] == Filled(earlier);
    UnmarkedLast(Filled(files));
  }

  lemma FilledLast(earlier: seq<File>, last: File)
    requires Windows(earlier + [last]) && Windows(earlier) && last.periods != []
    requires Adjacent(Published(earlier)) <==> !Interrupted(Filled(earlier))
    ensures Adjacent(Published(earlier + [last])) <==> !Interrupted(Filled(earlier + [last]))
  {
    if Published(earlier) == [] {
      FirstPublished(earlier, last);
    } else {
      MarksBeforeLast(earlier, last);
      MarkedLast(Filled(earlier + [last]));
      JoinsIff(earlier, last);
    }
  }

  /** The first file published is adjacent to none and interrupts nothing. */
  lemma FirstPublished(earlier: seq<File>, last: File)
    requires last.periods != [] && Published(earlier) == []
    ensures Adjacent(Published(earlier + [last])) && !Interrupted(Filled(earlier + [last]))
  {
    var files, marks := earlier + [last], Filled(earlier + [last]);
    assert files[..|earlier|] == earlier;
    assert Published(files) == [] + [last];
    LastPublished(earlier);
    forall i | 0 <= i < |earlier| ensures !marks[i] {
      assert files[i] == earlier[i];
    }
  }

  /** The marks of windows that published and of one more after them. */
  lemma MarksBeforeLast(earlier: seq<File>, last: File)
    requires last.periods != [] && Published(earlier) != []
    ensures var marks := Filled(earlier + [last]);
            && |marks| == |earlier| + 1 >= 2
            && marks[|marks| - 1]
            && marks[..|earlier|] == Filled(earlier)
            && (exists i :: 0 <= i < |earlier| && marks[i])
            && (marks[|earlier| - 1] <==> earlier[|earlier| - 1].periods != [])
  {
    var files, marks := earlier + [last], Filled(earlier + [last]);
    LastPublished(earlier);
    var i :| 0 <= i < |earlier| && earlier[i].periods != [];
    assert files[i] == earlier[i] && marks[i];
    assert files[|earlier| - 1] == earlier[|earlier| - 1];
    assert marks[..|earlier|] == Filled(earlier);
  }

  lemma UnmarkedLast(marks: seq<bool>)
    requires marks != [] && !marks[|marks| - 1]
    ensures Interrupted(marks) <==> Interrupted(marks[..|marks| - 1])
  {
    var earlier := marks[..|marks| - 1];
    if Interrupted(earlier) {
      var i, j, k :| InterruptedAt(earlier, i, j, k);
      assert InterruptedAt(marks, i, j, k);
    }
    if Interrupted(marks) {
      var i, j, k :| InterruptedAt(marks, i, j, k);
      assert InterruptedAt(earlier, i, j, k);
    }
  }

  lemma MarkedLast(marks: seq<bool>)
    requires |marks| >= 2 && marks[|marks| - 1] && exists i :: 0 <= i < |marks| - 1 && marks[i]
    ensures Interrupted(marks) <==> Interrupted(marks[..|marks| - 1]) || !marks[|marks| - 2]
  {
    var n := |marks| - 1;
    var earlier := marks[..n];
    if Interrupted(earlier) {
      var i, j, k :| InterruptedAt(earlier, i, j, k);
      assert InterruptedAt(marks, i, j, k);
    }
    if !marks[n - 1] {
      var i :| 0 <= i < n && marks[i];
      assert InterruptedAt(marks, i, n - 1, n);
    } else if Interrupted(marks) {
      var i, j, k :| InterruptedAt(marks, i, j, k);
      assert InterruptedAt(earlier, i, j, n - 1);
    }
  }

  lemma AdjacentLast(files: seq<File>, last: File)
    requires files != []
    ensures Adjacent(files + [last]) <==> Adjacent(files) && files[|files| - 1].end == last.begin
  {
    var all, m := files + [last], |files| - 1;
    assert all[m] == files[m] && all[m + 1] == last;
    if Adjacent(all) {
      forall k | 0 <= k < m ensures files[k].end == files[k + 1].begin {
        assert all[k] == files[k] && all[k + 1] == files[k + 1];
      }
    }
  }

  /** What was published reaches to the end of the windows exactly when the last one published. */
  lemma LastPublishedEnd(files: seq<File>)
    requires Windows(files) && Published(files) != []
    ensures Published(files)[|Published(files)| - 1].end == files[|files| - 1].end
            <==> files[|files| - 1].periods != []
  {
    LastPublished(files);
    var i :| 0 <= i < |files| && files[i].periods != [] && files[i] == Published(files)[|Published(files)| - 1]
             && forall j :: i < j < |files| ==> files[j].periods == [];
    EndsIncrease(files, i);
  }

  /** The file after a window joins on to what was published exactly when that window published. */
  lemma JoinsIff(earlier: seq<File>, last: File)
    requires Windows(earlier + [last]) && Windows(earlier) && Published(earlier) != [] && last.periods != []
    ensures Adjacent(Published(earlier + [last]))
            <==> Adjacent(Published(earlier)) && earlier[|earlier| - 1].periods != []
  {
    var files, n := earlier + [last], |earlier|;
    assert files[..n] == earlier;
    assert files[n - 1].end == files[n].begin;
    AdjacentLast(Published(earlier), last);
    LastPublishedEnd(earlier);
  }

  // ----- In terms of when samples were added -----

  /** For each closed window, whether a sample was added during it, that is between the ticks that closed the
      window before it and it; and whether one was added since the last such tick. */
  function SampledWindows(key: Periods, start: Instant, ops: seq<Op>): (seq<bool>, bool)
    requires key.Valid()
  {
    if ops == [] then ([], false)
    else
      var (marks, open) := SampledWindows(key, start, ops[..|ops| - 1]);
      match ops[|ops| - 1]
      case AddSample(_) => (marks, true)
      case TickAt(now) =>
        if now < FollowAll(key, start, ops[..|ops| - 1]).job.fileEnd then (marks, open) else (marks + [open], false)
  }

  /** Something is in the open window: in a closed period or in the open one. */
  predicate HoldsSamples(job: Job) {
    job.periods != [] || job.samples != map[]
  }

  /** A tick that closes a window closes a period as well, so the window is filled iff something was in it. */
  lemma TickFills(t: Track, now: Instant)
    requires t.job.key.Valid() && t.job.periodEnd <= t.job.fileEnd
    ensures var after := Follow(t, TickAt(now));
            if now < t.job.fileEnd then
              Filled(after.files) == Filled(t.files) && (HoldsSamples(after.job) <==> HoldsSamples(t.job))
            else
              Filled(after.files) == Filled(t.files) + [HoldsSamples(t.job)] && !HoldsSamples(after.job)
  {
    var due := DueFile(t.job, now);
    if due.Some? {
      assert Filled(t.files + [due.value]) == Filled(t.files) + [due.value.periods != []];
    }
  }

  /** When files hold whole granularity periods, a window is filled exactly when a sample was added during it. */
  lemma {:induction false} FilledIffSampled(key: Periods, start: Instant, ops: seq<Op>)
    requires key.Divides() && Ordered(start, ops)
    ensures var t, (marks, open) := FollowAll(key, start, ops), SampledWindows(key, start, ops);
            Filled(t.files) == marks && (open <==> HoldsSamples(t.job))
  {
    if ops == [] {
    } else {
      var earlier, op := ops[..|ops| - 1], ops[|ops| - 1];
      var t := FollowAll(key, start, earlier);
      FilledIffSampled(key, start, earlier);
      match op
      case AddSample(s) =>
        assert s.key in Add(t.job, s).samples;
      case TickAt(now) =>
        RunsTileAndConserve(key, start, earlier);
        assert WholePeriods(t);
        TickFills(t, now);
    }
  }

  /** When files hold whole granularity periods: published files tile time exactly when no window without a
      sample lies between two with one. */
  lemma PublishedTileIffSampled(key: Periods, start: Instant, ops: seq<Op>)
    requires key.Divides() && Ordered(start, ops)
    ensures Adjacent(Published(FollowAll(key, start, ops).files))
            <==> !Interrupted(SampledWindows(key, start, ops).0)
  {
    RunsTileAndConserve(key, start, ops);
    FilledIffSampled(key, start, ops);
    PublishedTileIff(FollowAll(key, start, ops).files);
  }

  /** For any periods: published files tile time exactly when no empty window lies between two that are not. */
  lemma RunsPublishTilesIff(key: Periods, start: Instant, ops: seq<Op>)
    requires key.Valid() && Ordered(start, ops)
    ensures var files := FollowAll(key, start, ops).files;
            Adjacent(Published(files)) <==> !Interrupted(Filled(files))
  {
    RunsTileAndConserve(key, start, ops);
    PublishedTileIff(FollowAll(key, start, ops).files);
  }

  /** A run that leaves a gap: a sample in the first minute and in the third, none in the second. */
  lemma QuietMinuteLeavesGap(sample: Sample)
    ensures var key := Periods(60, 1);
            var ops := ThreeMinutes(sample, 60_000_000);
            Ordered(0, ops) && !Adjacent(Published(FollowAll(key, 0, ops).files))
  {
    var key, ops := Periods(60, 1), ThreeMinutes(sample, 60_000_000);
    ThreeMinutesMarks(key, sample, 60_000_000, 0);
    PublishedTileIffSampled(key, 0, ops);
    var marks := SampledWindows(key, 0, ops).0;
    assert InterruptedAt(marks, 0, 1, 2);
  }

  function ThreeMinutes(sample: Sample, minute: Instant): seq<Op> {
    [AddSample(sample), TickAt(minute), TickAt(2 * minute), AddSample(sample), TickAt(3 * minute)]
  }

  lemma MinuteBoundary(minutes: nat)
    ensures NextBoundary(minutes * 60_000_000, 60) == (minutes + 1) * 60_000_000
  {
    DivModUnique(minutes * 60_000_000, TICKS_PER_SECOND, minutes * 60, 0);
    DivModUnique(minutes * 60, 60, minutes, 0);
  }

  /** One more operation. */
  lemma OneMore(key: Periods, start: Instant, ops: seq<Op>, op: Op)
    requires key.Valid()
    ensures FollowAll(key, start, ops + [op]) == Follow(FollowAll(key, start, ops), op)
    ensures var (marks, open), due := SampledWindows(key, start, ops), FollowAll(key, start, ops).job.fileEnd;
            SampledWindows(key, start, ops + [op]) ==
            match op
            case AddSample(_) => (marks, true)
            case TickAt(now) => if now < due then (marks, open) else (marks + [open], false)
    ensures LastTick(start, ops + [op]) == if op.TickAt? then op.now else LastTick(start, ops)
    ensures Ordered(start, ops + [op]) <==> Ordered(start, ops) && (op.TickAt? ==> LastTick(start, ops) <= op.now)
  {
    assert (ops + [op])[..|ops|] == ops;
  }

  lemma ThreeMinutesMarks(key: Periods, sample: Sample, minute: Instant, start: Instant)
    requires key == Periods(60, 1) && minute == 60_000_000 && start == 0
    ensures var ops := ThreeMinutes(sample, minute);
            Ordered(start, ops) && SampledWindows(key, start, ops).0 == [true, false, true]
  {
    var ops := ThreeMinutes(sample, minute);
    MinuteBoundary(0);
    MinuteBoundary(1);
    MinuteBoundary(2);
    FirstMinute(key, start, ops[..2]);
    assert ops[..2] + [ops[2]] == ops[..3] && ops[..3] + [ops[3]] == ops[..4] && ops[..4] + [ops[4]] == ops;
    OneMore(key, start, ops[..2], ops[2]);
    OneMore(key, start, ops[..3], ops[3]);
    OneMore(key, start, ops[..4], ops[4]);
  }

  lemma FirstMinute(key: Periods, start: Instant, ops: seq<Op>)
    requires key == Periods(60, 1) && start == 0
    requires |ops| == 2 && ops[0].AddSample? && ops[1] == TickAt(60_000_000)
    ensures Ordered(start, ops) && LastTick(start, ops) == 60_000_000
    ensures SampledWindows(key, start, ops) == ([true], false)
    ensures FollowAll(key, start, ops).job.fileEnd == 120_000_000
  {
    MinuteBoundary(0);
    MinuteBoundary(1);
    assert ops[..0] == [] && ops[..0] + [ops[0]] == ops[..1] && ops[..1] + [ops[1]] == ops;
    OneMore(key, start, ops[..0], ops[0]);
    OneMore(key, start, ops[..1], ops[1]);
    assert [] + [true] == [true];
  }
}
