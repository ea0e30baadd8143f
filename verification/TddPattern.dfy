/** The configurable-tdd-pattern compiler: a slot/symbol pattern becomes a list of switching points at
    frame offsets, and a validator accepts (or refuses) a switching-point list. */
module TddPattern {
  import opened Arithmetic
  import opened Options
  import opened SymbolTiming

  datatype Direction = DL | UL | GP

  datatype Point = Point(direction: Direction, offset: int)

  /** The compiler's arguments; counts are plain integers, as the caller may pass any. */
  datatype Pattern = Pattern(scsKhz: int, period: int, dlSlots: int, dlSymbols: int, ulSymbols: int,
                             ulSlots: Option<int>)
  {
    predicate HasSpecialSlot() {
      dlSymbols != 0 || ulSymbols != 0
    }

    function GuardSymbols(): int {
      14 - dlSymbols - ulSymbols
    }

    predicate NonNegative() {
      0 <= dlSlots && 0 <= dlSymbols && 0 <= ulSymbols
    }
  }

  datatype PatternError = UnsupportedScs | PeriodNotInFrame | SymbolsExceedSlot | SlotsExceedPeriod | SlotBudgetMismatch

  /** The guards of the compiler, in its order; the numerology when all of them pass. */
  function Check(p: Pattern): (r: Result<Numerology, PatternError>)
    ensures r.Ok? ==> r.value.Valid()
  {
    var nu := NumerologyOf(p.scsKhz);
    if nu.None? then Err(UnsupportedScs)
    else if p.period <= 0 || 10 * nu.value.slots % p.period != 0 then Err(PeriodNotInFrame)
    else if p.GuardSymbols() < 0 then Err(SymbolsExceedSlot)
    else
      var specialSlots := if p.HasSpecialSlot() then 1 else 0;
      if p.dlSlots + specialSlots > p.period then Err(SlotsExceedPeriod)
      else if p.ulSlots.Some? && p.dlSlots + specialSlots + p.ulSlots.value != p.period then Err(SlotBudgetMismatch)
      else Ok(nu.value)
  }

  /** What the pattern prescribes for symbol n of the frame (the common TDD pattern of TS 38.213,
      section 11.1): downlink slots, then the special slot if any, then uplink. */
  function Prescribed(p: Pattern, n: nat): Direction
    requires 0 < p.period
  {
    PrescribedInPeriod(p, n / 14 % p.period, n % 14)
  }

  function PrescribedInPeriod(p: Pattern, slot: int, symbol: int): Direction {
    if slot < p.dlSlots then DL
    else if p.HasSpecialSlot() && slot == p.dlSlots then
      if symbol < p.dlSymbols then DL else if symbol < 14 - p.ulSymbols then GP else UL
    else UL
  }

  /** The direction an O-RU applies at tick t: the last listed point at or before it, DL before any. */
  function DirectionAt(points: seq<Point>, t: int): Direction {
    if |points| == 0 then DL
    else
      var last := points[|points| - 1];
      if last.offset <= t then last.direction else DirectionAt(points[..|points| - 1], t)
  }

  // ----- The compiler -----

  /** One repetition's points: a guard point when the special slot has guard symbols, then uplink, then
      downlink at the start of the next repetition. */
  function PointsOf(p: Pattern, downlinkEnd: int, uplinkStart: int, next: int): seq<Point> {
    (if p.GuardSymbols() > 0 && p.HasSpecialSlot() then [Point(GP, downlinkEnd)] else [])
    + [Point(UL, if p.HasSpecialSlot() then uplinkStart else downlinkEnd), Point(DL, next)]
  }

  /** The switching points of the repetition that starts at slot `base`. */
  function Repetition(p: Pattern, nu: Numerology, base: int): seq<Point>
    requires nu.Valid()
  {
    PointsOf(p,
             SymbolBoundaryTicks(nu, base + p.dlSlots, p.dlSymbols),
             SymbolBoundaryTicks(nu, base + p.dlSlots, 14 - p.ulSymbols),
             SymbolBoundaryTicks(nu, base + p.period, 0))
  }

  function Repetitions(p: Pattern, nu: Numerology, count: nat): seq<Point>
    requires nu.Valid()
  {
    if count == 0 then [] else Repetitions(p, nu, count - 1) + Repetition(p, nu, (count - 1) * p.period)
  }

  function NofRepetitions(p: Pattern, nu: Numerology): (count: nat)
    requires nu.Valid() && 0 < p.period
  {
    10 * nu.slots / p.period
  }

  lemma RepetitionsFillFrame(nu: Numerology, period: int)
    requires nu.Valid() && 0 < period && 10 * nu.slots % period == 0
    ensures 14 * (10 * nu.slots / period * period) == nu.FrameSymbols()
    ensures 0 < 10 * nu.slots / period
  {
  }

  /** Every symbol of the frame reads back the prescribed direction. */
  ghost predicate ReadsBack(p: Pattern, nu: Numerology, points: seq<Point>)
    requires nu.Valid() && 0 < p.period
  {
    forall n: nat :: n < nu.FrameSymbols() ==> DirectionAt(points, SymbolStart(nu, n)) == Prescribed(p, n)
  }

  /** Appending the points of a repetition one by one. */
  lemma PointsInOrder(p: Pattern, before: seq<Point>, downlinkEnd: int, uplinkStart: int, next: int)
    ensures (if p.GuardSymbols() > 0 && p.HasSpecialSlot() then before + [Point(GP, downlinkEnd)] else before)
            + [Point(UL, if p.HasSpecialSlot() then uplinkStart else downlinkEnd)] + [Point(DL, next)]
            == before + PointsOf(p, downlinkEnd, uplinkStart, next)
  {
  }

  method ComputeSwitchingPoints(p: Pattern) returns (r: Result<seq<Point>, PatternError>)
    ensures Check(p).Err? ==> r == Err(Check(p).error)
    ensures Check(p).Ok? ==> r == Ok(Repetitions(p, Check(p).value, NofRepetitions(p, Check(p).value)))
    ensures r.Ok? && p.NonNegative() ==> ReadsBack(p, Check(p).value, r.value)
  {
    var checked := Check(p);
    if checked.Err? {
      return Err(checked.error);
    }
    var nu := checked.value;
    var points: seq<Point> := [];
    for repetition := 0 to NofRepetitions(p, nu)
      invariant points == Repetitions(p, nu, repetition)
    {
      var baseSlot := repetition * p.period;
      var downlinkEnd := SymbolBoundaryTicks(nu, baseSlot + p.dlSlots, p.dlSymbols);
      var uplinkStart := SymbolBoundaryTicks(nu, baseSlot + p.dlSlots, 14 - p.ulSymbols);
      var next := SymbolBoundaryTicks(nu, baseSlot + p.period, 0);
      ghost var before := points;
      if p.GuardSymbols() > 0 && p.HasSpecialSlot() {
        points := points + [Point(GP, downlinkEnd)];
      }
      points := points + [Point(UL, if p.HasSpecialSlot() then uplinkStart else downlinkEnd)];
      points := points + [Point(DL, next)];
      PointsInOrder(p, before, downlinkEnd, uplinkStart, next);
    }
    ReadsBackAsPrescribed(p, nu, points);
    r := Ok(points);
  }

  lemma ReadsBackAsPrescribed(p: Pattern, nu: Numerology, points: seq<Point>)
    requires Check(p) == Ok(nu) && points == Repetitions(p, nu, NofRepetitions(p, nu))
    ensures p.NonNegative() ==> ReadsBack(p, nu, points)
  {
    if p.NonNegative() {
      CompiledPatternIsPrescribed(p, nu, points);
    }
  }

  // ----- The compiler refines the prescribed pattern -----

  lemma SlotWithinRepetition(period: int, count: nat, slot: nat)
    requires 0 < period && count * period <= slot < count * period + period
    ensures slot % period == slot - count * period
  {
    DivModUnique(slot, period, count, slot - count * period);
  }

  /** Every point sits on a symbol boundary of the frame, no earlier than symbol lo and no later than
      symbol hi, in non-decreasing order. */
  ghost predicate OnGrid(nu: Numerology, points: seq<Point>, lo: nat, hi: nat)
    requires nu.Valid()
  {
    && (forall i :: 0 <= i < |points| ==> IsBoundary(nu, points[i].offset, lo, hi))
    && (forall i, j :: 0 <= i < j < |points| ==> points[i].offset <= points[j].offset)
  }

  ghost predicate IsBoundary(nu: Numerology, offset: int, lo: nat, hi: nat)
    requires nu.Valid()
  {
    exists k: nat :: lo <= k <= hi && offset == SymbolStart(nu, k)
  }

  lemma AppendedPoint(points: seq<Point>, last: Point, t: int)
    ensures DirectionAt(points + [last], t)
            == if last.offset <= t then last.direction else DirectionAt(points, t)
  {
    assert (points + [last])[..|points|] == points;
  }

  /** Appending a repetition: at most one guard, one uplink and one downlink point. */
  lemma AppendedPoints(p: Pattern, points: seq<Point>, downlinkEnd: int, uplinkStart: int, next: int, t: int)
    ensures DirectionAt(points + PointsOf(p, downlinkEnd, uplinkStart, next), t)
            == if next <= t then DL
               else if (if p.HasSpecialSlot() then uplinkStart else downlinkEnd) <= t then UL
               else if p.GuardSymbols() > 0 && p.HasSpecialSlot() && downlinkEnd <= t then GP
               else DirectionAt(points, t)
  {
    var rep := PointsOf(p, downlinkEnd, uplinkStart, next);
    var body := rep[..|rep| - 2];
    AppendedPoint(points + body + [rep[|rep| - 2]], rep[|rep| - 1], t);
    AppendedPoint(points + body, rep[|rep| - 2], t);
    assert points + rep == points + body + [rep[|rep| - 2]] + [rep[|rep| - 1]];
    if |body| == 1 {
      AppendedPoint(points, body[0], t);
      assert points + body == points + [body[0]];
    } else {
      assert points + body == points;
    }
  }

  /** The counts of an accepted, non-negative pattern fit its period. */
  predicate Shaped(p: Pattern) {
    && p.NonNegative() && 0 < p.period && 0 <= p.GuardSymbols()
    && p.dlSlots + (if p.HasSpecialSlot() then 1 else 0) <= p.period
  }

  function DownlinkEndSymbol(p: Pattern, base: nat): nat
    requires Shaped(p)
  {
    14 * (base + p.dlSlots) + p.dlSymbols
  }

  function UplinkStartSymbol(p: Pattern, base: nat): nat
    requires Shaped(p)
  {
    14 * (base + p.dlSlots) + 14 - p.ulSymbols
  }

  /** The offsets of a repetition are symbol starts. */
  lemma RepetitionOffsets(p: Pattern, nu: Numerology, base: nat)
    requires Shaped(p) && nu.Valid()
    ensures Repetition(p, nu, base) == PointsOf(p,
                                                SymbolStart(nu, DownlinkEndSymbol(p, base)),
                                                SymbolStart(nu, UplinkStartSymbol(p, base)),
                                                SymbolStart(nu, 14 * (base + p.period)))
  {
    BoundaryIsSymbolStart(nu, base + p.dlSlots, p.dlSymbols);
    BoundaryIsSymbolStart(nu, base + p.dlSlots, 14 - p.ulSymbols);
    BoundaryIsSymbolStart(nu, base + p.period, 0);
  }

  /** Symbol n read against a repetition's points: only their order by symbol number matters. */
  lemma ReadRepetition(p: Pattern, nu: Numerology, points: seq<Point>, base: nat, n: nat)
    requires Shaped(p) && nu.Valid()
    ensures DirectionAt(points + Repetition(p, nu, base), SymbolStart(nu, n))
            == if 14 * (base + p.period) <= n then DL
               else if (if p.HasSpecialSlot() then UplinkStartSymbol(p, base) else DownlinkEndSymbol(p, base)) <= n then UL
               else if p.GuardSymbols() > 0 && p.HasSpecialSlot() && DownlinkEndSymbol(p, base) <= n then GP
               else DirectionAt(points, SymbolStart(nu, n))
  {
    var downlinkEnd, uplinkStart, next := DownlinkEndSymbol(p, base), UplinkStartSymbol(p, base), 14 * (base + p.period);
    RepetitionOffsets(p, nu, base);
    AppendedPoints(p, points, SymbolStart(nu, downlinkEnd), SymbolStart(nu, uplinkStart), SymbolStart(nu, next),
                   SymbolStart(nu, n));
    StartOrder(nu, next, n);
    StartOrder(nu, downlinkEnd, n);
    StartOrder(nu, uplinkStart, n);
  }

  /** The order of a repetition's switching symbols is the pattern. */
  lemma SwitchingSymbolsArePrescribed(p: Pattern, base: nat, n: nat)
    requires Shaped(p) && 14 * base <= n < 14 * (base + p.period)
    ensures PrescribedInPeriod(p, n / 14 - base, n % 14)
            == if (if p.HasSpecialSlot() then UplinkStartSymbol(p, base) else DownlinkEndSymbol(p, base)) <= n then UL
               else if p.GuardSymbols() > 0 && p.HasSpecialSlot() && DownlinkEndSymbol(p, base) <= n then GP
               else DL
  {
  }

  /** A symbol of the last repetition. */
  lemma LastRepetitionClassifies(p: Pattern, nu: Numerology, count: nat, n: nat)
    requires Shaped(p) && nu.Valid() && 14 * (count * p.period) <= n < 14 * ((count + 1) * p.period)
    ensures DirectionAt(Repetitions(p, nu, count) + Repetition(p, nu, count * p.period), SymbolStart(nu, n))
            == Prescribed(p, n)
  {
    var base := count * p.period;
    Distribute(count, 1, p.period);
    ReadRepetition(p, nu, Repetitions(p, nu, count), base, n);
    EndsInDownlink(p, nu, count);
    StartOrder(nu, 14 * base, n);
    SwitchingSymbolsArePrescribed(p, base, n);
    SlotWithinRepetition(p.period, count, n / 14);
  }

  lemma {:induction false} RepetitionsClassify(p: Pattern, nu: Numerology, count: nat, n: nat)
    requires Shaped(p) && nu.Valid() && n < 14 * (count * p.period)
    ensures DirectionAt(Repetitions(p, nu, count), SymbolStart(nu, n)) == Prescribed(p, n)
  {
    var base := (count - 1) * p.period;
    if n < 14 * base {
      Distribute(count - 1, 1, p.period);
      ReadRepetition(p, nu, Repetitions(p, nu, count - 1), base, n);
      RepetitionsClassify(p, nu, count - 1, n);
    } else {
      LastRepetitionClassifies(p, nu, count - 1, n);
    }
  }

  /** After each repetition the list ends with DL at the start of the next one. */
  lemma EndsInDownlink(p: Pattern, nu: Numerology, count: nat)
    requires Shaped(p) && nu.Valid()
    ensures count == 0 ==> Repetitions(p, nu, count) == []
    ensures 0 < count ==> |Repetitions(p, nu, count)| > 0
                          && Repetitions(p, nu, count)[|Repetitions(p, nu, count)| - 1]
                             == Point(DL, SymbolStart(nu, 14 * (count * p.period)))
  {
    if 0 < count {
      Distribute(count - 1, 1, p.period);
      RepetitionOffsets(p, nu, (count - 1) * p.period);
    }
  }

  lemma StartIsBoundary(nu: Numerology, k: nat, lo: nat, hi: nat)
    requires nu.Valid() && lo <= k <= hi
    ensures IsBoundary(nu, SymbolStart(nu, k), lo, hi)
  {
  }

  /** Three symbols in order make a repetition's points lie on the grid, with or without a guard point. */
  lemma PointsOnGrid(nu: Numerology, rep: seq<Point>, lo: nat, a: nat, b: nat, hi: nat)
    requires nu.Valid() && lo <= a <= b <= hi
    requires 2 <= |rep| <= 3
    requires |rep| == 3 ==> rep[0].offset == SymbolStart(nu, a)
    requires rep[|rep| - 2].offset == SymbolStart(nu, b) && rep[|rep| - 1].offset == SymbolStart(nu, hi)
    ensures OnGrid(nu, rep, lo, hi)
  {
    StartOrder(nu, a, b);
    StartOrder(nu, b, hi);
    var last := |rep| - 1;
    forall i | 0 <= i < |rep| ensures IsBoundary(nu, rep[i].offset, lo, hi) {
      if i == last {
        StartIsBoundary(nu, hi, lo, hi);
      } else if i == last - 1 {
        StartIsBoundary(nu, b, lo, hi);
      } else {
        StartIsBoundary(nu, a, lo, hi);
      }
    }
    assert forall i, j :: 0 <= i < j < |rep| ==> rep[i].offset <= rep[j].offset;
  }

  lemma RepetitionOnGrid(p: Pattern, nu: Numerology, base: nat)
    requires Shaped(p) && nu.Valid()
    ensures OnGrid(nu, Repetition(p, nu, base), 14 * base, 14 * (base + p.period))
  {
    RepetitionOffsets(p, nu, base);
    var downlinkEnd := DownlinkEndSymbol(p, base);
    var uplinkStart := if p.HasSpecialSlot() then UplinkStartSymbol(p, base) else downlinkEnd;
    PointsOnGrid(nu, Repetition(p, nu, base), 14 * base, downlinkEnd, uplinkStart, 14 * (base + p.period));
  }

  lemma BoundaryWithin(nu: Numerology, offset: int, lo: nat, hi: nat, lo': nat, hi': nat)
    requires nu.Valid() && IsBoundary(nu, offset, lo, hi) && lo' <= lo && hi <= hi'
    ensures IsBoundary(nu, offset, lo', hi')
  {
  }

  lemma BoundariesInOrder(nu: Numerology, a: int, b: int, lo: nat, mid: nat, hi: nat)
    requires nu.Valid() && IsBoundary(nu, a, lo, mid) && IsBoundary(nu, b, mid, hi)
    ensures a <= b
  {
    var k: nat :| lo <= k <= mid && a == SymbolStart(nu, k);
    var m: nat :| mid <= m <= hi && b == SymbolStart(nu, m);
    StartOrder(nu, k, m);
  }

  /** Points up to a symbol and points from it on are in order together. */
  lemma GridsJoin(nu: Numerology, earlier: seq<Point>, rep: seq<Point>, lo: nat, mid: nat, hi: nat)
    requires nu.Valid() && lo <= mid <= hi && OnGrid(nu, earlier, lo, mid) && OnGrid(nu, rep, mid, hi)
    ensures OnGrid(nu, earlier + rep, lo, hi)
  {
    forall i | 0 <= i < |earlier| ensures IsBoundary(nu, earlier[i].offset, lo, hi) {
      BoundaryWithin(nu, earlier[i].offset, lo, mid, lo, hi);
    }
    forall j | 0 <= j < |rep| ensures IsBoundary(nu, rep[j].offset, lo, hi) {
      BoundaryWithin(nu, rep[j].offset, mid, hi, lo, hi);
    }
    forall i, j | 0 <= i < |earlier| && 0 <= j < |rep| ensures earlier[i].offset <= rep[j].offset {
      BoundariesInOrder(nu, earlier[i].offset, rep[j].offset, lo, mid, hi);
    }
  }

  lemma {:induction false} RepetitionsOnGrid(p: Pattern, nu: Numerology, count: nat)
    requires Shaped(p) && nu.Valid()
    ensures OnGrid(nu, Repetitions(p, nu, count), 0, 14 * (count * p.period))
  {
    if count == 0 {
    } else {
      var base := (count - 1) * p.period;
      Distribute(count - 1, 1, p.period);
      RepetitionsOnGrid(p, nu, count - 1);
      RepetitionOnGrid(p, nu, base);
      GridsJoin(nu, Repetitions(p, nu, count - 1), Repetition(p, nu, base), 0, 14 * base, 14 * (base + p.period));
    }
  }

  /** The main result: for an accepted pattern with non-negative counts, reading the compiled points at
      the start of every symbol of the frame gives back the pattern; the points sit on symbol boundaries
      in order, and the list ends with DL at the end of the frame. */
  lemma CompiledPatternIsPrescribed(p: Pattern, nu: Numerology, points: seq<Point>)
    requires Check(p) == Ok(nu) && p.NonNegative()
    requires points == Repetitions(p, nu, NofRepetitions(p, nu))
    ensures ReadsBack(p, nu, points)
    ensures OnGrid(nu, points, 0, nu.FrameSymbols())
    ensures |points| > 0 && points[|points| - 1] == Point(DL, FRAME_TICKS)
  {
    var count := NofRepetitions(p, nu);
    RepetitionsFillFrame(nu, p.period);
    forall n: nat | n < nu.FrameSymbols() ensures DirectionAt(points, SymbolStart(nu, n)) == Prescribed(p, n) {
      RepetitionsClassify(p, nu, count, n);
    }
    RepetitionsOnGrid(p, nu, count);
    EndsInDownlink(p, nu, count);
    FrameIsFull(nu);
  }

  // ----- The validator -----

  /** The optional switching-point-id of a configured entry. */
  datatype PointId = Absent | NotAnInteger | Id(value: int)

  /** One entry of a configured list: not a mapping, or its three fields after upper-casing and integer
      coercion (None: not one of DL/UL/GP, respectively not an integer). */
  datatype RawPoint = NotAMapping | Entry(direction: Option<Direction>, offset: Option<int>, id: PointId)

  datatype NumberedPoint = NumberedPoint(point: Point, id: Option<int>)

  datatype PointError = EmptyList | MalformedEntry | BadDirection | BadOffset | Decreasing | MixedIds | BadId | DuplicateId

  const MAX_POINT_ID := 65535

  /** An entry that is acceptable on its own. */
  predicate EntryOk(e: RawPoint) {
    && e.Entry? && e.direction.Some? && e.offset.Some?
    && 0 <= e.offset.value <= FRAME_TICKS
    && !e.id.NotAnInteger?
    && (e.id.Id? ==> 0 <= e.id.value <= MAX_POINT_ID)
  }

  /** How an entry must relate to every earlier one: offsets in order, ids on both or on neither, and not
      the same id. */
  predicate PairOk(a: RawPoint, b: RawPoint)
    requires EntryOk(a) && EntryOk(b)
  {
    && a.offset.value <= b.offset.value
    && (a.id == Absent <==> b.id == Absent)
    && (a.id.Id? ==> a.id != b.id)
  }

  /** Whether the first `count` entries are acceptable. */
  predicate AcceptableTo(points: seq<RawPoint>, count: nat)
    requires count <= |points|
  {
    && (forall i :: 0 <= i < count ==> EntryOk(points[i]))
    && (forall i, j :: 0 <= i < j < count ==> PairOk(points[i], points[j]))
  }

  predicate Acceptable(points: seq<RawPoint>) {
    AcceptableTo(points, |points|)
  }

  function Normalized(e: RawPoint): NumberedPoint
    requires EntryOk(e)
  {
    NumberedPoint(Point(e.direction.value, e.offset.value), if e.id.Id? then Some(e.id.value) else None)
  }

  /** What is wrong with the first entry that is not acceptable, in the order in which its parts are read. */
  function OffenceAt(points: seq<RawPoint>, k: nat): PointError
    requires k < |points| && AcceptableTo(points, k)
  {
    var e := points[k];
    if e.NotAMapping? then MalformedEntry
    else if e.direction.None? then BadDirection
    else if e.offset.None? || !(0 <= e.offset.value <= FRAME_TICKS) then BadOffset
    else if exists i :: 0 <= i < k && points[i].offset.value > e.offset.value then Decreasing
    else if exists i :: 0 <= i < k && (points[i].id == Absent <==> e.id != Absent) then MixedIds
    else if e.id.NotAnInteger? || (e.id.Id? && !(0 <= e.id.value <= MAX_POINT_ID)) then BadId
    else DuplicateId
  }

  /** Entry k is the first that makes the list unacceptable. */
  predicate FirstOffender(points: seq<RawPoint>, k: nat) {
    k < |points| && AcceptableTo(points, k) && !AcceptableTo(points, k + 1)
  }

  /** What an error says of the list: of entry k, and of an earlier one where it names a pair. */
  ghost predicate OffenceMeans(points: seq<RawPoint>, k: nat, error: PointError)
    requires k < |points| && forall i :: 0 <= i < k ==> points[i].Entry? && points[i].offset.Some?
  {
    var e := points[k];
    match error
    case EmptyList => false
    case MalformedEntry => e == NotAMapping
    case BadDirection => e.Entry? && e.direction.None?
    case BadOffset => e.Entry? && e.direction.Some? && (e.offset.None? || e.offset.value < 0 || 12_288_000 < e.offset.value)
    case Decreasing => e.Entry? && e.offset.Some? && exists i :: 0 <= i < k && e.offset.value < points[i].offset.value
    case MixedIds => e.Entry? && exists i :: 0 <= i < k && (points[i].id == Absent) != (e.id == Absent)
    case BadId => e.Entry? && (e.id.NotAnInteger? || (e.id.Id? && (e.id.value < 0 || 65_535 < e.id.value)))
    case DuplicateId => e.Entry? && e.id.Id? && exists i :: 0 <= i < k && points[i].id == e.id
  }

  /** The error reported for the first offender is right about it. */
  lemma OffenceStandsFor(points: seq<RawPoint>, k: nat)
    requires FirstOffender(points, k)
    ensures OffenceMeans(points, k, OffenceAt(points, k))
  {
    var e := points[k];
    if EntryOk(e) {
      assert exists i :: 0 <= i < k && !PairOk(points[i], e);
    }
  }

  lemma AcceptableIff(points: seq<RawPoint>)
    ensures Acceptable(points) <==>
            && (forall k :: 0 <= k < |points| ==>
                              && points[k].Entry? && points[k].direction.Some? && points[k].offset.Some?
                              && 0 <= points[k].offset.value <= 12_288_000
                              && (points[k].id == Absent || (points[k].id.Id? && 0 <= points[k].id.value <= 65_535)))
            && (forall i, k :: 0 <= i < k < |points| ==>
                                 && points[i].offset.value <= points[k].offset.value
                                 && (points[i].id == Absent) == (points[k].id == Absent)
                                 && (points[i].id.Id? ==> points[i].id != points[k].id))
  {
    if Acceptable(points) {
      forall k | 0 <= k < |points| ensures EntryOk(points[k]) {}
      forall i, k | 0 <= i < k < |points| ensures PairOk(points[i], points[k]) {}
    }
  }

  lemma OneFirstOffender(points: seq<RawPoint>, j: nat, k: nat)
    requires FirstOffender(points, j) && FirstOffender(points, k)
    ensures j == k
  {
    assert j < k ==> AcceptableTo(points, j + 1);
    assert k < j ==> AcceptableTo(points, k + 1);
  }

  /** An acceptable entry's offset is the highest so far, and all ids are given or none. */
  lemma EarlierEntries(points: seq<RawPoint>, k: nat, i: nat)
    requires i < k <= |points| && AcceptableTo(points, k)
    ensures points[i].offset.value <= points[k - 1].offset.value
    ensures points[i].id == Absent <==> points[0].id == Absent
  {
    if i < k - 1 {
      assert PairOk(points[i], points[k - 1]);
    }
    if 0 < i {
      assert PairOk(points[0], points[i]);
    }
  }

  lemma OneMoreAcceptable(points: seq<RawPoint>, k: nat)
    requires k < |points| && AcceptableTo(points, k) && EntryOk(points[k])
    requires forall i :: 0 <= i < k ==> PairOk(points[i], points[k])
    ensures AcceptableTo(points, k + 1)
  {
  }

  method ValidateSwitchingPoints(points: seq<RawPoint>) returns (r: Result<seq<NumberedPoint>, PointError>)
    ensures points == [] ==> r == Err(EmptyList)
    ensures r.Ok? <==> points != [] && Acceptable(points)
    ensures r.Err? && points != [] ==> exists k: nat :: FirstOffender(points, k) && r.error == OffenceAt(points, k)
    ensures r.Ok? ==> |r.value| == |points| && forall i :: 0 <= i < |points| ==> r.value[i] == Normalized(points[i])
  {
    if points == [] {
      return Err(EmptyList);
    }
    var validated: seq<NumberedPoint> := [];
    var previousOffset := 0;
    var idsGiven: Option<bool> := None;
    var seenIds: set<int> := {};
    for k := 0 to |points|
      invariant AcceptableTo(points, k)
      invariant |validated| == k && forall i :: 0 <= i < k ==> validated[i] == Normalized(points[i])
      invariant if k == 0 then previousOffset == 0 else previousOffset == points[k - 1].offset.value
      invariant idsGiven == if k == 0 then None else Some(points[0].id != Absent)
      invariant forall x :: x in seenIds <==> exists i :: 0 <= i < k && points[i].id == Id(x)
    {
      var entry := points[k];
      forall i | 0 <= i < k
        ensures points[i].offset.value <= previousOffset && (points[i].id == Absent <==> idsGiven == Some(false))
      {
        EarlierEntries(points, k, i);
      }
      if entry.NotAMapping? {
        assert FirstOffender(points, k);
        return Err(MalformedEntry);
      }
      if entry.direction.None? {
        assert FirstOffender(points, k);
        return Err(BadDirection);
      }
      if entry.offset.None? || !(0 <= entry.offset.value <= FRAME_TICKS) {
        assert FirstOffender(points, k);
        return Err(BadOffset);
      }
      var offset := entry.offset.value;
      if offset < previousOffset {
        assert EntryOk(entry) ==> !PairOk(points[k - 1], points[k]);
        assert FirstOffender(points, k);
        return Err(Decreasing);
      }
      previousOffset := offset;
      var hasId := entry.id != Absent;
      if idsGiven.None? {
        idsGiven := Some(hasId);
      } else if hasId != idsGiven.value {
        assert EntryOk(entry) ==> !PairOk(points[0], points[k]);
        assert FirstOffender(points, k);
        return Err(MixedIds);
      }
      var id: Option<int> := None;
      if hasId {
        if entry.id.NotAnInteger? || !(0 <= entry.id.value <= MAX_POINT_ID) {
          assert FirstOffender(points, k);
          return Err(BadId);
        }
        if entry.id.value in seenIds {
          ghost var i :| 0 <= i < k && points[i].id == Id(entry.id.value);
          assert !PairOk(points[i], points[k]);
          assert FirstOffender(points, k);
          return Err(DuplicateId);
        }
        seenIds := seenIds + {entry.id.value};
        id := Some(entry.id.value);
      }
      forall i | 0 <= i < k ensures PairOk(points[i], points[k]) {
        assert EntryOk(points[i]);
      }
      OneMoreAcceptable(points, k);
      validated := validated + [NumberedPoint(Point(entry.direction.value, offset), id)];
    }
    r := Ok(validated);
  }

  /** A compiled list as a configured one: no ids. */
  function AsEntries(points: seq<Point>): (entries: seq<RawPoint>)
    ensures |entries| == |points|
  {
    seq(|points|, i requires 0 <= i < |points| => Entry(Some(points[i].direction), Some(points[i].offset), Absent))
  }

  /** The validator accepts every compiled list with non-negative counts, and returns it unchanged. */
  lemma CompiledPatternValidates(p: Pattern, nu: Numerology, points: seq<Point>)
    requires Check(p) == Ok(nu) && p.NonNegative()
    requires points == Repetitions(p, nu, NofRepetitions(p, nu))
    ensures AsEntries(points) != [] && Acceptable(AsEntries(points))
    ensures forall i :: 0 <= i < |points| ==> Normalized(AsEntries(points)[i]) == NumberedPoint(points[i], None)
  {
    CompiledPatternIsPrescribed(p, nu, points);
    FrameIsFull(nu);
    forall i | 0 <= i < |points| ensures 0 <= points[i].offset <= FRAME_TICKS {
      var k: nat :| 0 <= k <= nu.FrameSymbols() && points[i].offset == SymbolStart(nu, k);
      StartOrder(nu, 0, k);
      StartOrder(nu, k, nu.FrameSymbols());
    }
  }
}
