/** Which patterns the compiler accepts, told from the slots they lay out: a period is a row of slots, and the frame a
    whole number of periods. */
module TddLayout {
  import opened Arithmetic
  import opened Options
  import opened SymbolTiming
  import opened TddPattern

  // ----- Slots -----

  /** One slot, by the directions of its fourteen symbols. */
  type Slot = seq<Direction>

  function Repeat<T>(x: T, count: nat): (s: seq<T>)
    ensures |s| == count && forall i :: 0 <= i < count ==> s[i] == x
  {
    seq(count, _ => x)
  }

  const DOWNLINK_SLOT: Slot := Repeat(DL, 14)
  const UPLINK_SLOT: Slot := Repeat(UL, 14)

  /** A slot that starts in downlink, guards, and ends in uplink. */
  function SpecialSlot(downlink: nat, guard: nat, uplink: nat): Slot {
    Repeat(DL, downlink) + Repeat(GP, guard) + Repeat(UL, uplink)
  }

  /** A period as it is laid out: downlink slots, at most one special slot of fourteen symbols, uplink slots. */
  datatype Layout = Layout(downlink: nat, special: Option<Slot>, uplink: nat)
  {
    function Slots(): seq<Slot> {
      Repeat(DOWNLINK_SLOT, downlink) + (if special.Some? then [special.value] else []) + Repeat(UPLINK_SLOT, uplink)
    }
  }

  const SPACINGS: set<int> := {15, 30, 60, 120, 240}

  /** Slots in a 10 ms frame: one per millisecond at 15 kHz, in proportion to the spacing. */
  function SlotsPerFrame(scsKhz: int): int {
    10 * (scsKhz / 15)
  }

  /** The layout has the pattern's counts: its downlink slots, a special slot with its symbols just when it has
      any, and its uplink slots if it gives them. */
  ghost predicate LaysOut(p: Pattern, layout: Layout) {
    && layout.downlink == p.dlSlots
    && (p.ulSlots.Some? ==> layout.uplink == p.ulSlots.value)
    && if p.dlSymbols == 0 && p.ulSymbols == 0 then layout.special == None
       else exists guard: nat :: HasGuard(p, layout, guard)
  }

  ghost predicate HasGuard(p: Pattern, layout: Layout, guard: nat) {
    p.NonNegative() && p.dlSymbols + guard + p.ulSymbols == 14
    && layout.special == Some(SpecialSlot(p.dlSymbols, guard, p.ulSymbols))
  }

  /** A frame of a supported spacing is a whole number of periods of that many slots. */
  ghost predicate FillsFrame(scsKhz: int, period: int) {
    scsKhz in SPACINGS && 0 < period && exists count :: Divides(count, period, SlotsPerFrame(scsKhz))
  }

  predicate Divides(count: int, period: int, n: int) {
    count * period == n
  }

  ghost predicate Laid(p: Pattern, layout: Layout) {
    LaysOut(p, layout) && |layout.Slots()| == p.period
  }

  lemma MultiplesFill(n: int, period: int)
    requires 0 < period
    ensures n % period == 0 <==> exists count :: Divides(count, period, n)
  {
    if n % period == 0 {
      assert n == n / period * period;
      assert Divides(n / period, period, n);
    }
    if exists count :: Divides(count, period, n) {
      var count :| Divides(count, period, n);
      DivModUnique(n, period, count, 0);
    }
  }

  lemma FillsIff(p: Pattern)
    ensures FillsFrame(p.scsKhz, p.period) <==>
            NumerologyOf(p.scsKhz).Some? && 0 < p.period && 10 * NumerologyOf(p.scsKhz).value.slots % p.period == 0
  {
    SpacingsAreSupported(p.scsKhz);
    if 0 < p.period {
      MultiplesFill(SlotsPerFrame(p.scsKhz), p.period);
    }
  }

  lemma SpacingsAreSupported(scsKhz: int)
    ensures scsKhz in SPACINGS <==> NumerologyOf(scsKhz).Some?
    ensures scsKhz in SPACINGS ==> SlotsPerFrame(scsKhz) == 10 * NumerologyOf(scsKhz).value.slots
  {
  }

  // ----- Acceptance -----

  /** What each error of the compiler stands for. */
  ghost predicate Violates(p: Pattern, e: PatternError) {
    match e
    case UnsupportedScs => p.scsKhz !in SPACINGS
    case PeriodNotInFrame => !FillsFrame(p.scsKhz, p.period)
    case SymbolsExceedSlot => 14 < p.dlSymbols + p.ulSymbols
    case SlotsExceedPeriod => p.period < p.dlSlots + (if p.dlSymbols == 0 && p.ulSymbols == 0 then 0 else 1)
    case SlotBudgetMismatch =>
      p.ulSlots.Some?
      && p.dlSlots + (if p.dlSymbols == 0 && p.ulSymbols == 0 then 0 else 1) + p.ulSlots.value != p.period
  }

  const ERRORS := [UnsupportedScs, PeriodNotInFrame, SymbolsExceedSlot, SlotsExceedPeriod, SlotBudgetMismatch]

  /** Whatever the signs of its counts: a pattern is refused with the first of the five errors that it violates, and
      accepted iff it violates none. */
  lemma RefusedForFirstViolation(p: Pattern)
    ensures Check(p).Ok? <==> forall i :: 0 <= i < |ERRORS| ==> !Violates(p, ERRORS[i])
    ensures forall i :: 0 <= i < |ERRORS| ==>
                          (Check(p) == Err(ERRORS[i])
                           <==> Violates(p, ERRORS[i]) && forall j :: 0 <= j < i ==> !Violates(p, ERRORS[j]))
  {
    SpacingsAreSupported(p.scsKhz);
    FillsIff(p);
    assert ERRORS[0] == UnsupportedScs && ERRORS[1] == PeriodNotInFrame && ERRORS[2] == SymbolsExceedSlot
           && ERRORS[3] == SlotsExceedPeriod && ERRORS[4] == SlotBudgetMismatch;
  }

  function LayoutOf(p: Pattern): Layout
    requires Check(p).Ok? && p.NonNegative()
  {
    if p.HasSpecialSlot()
    then Layout(p.dlSlots, Some(SpecialSlot(p.dlSymbols, p.GuardSymbols(), p.ulSymbols)), p.period - p.dlSlots - 1)
    else Layout(p.dlSlots, None, p.period - p.dlSlots)
  }

  lemma LayoutIsLaid(p: Pattern)
    requires Check(p).Ok? && p.NonNegative()
    ensures Laid(p, LayoutOf(p))
  {
    if p.HasSpecialSlot() {
      assert HasGuard(p, LayoutOf(p), p.GuardSymbols());
    }
  }

  lemma LaidIsWithin(p: Pattern, layout: Layout)
    requires p.NonNegative() && Laid(p, layout)
    ensures p.dlSymbols + p.ulSymbols <= 14
    ensures p.dlSlots + (if p.HasSpecialSlot() then 1 else 0) + layout.uplink == p.period
  {
    if p.HasSpecialSlot() {
      var guard: nat :| HasGuard(p, layout, guard);
    }
  }

  /** A pattern without negative counts is accepted iff a period of its slots exists and periods fill the frame. */
  lemma AcceptedIffLaidOut(p: Pattern)
    requires p.NonNegative()
    ensures Check(p).Ok? <==> FillsFrame(p.scsKhz, p.period) && exists layout :: Laid(p, layout)
  {
    RefusedForFirstViolation(p);
    if Check(p).Ok? {
      assert !Violates(p, ERRORS[1]);
      LayoutIsLaid(p);
    } else if FillsFrame(p.scsKhz, p.period) && exists layout :: Laid(p, layout) {
      var layout :| Laid(p, layout);
      LaidIsWithin(p, layout);
    }
  }

  // ----- Reading the layout -----

  /** A pattern has no other layout than the one. */
  lemma OneLayout(p: Pattern, layout: Layout)
    requires Check(p).Ok? && p.NonNegative() && Laid(p, layout)
    ensures layout == LayoutOf(p)
  {
    LaidIsWithin(p, layout);
    if p.HasSpecialSlot() {
      var guard: nat :| HasGuard(p, layout, guard);
    }
  }

  /** What the pattern prescribes is what its layout says, slot by slot and symbol by symbol. */
  lemma PrescribedIsLayout(p: Pattern, layout: Layout, slot: nat, symbol: nat)
    requires Check(p).Ok? && p.NonNegative() && Laid(p, layout) && slot < p.period && symbol < 14
    ensures |layout.Slots()| == p.period && |layout.Slots()[slot]| == 14
    ensures PrescribedInPeriod(p, slot, symbol) == layout.Slots()[slot][symbol]
  {
    OneLayout(p, layout);
  }

  /** The compiled list against the layout: for every accepted pattern without negative counts, reading it at the start
      of the n-th symbol of the frame gives that symbol of the layout, period after period. */
  lemma CompiledFrameIsLayout(p: Pattern, nu: Numerology, points: seq<Point>, layout: Layout, n: nat)
    requires Check(p) == Ok(nu) && p.NonNegative() && points == Repetitions(p, nu, NofRepetitions(p, nu))
    requires Laid(p, layout) && n < 14 * SlotsPerFrame(p.scsKhz)
    ensures var slot := n / 14 % p.period;
            && slot < |layout.Slots()| && |layout.Slots()[slot]| == 14
            && DirectionAt(points, SymbolStart(nu, n)) == layout.Slots()[slot][n % 14]
  {
    SpacingsAreSupported(p.scsKhz);
    CompiledPatternIsPrescribed(p, nu, points);
    assert ReadsBack(p, nu, points);
    PrescribedIsLayout(p, layout, n / 14 % p.period, n % 14);
  }

  /** The last `uplink` slots of a layout, and of no other count, follow the downlink and special slots; a given count of
      uplink slots is theirs. */
  lemma UplinkSlots(p: Pattern, layout: Layout, slot: nat)
    requires Check(p).Ok? && p.NonNegative() && Laid(p, layout) && slot < p.period
    ensures p.ulSlots.Some? ==> layout.uplink == p.ulSlots.value
    ensures p.period - layout.uplink <= slot <==> p.dlSlots + (if p.HasSpecialSlot() then 1 else 0) <= slot
    ensures p.period - layout.uplink <= slot ==> forall symbol :: 0 <= symbol < 14 ==> PrescribedInPeriod(p, slot, symbol) == UL
    ensures slot < p.dlSlots ==> forall symbol :: 0 <= symbol < 14 ==> PrescribedInPeriod(p, slot, symbol) == DL
  {
    LaidIsWithin(p, layout);
  }

  /** Seven downlink, one special and three uplink slots are no layout of a period of ten. */
  lemma BudgetIsChecked()
    ensures Check(Pattern(30, 10, 7, 6, 4, Some(3))) == Err(SlotBudgetMismatch)
    ensures Check(Pattern(30, 10, 7, 6, 4, Some(2))).Ok?
  {
  }
}
