/** OFDM symbol timing of a 10 ms radio frame (TS 38.211, section 5.3.1), in exact ticks of
    1/1.2288 GHz, and the closed form the switching-point compiler uses for symbol boundaries. */
module SymbolTiming {
  import opened Arithmetic
  import opened Options

  const FRAME_TICKS := 12_288_000
  const SUBFRAME_TICKS := 1_228_800
  const LONG_CP_EXTRA_TICKS := 640

  /** What depends on the subcarrier spacing: 2^mu slots per subframe, and the length of a symbol with
      a normal cyclic prefix. */
  datatype Numerology = Numerology(slots: int, symbolTicks: int)
  {
    /** The symbols of a subframe, two long prefixes included, fill it exactly. */
    predicate Valid() {
      && 0 < slots
      && slots * symbolTicks == 87_680
    }

    /** Symbols in one half-subframe; the first of each carries the long cyclic prefix. */
    function HalfSubframe(): int {
      7 * slots
    }

    function FrameSymbols(): int {
      140 * slots
    }
  }

  /** The numerologies of the five subcarrier spacings, as useful part plus normal cyclic prefix. */
  function NumerologyOf(scsKhz: int): (nu: Option<Numerology>)
    ensures nu.Some? ==> nu.value.Valid()
  {
    if scsKhz == 15 then Some(Numerology(1, 81_920 + 5_760))
    else if scsKhz == 30 then Some(Numerology(2, 40_960 + 2_880))
    else if scsKhz == 60 then Some(Numerology(4, 20_480 + 1_440))
    else if scsKhz == 120 then Some(Numerology(8, 10_240 + 720))
    else if scsKhz == 240 then Some(Numerology(16, 5_120 + 360))
    else None
  }

  /** The constants are the integer divisions the compiler performs: useful part 1/scs, prefix 9/128 of
      it; and neither division rounds. */
  lemma NumerologyIsExact(scsKhz: int)
    requires NumerologyOf(scsKhz).Some?
    ensures var useful := 1_228_800_000 / (scsKhz * 1000);
            && NumerologyOf(scsKhz).value.symbolTicks == useful + useful * 9 / 128
            && useful * (scsKhz * 1000) == 1_228_800_000
            && useful * 9 % 128 == 0
    ensures NumerologyOf(scsKhz).value.slots * 15 == scsKhz
  {
    var nu := NumerologyOf(scsKhz).value;
    var useful := if scsKhz == 15 then 81_920 else if scsKhz == 30 then 40_960 else if scsKhz == 60 then 20_480
                  else if scsKhz == 120 then 10_240 else 5_120;
    DivModUnique(1_228_800_000, scsKhz * 1000, useful, 0);
    DivModUnique(useful * 9, 128, nu.symbolTicks - useful, 0);
  }

  /** The tick before which `endSymbol` symbols of subframe `subframe` have elapsed, in closed form. */
  function SubframeBoundaryTicks(nu: Numerology, subframe: int, endSymbol: int): int {
    var longCps := (if 0 < endSymbol then 1 else 0) + (if 7 * nu.slots < endSymbol then 1 else 0);
    subframe * SUBFRAME_TICKS + endSymbol * nu.symbolTicks + longCps * LONG_CP_EXTRA_TICKS
  }

  /** The tick before which `nofSymbols` symbols of slot `slot` have elapsed. */
  function SymbolBoundaryTicks(nu: Numerology, slot: int, nofSymbols: int): int
    requires nu.Valid()
  {
    SubframeBoundaryTicks(nu, slot / nu.slots, slot % nu.slots * 14 + nofSymbols)
  }

  // ----- The standard's symbol-by-symbol definition -----

  /** Whether the n-th symbol of the frame is long: l = 0 and l = 7*2^mu of each subframe are. */
  predicate IsLong(nu: Numerology, n: nat)
    requires nu.Valid()
  {
    if n < 2 * nu.HalfSubframe() then n == 0 || n == nu.HalfSubframe() else IsLong(nu, n - 2 * nu.HalfSubframe())
  }

  function SymbolTicks(nu: Numerology, n: nat): int
    requires nu.Valid()
  {
    nu.symbolTicks + if IsLong(nu, n) then LONG_CP_EXTRA_TICKS else 0
  }

  /** Where the n-th symbol starts: the lengths of all symbols before it. */
  function SymbolStart(nu: Numerology, n: nat): int
    requires nu.Valid()
  {
    if n == 0 then 0 else SymbolStart(nu, n - 1) + SymbolTicks(nu, n - 1)
  }

  // ----- The closed form is the sum -----

  /** Symbol q*h + r lies in half-subframe q, which is long exactly at its start. */
  lemma {:induction false} LongAtHalfSubframeStart(nu: Numerology, n: nat, q: nat, r: nat)
    requires nu.Valid() && r < nu.HalfSubframe() && n == q * nu.HalfSubframe() + r
    ensures IsLong(nu, n) <==> r == 0
    decreases q
  {
    var h := nu.HalfSubframe();
    if q <= 1 {
    } else {
      Distribute(q - 2, 2, h);
      MultipleAtLeast(q - 1, h);
      Distribute(q - 1, 1, h);
      LongAtHalfSubframeStart(nu, n - 2 * h, q - 2, r);
    }
  }

  /** The start of the r-th symbol of half-subframe q. */
  lemma {:induction false} StartInClosedForm(nu: Numerology, n: nat, q: nat, r: nat)
    requires nu.Valid() && r <= nu.HalfSubframe() && n == q * nu.HalfSubframe() + r
    ensures SymbolStart(nu, n)
            == n * nu.symbolTicks + (q + if r == 0 then 0 else 1) * LONG_CP_EXTRA_TICKS
    decreases n, q
  {
    var h, ticks := nu.HalfSubframe(), nu.symbolTicks;
    if 0 < r {
      StartInClosedForm(nu, n - 1, q, r - 1);
      LongAtHalfSubframeStart(nu, n - 1, q, r - 1);
      Distribute(n - 1, 1, ticks);
    } else if 0 < q {
      Distribute(q - 1, 1, h);
      StartInClosedForm(nu, n, q - 1, h);
    } else {
      assert n == 0;
    }
  }

  /** n symbol lengths, for the n-th symbol boundary of a frame counted by slot. */
  lemma SpanBySubframe(nu: Numerology, subframe: nat, endSymbol: nat)
    requires nu.Valid()
    ensures (14 * subframe * nu.slots + endSymbol) * nu.symbolTicks
            == subframe * (SUBFRAME_TICKS - 2 * LONG_CP_EXTRA_TICKS) + endSymbol * nu.symbolTicks
  {
    Distribute(14 * subframe * nu.slots, endSymbol, nu.symbolTicks);
    Reassociate(14 * subframe, nu.slots, nu.symbolTicks);
  }

  lemma StartBySubframe(nu: Numerology, subframe: nat, endSymbol: nat)
    requires nu.Valid() && endSymbol <= 14 * nu.slots
    ensures SymbolStart(nu, 14 * subframe * nu.slots + endSymbol) == SubframeBoundaryTicks(nu, subframe, endSymbol)
  {
    var h := nu.HalfSubframe();
    var n := 14 * subframe * nu.slots + endSymbol;
    Reassociate(2 * subframe, 7, nu.slots);
    assert n == (2 * subframe) * h + endSymbol;
    SpanBySubframe(nu, subframe, endSymbol);
    if endSymbol <= h {
      StartInClosedForm(nu, n, 2 * subframe, endSymbol);
    } else {
      Distribute(2 * subframe, 1, h);
      StartInClosedForm(nu, n, 2 * subframe + 1, endSymbol - h);
    }
  }

  lemma SymbolsBySubframe(nu: Numerology, slot: nat)
    requires nu.Valid()
    ensures 14 * slot == 14 * (slot / nu.slots) * nu.slots + slot % nu.slots * 14
    ensures 0 <= slot / nu.slots && 0 <= slot % nu.slots <= nu.slots - 1
  {
    Reassociate(14, slot / nu.slots, nu.slots);
  }

  /** The compiler's closed form equals the sum of the lengths of all preceding symbols. */
  lemma BoundaryIsSymbolStart(nu: Numerology, slot: nat, nofSymbols: nat)
    requires nu.Valid() && nofSymbols <= 14
    ensures SymbolBoundaryTicks(nu, slot, nofSymbols) == SymbolStart(nu, 14 * slot + nofSymbols)
  {
    SymbolsBySubframe(nu, slot);
    StartBySubframe(nu, slot / nu.slots, slot % nu.slots * 14 + nofSymbols);
  }

  /** Fourteen symbols into a slot is where the next slot starts. */
  lemma SlotEndMeetsNextSlot(nu: Numerology, slot: nat)
    requires nu.Valid()
    ensures SymbolBoundaryTicks(nu, slot, 14) == SymbolBoundaryTicks(nu, slot + 1, 0)
  {
    BoundaryIsSymbolStart(nu, slot, 14);
    BoundaryIsSymbolStart(nu, slot + 1, 0);
  }

  lemma SymbolTicksPositive(nu: Numerology)
    requires nu.Valid()
    ensures 0 < nu.symbolTicks
  {
    if nu.symbolTicks <= 0 {
      MultipleAtLeast(nu.symbolTicks, nu.slots);
    }
  }

  lemma {:induction false} StartIsStrictlyIncreasing(nu: Numerology, m: nat, n: nat)
    requires nu.Valid() && m < n
    ensures SymbolStart(nu, m) < SymbolStart(nu, n)
    decreases n - m
  {
    SymbolTicksPositive(nu);
    if m + 1 < n {
      StartIsStrictlyIncreasing(nu, m, n - 1);
    }
  }

  lemma StartOrder(nu: Numerology, m: nat, n: nat)
    requires nu.Valid()
    ensures m <= n <==> SymbolStart(nu, m) <= SymbolStart(nu, n)
  {
    if m < n {
      StartIsStrictlyIncreasing(nu, m, n);
    } else if n < m {
      StartIsStrictlyIncreasing(nu, n, m);
    }
  }

  /** The symbols of a frame fill its 10 ms exactly. */
  lemma FrameIsFull(nu: Numerology)
    requires nu.Valid()
    ensures SymbolStart(nu, nu.FrameSymbols()) == FRAME_TICKS
  {
    StartInClosedForm(nu, nu.FrameSymbols(), 20, 0);
    Reassociate(140, nu.slots, nu.symbolTicks);
  }

  // ----- When repetitions are translations -----

  ghost predicate Translates(nu: Numerology, shift: nat, n: nat)
    requires nu.Valid()
  {
    SymbolStart(nu, n + shift) == SymbolStart(nu, n) + SymbolStart(nu, shift)
  }

  lemma ShiftKeepsLength(nu: Numerology, halfSubframes: nat, n: nat)
    requires nu.Valid()
    ensures SymbolTicks(nu, n + halfSubframes * nu.HalfSubframe()) == SymbolTicks(nu, n)
  {
    var h := nu.HalfSubframe();
    var q, r := n / h, n % h;
    assert n == q * h + r;
    Distribute(q, halfSubframes, h);
    LongAtHalfSubframeStart(nu, n, q, r);
    LongAtHalfSubframeStart(nu, n + halfSubframes * h, q + halfSubframes, r);
  }

  lemma {:induction false} WholeHalfSubframesTranslate(nu: Numerology, halfSubframes: nat, n: nat)
    requires nu.Valid()
    ensures Translates(nu, halfSubframes * nu.HalfSubframe(), n)
  {
    if n == 0 {
    } else {
      WholeHalfSubframesTranslate(nu, halfSubframes, n - 1);
      ShiftKeepsLength(nu, halfSubframes, n - 1);
    }
  }

  /** The first symbol of the frame is long; one a partial half-subframe later is not. */
  lemma PartialHalfSubframeDoesNotTranslate(nu: Numerology, shift: nat)
    requires nu.Valid() && shift % nu.HalfSubframe() != 0
    ensures !Translates(nu, shift, 1)
  {
    var h := nu.HalfSubframe();
    assert shift == shift / h * h + shift % h;
    LongAtHalfSubframeStart(nu, shift, shift / h, shift % h);
    assert SymbolStart(nu, 1) == SymbolStart(nu, 0) + SymbolTicks(nu, 0);
  }

  lemma PeriodInHalfSubframes(nu: Numerology, period: nat)
    requires nu.Valid()
    ensures 14 * period % nu.HalfSubframe() == 7 * (2 * period % nu.slots)
  {
    var q, r := 2 * period / nu.slots, 2 * period % nu.slots;
    assert 2 * period == q * nu.slots + r && r <= nu.slots - 1;
    Reassociate(q, 7, nu.slots);
    Reassociate(7, q, nu.slots);
    DivModUnique(14 * period, nu.HalfSubframe(), q, 7 * r);
  }

  /** A pattern period of `period` slots repeats by pure translation exactly when it covers whole
      half-subframes, hence always with one or two slots per subframe (15 and 30 kHz). */
  lemma RepetitionTranslatesIff(nu: Numerology, period: nat)
    requires nu.Valid()
    ensures (forall n: nat :: Translates(nu, 14 * period, n)) <==> 2 * period % nu.slots == 0
    ensures nu.slots <= 2 ==> forall n: nat :: Translates(nu, 14 * period, n)
  {
    var h := nu.HalfSubframe();
    PeriodInHalfSubframes(nu, period);
    if nu.slots <= 2 {
      DivModUnique(2 * period, nu.slots, if nu.slots == 1 then 2 * period else period, 0);
    }
    if 2 * period % nu.slots == 0 {
      assert 14 * period == 14 * period / h * h;
      forall n: nat ensures Translates(nu, 14 * period, n) {
        WholeHalfSubframesTranslate(nu, 14 * period / h, n);
      }
    } else {
      PartialHalfSubframeDoesNotTranslate(nu, 14 * period);
    }
  }
}
