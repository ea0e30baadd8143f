/** When the validator accepts a compiled switching-point list: the compiler's guards look at sums of the
    counts but not at their signs, so some accepted patterns compile to a list out of order or out of the
    frame. */
module TddAcceptance {
  import opened Arithmetic
  import opened Options
  import opened SymbolTiming
  import opened TddPattern

  // ----- Where a repetition's switching falls -----

  function PeriodStart(p: Pattern, nu: Numerology, k: int): int
    requires nu.Valid()
  {
    SymbolBoundaryTicks(nu, k * p.period, 0)
  }

  function DownlinkEnd(p: Pattern, nu: Numerology, k: int): int
    requires nu.Valid()
  {
    SymbolBoundaryTicks(nu, k * p.period + p.dlSlots, p.dlSymbols)
  }

  /** Without a special slot the uplink starts where the downlink ends. */
  function UplinkStart(p: Pattern, nu: Numerology, k: int): int
    requires nu.Valid()
  {
    if p.HasSpecialSlot() then SymbolBoundaryTicks(nu, k * p.period + p.dlSlots, 14 - p.ulSymbols)
    else DownlinkEnd(p, nu, k)
  }

  /** The downlink of a repetition ends no earlier than the repetition starts, and its uplink starts no later
      than it ends. */
  predicate SwitchesWithin(p: Pattern, nu: Numerology, k: int)
    requires nu.Valid()
  {
    PeriodStart(p, nu, k) <= DownlinkEnd(p, nu, k) && UplinkStart(p, nu, k) <= PeriodStart(p, nu, k + 1)
  }

  // ----- The order of points -----

  /** The offsets lie between two ticks and do not decrease. */
  predicate Between(points: seq<Point>, lo: int, hi: int) {
    && (forall i :: 0 <= i < |points| ==> lo <= points[i].offset <= hi)
    && (forall i, j :: 0 <= i < j < |points| ==> points[i].offset <= points[j].offset)
  }

  lemma AcceptableIffBetween(points: seq<Point>)
    ensures Acceptable(AsEntries(points)) <==> Between(points, 0, FRAME_TICKS)
  {
    var entries := AsEntries(points);
    if Acceptable(entries) {
      forall i | 0 <= i < |points| ensures 0 <= points[i].offset <= FRAME_TICKS {
        assert EntryOk(entries[i]);
      }
      forall i, j | 0 <= i < j < |points| ensures points[i].offset <= points[j].offset {
        assert PairOk(entries[i], entries[j]);
      }
    }
  }

  lemma BetweenInParts(earlier: seq<Point>, rep: seq<Point>, lo: int, mid: int, hi: int)
    requires rep != [] && rep[|rep| - 1].offset == hi && lo <= mid <= hi
    requires if earlier == [] then mid == lo else earlier[|earlier| - 1].offset == mid
    ensures Between(earlier + rep, lo, hi) <==> Between(earlier, lo, mid) && Between(rep, mid, hi)
  {
    var all, n := earlier + rep, |earlier|;
    if Between(all, lo, hi) {
      forall i | 0 <= i < n ensures lo <= earlier[i].offset <= mid {
        assert earlier[i] == all[i] && all[n - 1] == earlier[n - 1];
        assert i < n - 1 ==> all[i].offset <= all[n - 1].offset;
      }
      forall j | 0 <= j < |rep| ensures mid <= rep[j].offset <= hi {
        assert rep[j] == all[n + j];
        assert n > 0 ==> all[n - 1] == earlier[n - 1] && all[n - 1].offset <= all[n + j].offset;
      }
      forall i, j | 0 <= i < j < |rep| ensures rep[i].offset <= rep[j].offset {
        assert rep[i] == all[n + i] && rep[j] == all[n + j];
      }
      forall i, j | 0 <= i < j < n ensures earlier[i].offset <= earlier[j].offset {
        assert earlier[i] == all[i] && earlier[j] == all[j];
      }
    }
  }

  /** More symbols into a slot is later. */
  lemma LaterInSlot(nu: Numerology, slot: int, a: int, b: int)
    requires nu.Valid() && a < b
    ensures SymbolBoundaryTicks(nu, slot, a) < SymbolBoundaryTicks(nu, slot, b)
  {
    SymbolTicksPositive(nu);
    var first := slot % nu.slots * 14;
    Distribute(first + b, first + a, nu.symbolTicks);
    MultipleAtLeast(b - a, nu.symbolTicks);
  }

  lemma RepetitionPoints(p: Pattern, nu: Numerology, k: int)
    requires nu.Valid()
    ensures var gp, ul := Point(GP, DownlinkEnd(p, nu, k)), Point(UL, UplinkStart(p, nu, k));
            var dl := Point(DL, PeriodStart(p, nu, k + 1));
            Repetition(p, nu, k * p.period) == if p.GuardSymbols() > 0 && p.HasSpecialSlot() then [gp, ul, dl] else [ul, dl]
  {
    Distribute(k, 1, p.period);
    assert (k + 1) * p.period == k * p.period + p.period;
  }

  /** One repetition is in order exactly when it switches within its period. */
  lemma RepetitionBetweenIff(p: Pattern, nu: Numerology, k: int)
    requires nu.Valid() && 0 <= p.GuardSymbols()
    ensures var rep := Repetition(p, nu, k * p.period);
            && rep != [] && rep[|rep| - 1].offset == PeriodStart(p, nu, k + 1)
            && (Between(rep, PeriodStart(p, nu, k), PeriodStart(p, nu, k + 1)) <==> SwitchesWithin(p, nu, k))
  {
    var gp, ul := Point(GP, DownlinkEnd(p, nu, k)), Point(UL, UplinkStart(p, nu, k));
    var dl := Point(DL, PeriodStart(p, nu, k + 1));
    RepetitionPoints(p, nu, k);
    if p.GuardSymbols() > 0 && p.HasSpecialSlot() {
      LaterInSlot(nu, k * p.period + p.dlSlots, p.dlSymbols, 14 - p.ulSymbols);
      BetweenThree(gp, ul, dl, PeriodStart(p, nu, k));
    } else {
      BetweenTwo(ul, dl, PeriodStart(p, nu, k));
    }
  }

  lemma BetweenTwo(a: Point, b: Point, lo: int)
    ensures Between([a, b], lo, b.offset) <==> lo <= a.offset <= b.offset
  {
    assert [a, b][0] == a && [a, b][1] == b;
  }

  lemma BetweenThree(a: Point, b: Point, c: Point, lo: int)
    requires a.offset < b.offset
    ensures Between([a, b, c], lo, c.offset) <==> lo <= a.offset && b.offset <= c.offset
  {
    assert [a, b, c][0] == a && [a, b, c][1] == b && [a, b, c][2] == c;
  }

  lemma LastIsPeriodStart(p: Pattern, nu: Numerology, count: nat)
    requires nu.Valid() && 0 <= p.GuardSymbols()
    ensures var points := Repetitions(p, nu, count);
            if points == [] then count == 0 else points[|points| - 1].offset == PeriodStart(p, nu, count)
  {
    if count > 0 {
      RepetitionBetweenIff(p, nu, count - 1);
    }
  }

  lemma PeriodStartsInOrder(p: Pattern, nu: Numerology, k: nat)
    requires nu.Valid() && 0 < p.period
    ensures 0 == PeriodStart(p, nu, 0) <= PeriodStart(p, nu, k) <= PeriodStart(p, nu, k + 1)
  {
    Distribute(k, 1, p.period);
    BoundaryIsSymbolStart(nu, 0, 0);
    BoundaryIsSymbolStart(nu, k * p.period, 0);
    BoundaryIsSymbolStart(nu, (k + 1) * p.period, 0);
    StartOrder(nu, 0, 14 * (k * p.period));
    StartOrder(nu, 14 * (k * p.period), 14 * ((k + 1) * p.period));
  }

  lemma {:induction false} RepetitionsBetweenIff(p: Pattern, nu: Numerology, count: nat)
    requires nu.Valid() && 0 <= p.GuardSymbols() && 0 < p.period
    ensures Between(Repetitions(p, nu, count), 0, PeriodStart(p, nu, count))
            <==> forall k :: 0 <= k < count ==> SwitchesWithin(p, nu, k)
  {
    if count > 0 {
      RepetitionsBetweenIff(p, nu, count - 1);
      OneMoreBetweenIff(p, nu, count - 1);
    }
  }

  lemma OneMoreBetweenIff(p: Pattern, nu: Numerology, count: nat)
    requires nu.Valid() && 0 <= p.GuardSymbols() && 0 < p.period
    ensures Between(Repetitions(p, nu, count + 1), 0, PeriodStart(p, nu, count + 1))
            <==> Between(Repetitions(p, nu, count), 0, PeriodStart(p, nu, count)) && SwitchesWithin(p, nu, count)
  {
    var earlier, rep := Repetitions(p, nu, count), Repetition(p, nu, count * p.period);
    LastIsPeriodStart(p, nu, count);
    RepetitionBetweenIff(p, nu, count);
    PeriodStartsInOrder(p, nu, count);
    assert Repetitions(p, nu, count + 1) == earlier + rep;
    BetweenInParts(earlier, rep, 0, PeriodStart(p, nu, count), PeriodStart(p, nu, count + 1));
  }

  /** For every accepted pattern, whatever the signs of its counts: the validator accepts the compiled list
      exactly when every repetition switches within its period. */
  lemma CompiledIsAcceptableIff(p: Pattern, nu: Numerology, points: seq<Point>)
    requires Check(p) == Ok(nu) && points == Repetitions(p, nu, NofRepetitions(p, nu))
    ensures points != []
    ensures Acceptable(AsEntries(points)) <==> forall k :: 0 <= k < NofRepetitions(p, nu) ==> SwitchesWithin(p, nu, k)
  {
    var count := NofRepetitions(p, nu);
    RepetitionsFillFrame(nu, p.period);
    LastIsPeriodStart(p, nu, count);
    RepetitionsBetweenIff(p, nu, count);
    BoundaryIsSymbolStart(nu, count * p.period, 0);
    FrameIsFull(nu);
    AcceptableIffBetween(points);
  }

  // ----- In symbols -----

  lemma ProductInOrder(a: int, b: int, d: int)
    requires 0 < d
    ensures a <= b <==> a * d <= b * d
  {
    Distribute(b, a, d);
    MultipleAtLeast(b - a, d);
  }

  /** The boundary at a slot start, against one counted from another slot by less than a slot's worth of
      symbols beyond either end: the ticks are in the order of the symbols. Further out they are not. */
  lemma BoundaryOrder(nu: Numerology, x: int, s: int, y: int)
    requires nu.Valid() && nu.slots <= 16 && -14 < s < 28
    ensures SymbolBoundaryTicks(nu, x, s) <= SymbolBoundaryTicks(nu, y, 0) <==> 14 * x + s <= 14 * y
    ensures SymbolBoundaryTicks(nu, y, 0) <= SymbolBoundaryTicks(nu, x, s) <==> 14 * y <= 14 * x + s
  {
    var n := nu.slots;
    var q, r, q', r' := x / n, x % n, y / n, y % n;
    TicksAtLeast(nu);
    SlotsApart(x, y, n);
    SubframesApart(nu, r * 14 + s, r' * 14, q - q');
  }

  lemma SlotsApart(x: int, y: int, n: int)
    requires 0 < n
    ensures x - y == n * (x / n - y / n) + x % n - y % n
  {
    assert x == n * (x / n) + x % n && y == n * (y / n) + y % n;
    Distribute(x / n, y / n, n);
  }

  lemma TicksAtLeast(nu: Numerology)
    requires nu.Valid() && nu.slots <= 16
    ensures 5480 <= nu.symbolTicks <= 87_680
  {
    SymbolTicksPositive(nu);
    if nu.symbolTicks < 5480 {
      ProductInOrder(nu.slots, 16, nu.symbolTicks);
    }
    ProductInOrder(1, nu.slots, nu.symbolTicks);
  }

  function LongPrefixes(nu: Numerology, endSymbol: int): int {
    (if 0 < endSymbol then 1 else 0) + (if 7 * nu.slots < endSymbol then 1 else 0)
  }

  /** Two boundaries, the first `apart` subframes after the second's. */
  lemma SubframesApart(nu: Numerology, e: int, e': int, apart: int)
    requires nu.Valid() && 5480 <= nu.symbolTicks <= 87_680
    requires -14 < e <= 14 * nu.slots + 13 && 0 <= e' <= 14 * nu.slots - 14 && e' % 14 == 0
    ensures var ticks := SubframeBoundaryTicks(nu, apart, e) - SubframeBoundaryTicks(nu, 0, e');
            var symbols := 14 * (nu.slots * apart) + e - e';
            (ticks <= 0 <==> symbols <= 0) && (0 <= ticks <==> 0 <= symbols)
  {
    var n, t := nu.slots, nu.symbolTicks;
    Distribute(e, e', t);
    Reassociate(14, n, t);
    if apart == 0 {
      ProductInOrder(1, e - e', t);
      ProductInOrder(e - e', -1, t);
    } else if apart == -1 {
      Distribute(e - e', 14 * n, t);
      ProductInOrder(1, e - e' - 14 * n, t);
      ProductInOrder(e - e' - 14 * n, -1, t);
    } else if apart < -1 {
      SubframesBehind(nu, e, e', apart);
    } else {
      SubframesAhead(nu, e, e', apart);
    }
  }

  lemma SubframesBehind(nu: Numerology, e: int, e': int, apart: int)
    requires nu.Valid() && 5480 <= nu.symbolTicks <= 87_680 && apart < -1
    requires e <= 14 * nu.slots + 13 && 0 <= e'
    ensures SubframeBoundaryTicks(nu, apart, e) - SubframeBoundaryTicks(nu, 0, e') < 0
    ensures 14 * (nu.slots * apart) + e - e' < 0
  {
    var n, t := nu.slots, nu.symbolTicks;
    Distribute(e, e', t);
    Reassociate(14, n, t);
    ProductInOrder(e - e', 14 * n + 13, t);
    Distribute(14 * n, 13, t);
    ProductInOrder(apart, -2, n);
  }

  lemma SubframesAhead(nu: Numerology, e: int, e': int, apart: int)
    requires nu.Valid() && 5480 <= nu.symbolTicks <= 87_680 && 0 < apart
    requires -14 < e && e' <= 14 * nu.slots - 14
    ensures 0 < SubframeBoundaryTicks(nu, apart, e) - SubframeBoundaryTicks(nu, 0, e')
    ensures 0 < 14 * (nu.slots * apart) + e - e'
  {
    var n, t := nu.slots, nu.symbolTicks;
    Distribute(e, e', t);
    Reassociate(14, n, t);
    ProductInOrder(1 - 14 * n, e - e', t);
    Distribute(1, 14 * n, t);
    ProductInOrder(1, apart, n);
  }

  /** A repetition switches within its period exactly when its downlink symbols are not negative in all and
      its special slot, if any, does not start its uplink past the period. */
  predicate SymbolsFit(p: Pattern) {
    0 <= 14 * p.dlSlots + p.dlSymbols && (p.HasSpecialSlot() ==> 14 * (p.dlSlots + 1) - p.ulSymbols <= 14 * p.period)
  }

  lemma DownlinkFitsIff(p: Pattern, nu: Numerology, k: int)
    requires nu.Valid() && nu.slots <= 16 && -14 < p.dlSymbols < 28
    ensures PeriodStart(p, nu, k) <= DownlinkEnd(p, nu, k) <==> 0 <= 14 * p.dlSlots + p.dlSymbols
  {
    BoundaryOrder(nu, k * p.period + p.dlSlots, p.dlSymbols, k * p.period);
  }

  lemma UplinkFitsIff(p: Pattern, nu: Numerology, k: int)
    requires nu.Valid() && nu.slots <= 16 && -14 < p.ulSymbols < 28
    ensures var slots := if p.HasSpecialSlot() then 14 * (p.dlSlots + 1) - p.ulSymbols else 14 * p.dlSlots;
            UplinkStart(p, nu, k) <= PeriodStart(p, nu, k + 1) <==> slots <= 14 * p.period
  {
    Distribute(k, 1, p.period);
    var symbols := if p.HasSpecialSlot() then 14 - p.ulSymbols else 0;
    BoundaryOrder(nu, k * p.period + p.dlSlots, symbols, (k + 1) * p.period);
  }

  lemma SwitchesWithinIff(p: Pattern, nu: Numerology, k: int)
    requires Check(p) == Ok(nu) && -14 < p.dlSymbols && -14 < p.ulSymbols
    ensures SwitchesWithin(p, nu, k) <==> SymbolsFit(p)
  {
    DownlinkFitsIff(p, nu, k);
    UplinkFitsIff(p, nu, k);
  }

  /** The exact condition in terms of the counts, for symbol counts less than a slot below zero: the validator
      accepts the compiled list of an accepted pattern iff the counts fit. */
  lemma CompiledIsAcceptableIffSymbolsFit(p: Pattern, nu: Numerology, points: seq<Point>)
    requires Check(p) == Ok(nu) && points == Repetitions(p, nu, NofRepetitions(p, nu))
    requires -14 < p.dlSymbols && -14 < p.ulSymbols
    ensures Acceptable(AsEntries(points)) <==> SymbolsFit(p)
  {
    CompiledIsAcceptableIff(p, nu, points);
    RepetitionsFillFrame(nu, p.period);
    forall k | 0 <= k < NofRepetitions(p, nu) ensures SwitchesWithin(p, nu, k) <==> SymbolsFit(p) {
      SwitchesWithinIff(p, nu, k);
    }
    assert SwitchesWithin(p, nu, 0) <==> SymbolsFit(p);
  }

  /** A pattern the compiler accepts although its downlink would end before the frame starts; the compiled
      list begins there and the validator rejects it. */
  lemma NegativeCountsEscapeTheGuards(p: Pattern)
    requires p == Pattern(15, 5, -1, 0, 0, None)
    ensures Check(p).Ok?
    ensures var points := Repetitions(p, Check(p).value, NofRepetitions(p, Check(p).value));
            points != [] && points[0].offset < 0 && !Acceptable(AsEntries(points))
  {
    var nu := Check(p).value;
    CompiledIsAcceptableIffSymbolsFit(p, nu, Repetitions(p, nu, NofRepetitions(p, nu)));
    DownlinkFitsIff(p, nu, 0);
    PeriodStartsInOrder(p, nu, 0);
    RepetitionsFillFrame(nu, p.period);
    FirstPoint(p, nu, NofRepetitions(p, nu));
  }

  lemma {:induction false} FirstPoint(p: Pattern, nu: Numerology, count: nat)
    requires nu.Valid() && 0 < count && !p.HasSpecialSlot()
    ensures Repetitions(p, nu, count) != [] && Repetitions(p, nu, count)[0] == Point(UL, DownlinkEnd(p, nu, 0))
  {
    RepetitionPoints(p, nu, count - 1);
    if count > 1 {
      FirstPoint(p, nu, count - 1);
    } else {
      assert Repetitions(p, nu, 0) == [];
    }
  }

  /** A negative count need not break anything: minus one slot and fourteen symbols of downlink are none. */
  lemma NegativeCountsCanFit(p: Pattern)
    requires p == Pattern(15, 5, -1, 14, 0, None)
    ensures Check(p).Ok? && Acceptable(AsEntries(Repetitions(p, Check(p).value, NofRepetitions(p, Check(p).value))))
  {
    var nu := Check(p).value;
    CompiledIsAcceptableIffSymbolsFit(p, nu, Repetitions(p, nu, NofRepetitions(p, nu)));
  }

  /** Further below zero counting symbols does not decide: here they fit, but the boundary is counted with
      two long prefixes where four have passed, and the downlink ends before the frame. */
  lemma FarCountsMissPrefixes(p: Pattern)
    requires p == Pattern(15, 5, -2, 28, -14, None)
    ensures Check(p).Ok? && SymbolsFit(p)
    ensures !Acceptable(AsEntries(Repetitions(p, Check(p).value, NofRepetitions(p, Check(p).value))))
  {
    var nu := Check(p).value;
    CompiledIsAcceptableIff(p, nu, Repetitions(p, nu, NofRepetitions(p, nu)));
    RepetitionsFillFrame(nu, p.period);
    FarDownlinkEnd(p, nu);
  }

  lemma FarDownlinkEnd(p: Pattern, nu: Numerology)
    requires p.dlSlots == -2 && p.dlSymbols == 28 && nu == Numerology(1, 87_680)
    ensures !SwitchesWithin(p, nu, 0)
  {
    assert nu.Valid();
    assert 0 * p.period == 0;
    assert SubframeBoundaryTicks(nu, -2, 28) == -1280 && SubframeBoundaryTicks(nu, 0, 0) == 0;
  }
}
