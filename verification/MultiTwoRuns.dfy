/** No look-ahead in a many-symbol run. A run starts each symbol's last close from its first bar, which
    may lie ahead; the two runs are therefore compared up to the last closes of symbols not held. */
module MultiTwoRuns {
  import opened Prelude
  import opened Strategy
  import opened Market
  import opened MultiEngine

  /** Equal up to the last close, which matters only of units held while the symbol is absent. */
  ghost predicate SameSlot(a: Slot, b: Slot, present: bool) {
    && a.units == b.units && a.entryPrice == b.entryPrice && a.pending == b.pending
    && a.units >= 0.0
    && (a.units > 0.0 && !present ==> a.lastClose == b.lastClose)
  }

  ghost predicate SameSlots(a: seq<Slot>, b: seq<Slot>, x: Tick) {
    |a| == |b| == |x| && forall k | 0 <= k < |a| :: SameSlot(a[k], b[k], x[k].Some?)
  }

  /** Equal desks during tick `x`, up to last closes that do not matter. */
  ghost predicate SameDesk(a: Desk, b: Desk, x: Tick) {
    a.(slots := b.slots) == b && SameSlots(a.slots, b.slots, x)
  }

  /** Equal desks between ticks. */
  ghost predicate SameBetween(a: Desk, b: Desk) {
    && a.(slots := b.slots) == b
    && |a.slots| == |b.slots|
    && forall k | 0 <= k < |a.slots| :: SameSlot(a.slots[k], b.slots[k], false)
  }

  /** The two ticks show the same at the open: the same symbols, stamps, days and open prices. */
  ghost predicate SameAtOpen(a: Tick, b: Tick) {
    && |a| == |b|
    && forall k | 0 <= k < |a| ::
         && (a[k].Some? <==> b[k].Some?)
         && (a[k].Some? ==>
               var x, y := a[k].value.bar, b[k].value.bar;
               x.stamp == y.stamp && x.day == y.day && x.symbol == y.symbol && x.open == y.open)
  }

  lemma {:induction false} SameExposure(a: seq<Slot>, b: seq<Slot>, x: Tick, y: Tick, n: nat)
    requires SameSlots(a, b, x) && SameAtOpen(x, y) && n <= |a|
    ensures Exposure(a, x, n) == Exposure(b, y, n)
  {
    if n > 0 {
      SameExposure(a, b, x, y, n - 1);
      if a[n - 1].units == 0.0 {
        assert Value(0.0, OpenMark(a[n - 1], x[n - 1])) == 0.0 == Value(0.0, OpenMark(b[n - 1], y[n - 1]));
      }
    }
  }

  lemma {:induction false} SameHolding(a: seq<Slot>, b: seq<Slot>, x: Tick, n: nat)
    requires SameSlots(a, b, x) && n <= |a|
    ensures Holding(a, n) == Holding(b, n)
  {
    if n > 0 {
      SameHolding(a, b, x, n - 1);
    }
  }

  lemma {:induction false} SameDay(x: Tick, y: Tick)
    requires SameAtOpen(x, y) && (exists k | 0 <= k < |x| :: x[k].Some?) && (exists k | 0 <= k < |y| :: y[k].Some?)
    ensures DayOf(x) == DayOf(y)
  {
    if x[0].None? {
      var k :| 0 <= k < |x| && x[k].Some?;
      assert x[1..][k - 1].Some? && y[1..][k - 1].Some?;
      SameDay(x[1..], y[1..]);
    }
  }

  lemma OpenTickSame(t: Terms, a: Desk, b: Desk, x: Tick, y: Tick, symbols: seq<string>)
    requires ValidTick(x, symbols) && ValidTick(y, symbols) && |a.slots| == |symbols|
    requires SameBetween(a, b) && SameAtOpen(x, y)
    ensures SameDesk(OpenTick(t, a, x), OpenTick(t, b, y), x)
  {
    hide LossBreached, Exposure, DayOf;
    SameExposure(a.slots, b.slots, x, y, |x|);
    SameDay(x, y);
  }

  lemma SellOneSame(t: Terms, a: Desk, b: Desk, x: Tick, y: Tick, k: nat)
    requires SameDesk(a, b, x) && SameAtOpen(x, y) && k < |x|
    ensures SameDesk(SellOne(t, a, x, k), SellOne(t, b, y, k), x)
  {
    hide CostOf, Value;
  }

  lemma {:induction false} SellAllSame(t: Terms, a: Desk, b: Desk, x: Tick, y: Tick, n: nat)
    requires SameDesk(a, b, x) && SameAtOpen(x, y) && n <= |x| == |y| == |a.slots| == |b.slots|
    ensures SameDesk(SellAll(t, a, x, n), SellAll(t, b, y, n), x)
  {
    hide SellOne, SameDesk;
    if n > 0 {
      SellAllSame(t, a, b, x, y, n - 1);
      SellOneSame(t, SellAll(t, a, x, n - 1), SellAll(t, b, y, n - 1), x, y, n - 1);
    }
  }

  lemma BuyOneSame(t: Terms, a: Desk, b: Desk, x: Tick, y: Tick, k: nat)
    requires SameDesk(a, b, x) && SameAtOpen(x, y) && k < |x|
    requires x[k].Some? ==> x[k].value.bar.open > 0.0
    ensures SameDesk(BuyOne(t, a, x, k), BuyOne(t, b, y, k), x)
  {
    hide CostOf, Value, Allotment, Exposure, Holding, ExposureAllows, UnitsBought;
    SameExposure(a.slots, b.slots, x, y, |x|);
    SameHolding(a.slots, b.slots, x, |x|);
    if x[k].Some? {
      var notional := Allotment(t, |x|);
      UnitsNotNegative(notional, CostOf(t, notional), x[k].value.bar.open);
    }
  }

  lemma UnitsNotNegative(notional: real, cost: real, price: real)
    requires price > 0.0
    ensures UnitsBought(notional, cost, price) >= 0.0
  {
  }

  lemma {:induction false} BuyAllSame(t: Terms, a: Desk, b: Desk, x: Tick, y: Tick, n: nat)
    requires SameDesk(a, b, x) && SameAtOpen(x, y) && n <= |x| == |y| == |a.slots| == |b.slots|
    requires forall k | 0 <= k < |x| && x[k].Some? :: x[k].value.bar.open > 0.0
    requires forall k | 0 <= k < |y| && y[k].Some? :: y[k].value.bar.open > 0.0
    ensures SameDesk(BuyAll(t, a, x, n), BuyAll(t, b, y, n), x)
  {
    hide BuyOne, SameDesk;
    if n > 0 {
      BuyAllSame(t, a, b, x, y, n - 1);
      BuyOneSame(t, BuyAll(t, a, x, n - 1), BuyAll(t, b, y, n - 1), x, y, n - 1);
    }
  }

  /** At the open, two desks that are equal between ticks act the same on ticks that look the same. */
  lemma AtOpenSame(t: Terms, a: Desk, b: Desk, x: Tick, y: Tick, symbols: seq<string>)
    requires ValidTick(x, symbols) && ValidTick(y, symbols) && |a.slots| == |symbols|
    requires SameBetween(a, b) && SameAtOpen(x, y)
    ensures |b.slots| == |symbols|
    ensures SameDesk(AtOpen(t, a, x), AtOpen(t, b, y), x)
  {
    hide OpenTick, SellAll, BuyAll;
    OpenTickSame(t, a, b, x, y, symbols);
    var o, p := OpenTick(t, a, x), OpenTick(t, b, y);
    SellAllSame(t, o, p, x, y, |x|);
    BuyAllSame(t, SellAll(t, o, x, |x|), SellAll(t, p, y, |y|), x, y, |x|);
  }

  // ----- A whole tick

  /** While the rules are evaluated: the symbols done have the last close of the tick. */
  ghost predicate SameDeciding(a: Desk, b: Desk, x: Tick, n: nat)
    requires n <= |x|
  {
    && SameDesk(a, b, x)
    && forall k | 0 <= k < n && x[k].Some? :: a.slots[k].lastClose == b.slots[k].lastClose
  }

  /** The same error, or desks that are still equal. */
  ghost predicate SameDecision(p: Result<Desk, RuleError>, q: Result<Desk, RuleError>, x: Tick, n: nat)
    requires n <= |x|
  {
    match (p, q)
    case (Ok(e), Ok(f)) => SameDeciding(e, f, x, n)
    case (Err(e), Err(f)) => e == f
    case _ => false
  }

  lemma DecideOneSame(t: Terms, a: Desk, b: Desk, x: Tick, k: nat)
    requires k < |x| == |a.slots| == |b.slots| && SameDeciding(a, b, x, k)
    ensures SameDecision(DecideOne(t, a, x, k), DecideOne(t, b, x, k), x, k + 1)
  {
    hide RiskExit;
  }

  lemma {:induction false} DecideAllSame(t: Terms, a: Desk, b: Desk, x: Tick, n: nat)
    requires SameDesk(a, b, x) && n <= |x| == |a.slots| == |b.slots|
    ensures SameDecision(DecideAll(t, a, x, n), DecideAll(t, b, x, n), x, n)
  {
    hide DecideOne, SameDesk;
    if n > 0 {
      DecideAllSame(t, a, b, x, n - 1);
      if DecideAll(t, a, x, n - 1).Ok? {
        DecideOneSame(t, DecideAll(t, a, x, n - 1).value, DecideAll(t, b, x, n - 1).value, x, n - 1);
      }
    }
  }

  lemma {:induction false} CloseValueSame(a: seq<Slot>, b: seq<Slot>, x: Tick, n: nat)
    requires SameSlots(a, b, x) && n <= |a|
    ensures CloseValue(a, x, n) == CloseValue(b, x, n)
  {
    if n > 0 {
      CloseValueSame(a, b, x, n - 1);
      if a[n - 1].units == 0.0 {
        assert Value(0.0, CloseMark(a[n - 1], x[n - 1])) == 0.0 == Value(0.0, CloseMark(b[n - 1], x[n - 1]));
      }
    }
  }

  lemma StepSame(t: Terms, a: Desk, b: Desk, x: Tick, symbols: seq<string>)
    requires ValidTick(x, symbols) && |a.slots| == |symbols| && SameBetween(a, b)
    ensures |b.slots| == |symbols|
    ensures var p, q := Step(t, a, x), Step(t, b, x);
            match (p, q)
            case (Ok(e), Ok(f)) => SameBetween(e, f)
            case (Err(e), Err(f)) => e == f
            case _ => false
  {
    hide AtOpen, DecideAll, LossBreached, CloseValue;
    AtOpenSame(t, a, b, x, x, symbols);
    var o, p := AtOpen(t, a, x), AtOpen(t, b, x);
    DecideAllSame(t, o, p, x, |x|);
    if DecideAll(t, o, x, |x|).Ok? {
      CloseValueSame(DecideAll(t, o, x, |x|).value.slots, DecideAll(t, p, x, |x|).value.slots, x, |x|);
    }
  }

  /** Tapes that agree before tick `i` lead to the same desk, or the same error. */
  lemma {:induction false} SamePast(t: Terms, xs: seq<real>, ys: seq<real>, a: seq<Tick>, b: seq<Tick>,
                                    symbols: seq<string>, i: nat)
    requires ValidTape(a, symbols) && ValidTape(b, symbols) && |xs| == |ys| == |symbols|
    requires i <= |a| && i <= |b| && a[..i] == b[..i]
    ensures var p, q := After(t, xs, a, symbols, i), After(t, ys, b, symbols, i);
            match (p, q)
            case (Ok(e), Ok(f)) => SameBetween(e, f)
            case (Err(e), Err(f)) => e == f
            case _ => false
  {
    hide Step;
    if i > 0 {
      assert a[..i - 1] == a[..i][..i - 1] == b[..i - 1];
      assert a[i - 1] == a[..i][i - 1] == b[i - 1];
      SamePast(t, xs, ys, a, b, symbols, i - 1);
      if After(t, xs, a, symbols, i - 1).Ok? {
        StepSame(t, After(t, xs, a, symbols, i - 1).value, After(t, ys, b, symbols, i - 1).value, a[i - 1], symbols);
      }
    }
  }

  /** Two runs over the same symbols whose ticks differ only from the highs, lows, closes and volumes
      of tick `i` on, and in whatever comes later, first closes included: they make the same trades up
      to and including tick `i`'s open, and have the same equity before tick `i`. */
  lemma NoLookAhead(t: Terms, xs: seq<real>, ys: seq<real>, a: seq<Tick>, b: seq<Tick>, symbols: seq<string>, i: nat)
    requires ValidTape(a, symbols) && ValidTape(b, symbols) && |xs| == |ys| == |symbols|
    requires i < |a| && i < |b| && a[..i] == b[..i] && SameAtOpen(a[i], b[i])
    requires After(t, xs, a, symbols, i + 1).Ok? && After(t, ys, b, symbols, i + 1).Ok?
    ensures var d, e := After(t, xs, a, symbols, i + 1).value, After(t, ys, b, symbols, i + 1).value;
            && d.trades == e.trades
            && |d.equity| == |e.equity| == i + 1
            && d.equity[..i] == e.equity[..i]
  {
    hide Step, AtOpen;
    SamePast(t, xs, ys, a, b, symbols, i);
    var d, e := After(t, xs, a, symbols, i).value, After(t, ys, b, symbols, i).value;
    AtOpenSame(t, d, e, a[i], b[i], symbols);
    StepFrame(t, d, a[i]);
    StepFrame(t, e, b[i]);
    AtOpenKeepsEquity(t, d, a[i]);
    AtOpenKeepsEquity(t, e, b[i]);
    EquityLength(t, xs, a, symbols, i);
  }
}
