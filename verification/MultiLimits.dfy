/** The limits that a many-symbol run keeps, and its stop flag. */
module MultiLimits {
  import opened Prelude
  import opened Costs
  import opened Market
  import opened MultiEngine

  // ----- Cash, positions and exposure

  lemma AllotmentPositive(t: Terms, symbols: nat)
    requires t.Valid() && symbols > 0
    ensures Allotment(t, symbols) > 0.0
  {
    var share := t.initialCash / (symbols as real);
    assert share > 0.0;
    assert share * t.risk.positionSizePct > 0.0;
  }

  /** Cash is above the tolerance below zero, units are held only when the cost leaves some, and no
      more symbols hold units than the limit on concurrent positions. */
  ghost predicate WithinLimits(t: Terms, d: Desk) {
    && d.cash >= -TOLERANCE
    && (forall k | 0 <= k < |d.slots| :: d.slots[k].units >= 0.0 && (d.slots[k].units > 0.0 ==> t.CostRate() < 1.0))
    && (t.risk.maxConcurrentPositions.Some? ==> Holding(d.slots, |d.slots|) <= t.risk.maxConcurrentPositions.value)
  }

  lemma {:induction false} HoldingUpdate(slots: seq<Slot>, k: nat, slot: Slot, n: nat)
    requires k < n <= |slots|
    ensures Holding(slots[k := slot], n)
         == Holding(slots, n) - (if slots[k].units > 0.0 then 1 else 0) + (if slot.units > 0.0 then 1 else 0)
    decreases n
  {
    if k < n - 1 {
      HoldingUpdate(slots, k, slot, n - 1);
    } else {
      HoldingSame(slots, slots[k := slot], k);
    }
  }

  lemma {:induction false} HoldingSame(a: seq<Slot>, b: seq<Slot>, n: nat)
    requires n <= |a| && n <= |b|
    requires forall k | 0 <= k < n :: a[k].units == b[k].units
    ensures Holding(a, n) == Holding(b, n)
  {
    if n > 0 {
      HoldingSame(a, b, n - 1);
    }
  }

  lemma SaleProceeds(t: Terms, units: real, price: real)
    requires units > 0.0 && price > 0.0 && t.CostRate() < 1.0
    ensures Value(units, price) - CostOf(t, Value(units, price)) > 0.0
    ensures Value(units, price) > 0.0
  {
    hide Rate;
    var notional, rate := Value(units, price), t.CostRate();
    assert notional > 0.0;
    assert CostOf(t, notional) == rate * notional;
    assert notional - rate * notional == notional * (1.0 - rate) > 0.0;
  }

  lemma SellOneWithinLimits(t: Terms, d: Desk, tick: Tick, k: nat, symbols: seq<string>)
    requires ValidTick(tick, symbols) && |d.slots| == |symbols| && k < |symbols|
    requires WithinLimits(t, d)
    ensures WithinLimits(t, SellOne(t, d, tick, k))
  {
    hide Rate, CostOf, Value;
    if Sells(d, tick, k) {
      SaleProceeds(t, d.slots[k].units, tick[k].value.bar.open);
      HoldingUpdate(d.slots, k, SellOne(t, d, tick, k).slots[k], |d.slots|);
    }
  }

  lemma {:induction false} SellAllWithinLimits(t: Terms, d: Desk, tick: Tick, n: nat, symbols: seq<string>)
    requires ValidTick(tick, symbols) && |d.slots| == |symbols| && n <= |symbols|
    requires WithinLimits(t, d)
    ensures WithinLimits(t, SellAll(t, d, tick, n))
  {
    hide WithinLimits, SellOne, Rate;
    if n > 0 {
      SellAllWithinLimits(t, d, tick, n - 1, symbols);
      SellOneWithinLimits(t, SellAll(t, d, tick, n - 1), tick, n - 1, symbols);
    }
  }

  lemma BuyOneWithinLimits(t: Terms, d: Desk, tick: Tick, k: nat, symbols: seq<string>)
    requires t.Valid() && ValidTick(tick, symbols) && |d.slots| == |symbols| && k < |symbols|
    requires WithinLimits(t, d)
    ensures WithinLimits(t, BuyOne(t, d, tick, k))
  {
    hide Rate, CostOf, Value, UnitsBought, Allotment, ExposureAllows;
    if EntryDue(d, tick, k) {
      var e := BuyOne(t, d, tick, k);
      AllotmentPositive(t, |d.slots|);
      UnitsBoughtSign(t, Allotment(t, |d.slots|), tick[k].value.bar.open);
      HoldingUpdate(d.slots, k, e.slots[k], |d.slots|);
    }
  }

  lemma {:induction false} BuyAllWithinLimits(t: Terms, d: Desk, tick: Tick, n: nat, symbols: seq<string>)
    requires t.Valid() && ValidTick(tick, symbols) && |d.slots| == |symbols| && n <= |symbols|
    requires WithinLimits(t, d)
    ensures WithinLimits(t, BuyAll(t, d, tick, n))
  {
    hide WithinLimits, BuyOne, Rate;
    if n > 0 {
      BuyAllWithinLimits(t, d, tick, n - 1, symbols);
      BuyOneWithinLimits(t, BuyAll(t, d, tick, n - 1), tick, n - 1, symbols);
    }
  }

  lemma AtOpenWithinLimits(t: Terms, d: Desk, tick: Tick, symbols: seq<string>)
    requires t.Valid() && ValidTick(tick, symbols) && |d.slots| == |symbols|
    requires WithinLimits(t, d)
    ensures WithinLimits(t, AtOpen(t, d, tick))
  {
    hide Rate, SellAll, BuyAll, LossBreached;
    var o := OpenTick(t, d, tick);
    SellAllWithinLimits(t, o, tick, |tick|, symbols);
    BuyAllWithinLimits(t, SellAll(t, o, tick, |tick|), tick, |tick|, symbols);
  }

  /** Whatever the rules, prices and costs, every tick of a run keeps the limits. */
  lemma {:induction false} RunWithinLimits(t: Terms, firstCloses: seq<real>, tape: seq<Tick>, symbols: seq<string>,
                                           n: nat)
    requires t.Valid() && ValidTape(tape, symbols) && |firstCloses| == |symbols| && n <= |tape|
    requires After(t, firstCloses, tape, symbols, n).Ok?
    ensures WithinLimits(t, After(t, firstCloses, tape, symbols, n).value)
  {
    hide Step, AtOpen, Rate;
    if n == 0 {
      NothingHeld(Start(t, firstCloses).slots, |symbols|);
    } else {
      RunWithinLimits(t, firstCloses, tape, symbols, n - 1);
      var d := After(t, firstCloses, tape, symbols, n - 1).value;
      AtOpenWithinLimits(t, d, tape[n - 1], symbols);
      StepFrame(t, d, tape[n - 1]);
      HoldingSame(AtOpen(t, d, tape[n - 1]).slots, Step(t, d, tape[n - 1]).value.slots, |symbols|);
    }
  }

  lemma {:induction false} NothingHeld(slots: seq<Slot>, n: nat)
    requires n <= |slots| && forall k | 0 <= k < n :: slots[k].units == 0.0
    ensures Holding(slots, n) == 0
  {
    if n > 0 {
      NothingHeld(slots, n - 1);
    }
  }

  lemma {:induction false} ExposureUpdate(slots: seq<Slot>, tick: Tick, k: nat, slot: Slot, n: nat)
    requires k < n <= |slots| == |tick|
    ensures Exposure(slots[k := slot], tick, n)
         == Exposure(slots, tick, n) - Value(slots[k].units, OpenMark(slots[k], tick[k]))
             + Value(slot.units, OpenMark(slot, tick[k]))
    decreases n
  {
    hide Value;
    if k < n - 1 {
      ExposureUpdate(slots, tick, k, slot, n - 1);
    } else {
      ExposureSame(slots, slots[k := slot], tick, k);
    }
  }

  lemma {:induction false} ExposureSame(a: seq<Slot>, b: seq<Slot>, tick: Tick, n: nat)
    requires n <= |a| == |b| == |tick|
    requires forall k | 0 <= k < n ::
             Value(a[k].units, OpenMark(a[k], tick[k])) == Value(b[k].units, OpenMark(b[k], tick[k]))
    ensures Exposure(a, tick, n) == Exposure(b, tick, n)
  {
    hide Value;
    if n > 0 {
      ExposureSame(a, b, tick, n - 1);
    }
  }

  /** What a buy gains at its open when its cost is negative: it then buys more than its notional. */
  function Rebate(t: Terms, notional: real): real {
    Max(0.0, -CostOf(t, notional))
  }

  /** What a buy that takes the desk from `d` to `e` has respected: its notional was in the cash up to
      the tolerance, a place was free among the concurrent positions, entries were open, and the
      exposure at the opens stays within the limit's share of the equity before the buy, and what a
      negative cost adds to the position. */
  ghost predicate RespectsLimits(t: Terms, d: Desk, e: Desk, tick: Tick)
    requires |tick| == |d.slots| == |e.slots| > 0
  {
    && d.cash + TOLERANCE >= Allotment(t, |tick|)
    && e.cash == d.cash - Allotment(t, |tick|)
    && (t.risk.maxConcurrentPositions.Some? ==> Holding(d.slots, |tick|) < t.risk.maxConcurrentPositions.value)
    && !d.blocked && !d.stopped
    && (t.risk.maxTotalExposurePct.Some? ==>
          Exposure(e.slots, tick, |tick|)
          <= (d.cash + Exposure(d.slots, tick, |tick|)) * t.risk.maxTotalExposurePct.value / 100.0 + TOLERANCE
             + Rebate(t, Allotment(t, |tick|)))
  }

  lemma BuyRespectsLimits(t: Terms, d: Desk, tick: Tick, k: nat, symbols: seq<string>)
    requires t.Valid() && ValidTick(tick, symbols) && |d.slots| == |symbols| && k < |symbols|
    requires WithinLimits(t, d) && BuyOne(t, d, tick, k).trades != d.trades
    ensures RespectsLimits(t, d, BuyOne(t, d, tick, k), tick)
  {
    hide Rate, Allotment, UnitsBought, CostOf, Rebate;
    var e := BuyOne(t, d, tick, k);
    var notional, open := Allotment(t, |symbols|), tick[k].value.bar.open;
    assert d.slots[k].units == 0.0;
    ExposureUpdate(d.slots, tick, k, e.slots[k], |symbols|);
    AllotmentPositive(t, |symbols|);
    UnitsBoughtSign(t, notional, open);
    BuyAdds(t, notional, open);
  }

  lemma BuyAdds(t: Terms, notional: real, price: real)
    requires notional > 0.0 && price > 0.0
    ensures Value(UnitsBought(notional, CostOf(t, notional), price), price) <= notional + Rebate(t, notional)
    ensures t.CostRate() >= 0.0 <==> Rebate(t, notional) == 0.0
  {
    hide Rate;
    var rate := t.CostRate();
    UnitsBoughtSign(t, notional, price);
    assert CostOf(t, notional) == rate * notional;
    if rate >= 1.0 {
      assert UnitsBought(notional, CostOf(t, notional), price) == 0.0;
    } else if rate < 0.0 {
      ProductPositive(-rate, notional);
    } else {
      ProductNotNegative(rate, notional);
    }
  }

  lemma OpenTickWithinLimits(t: Terms, d: Desk, tick: Tick)
    requires |tick| == |d.slots| && exists j | 0 <= j < |tick| :: tick[j].Some?
    requires WithinLimits(t, d)
    ensures WithinLimits(t, OpenTick(t, d, tick)) && |OpenTick(t, d, tick).slots| == |d.slots|
  {
    hide Rate, Exposure, LossBreached;
  }

  /** The desk just before symbol `k` may buy in tick `n` of a run. */
  function BeforeBuy(t: Terms, d: Desk, tick: Tick, k: nat): (r: Desk)
    requires |tick| == |d.slots| && k <= |tick| && exists j | 0 <= j < |tick| :: tick[j].Some?
    requires forall j | 0 <= j < |tick| && tick[j].Some? :: tick[j].value.bar.open > 0.0
    ensures |r.slots| == |d.slots|
  {
    BuyAll(t, SellAll(t, OpenTick(t, d, tick), tick, |tick|), tick, k)
  }

  /** In any run, whatever the rules, prices and costs, every buy of every tick respects the limits. */
  lemma EveryBuyRespectsLimits(t: Terms, firstCloses: seq<real>, tape: seq<Tick>, symbols: seq<string>, n: nat, k: nat)
    requires t.Valid() && ValidTape(tape, symbols) && |firstCloses| == |symbols| && n < |tape| && k < |symbols|
    requires After(t, firstCloses, tape, symbols, n).Ok?
    ensures var d := BeforeBuy(t, After(t, firstCloses, tape, symbols, n).value, tape[n], k);
            var e := BuyOne(t, d, tape[n], k);
            e.trades != d.trades ==> RespectsLimits(t, d, e, tape[n])
  {
    hide Rate, Step, OpenTick, SellAll, BuyAll, BuyOne, RespectsLimits, WithinLimits;
    RunWithinLimits(t, firstCloses, tape, symbols, n);
    var d := After(t, firstCloses, tape, symbols, n).value;
    var o := OpenTick(t, d, tape[n]);
    OpenTickWithinLimits(t, d, tape[n]);
    SellAllWithinLimits(t, o, tape[n], |symbols|, symbols);
    BuyAllWithinLimits(t, SellAll(t, o, tape[n], |symbols|), tape[n], k, symbols);
    var b := BeforeBuy(t, d, tape[n], k);
    if BuyOne(t, b, tape[n], k).trades != b.trades {
      BuyRespectsLimits(t, b, tape[n], k, symbols);
    }
  }

  // ----- The stop flag

  /** Every held position of a stopped desk has its exit ordered. */
  ghost predicate ExitsArmed(d: Desk) {
    d.stopped ==> forall k | 0 <= k < |d.slots| && d.slots[k].units > 0.0 :: d.slots[k].pending.ExitOrder?
  }

  lemma {:induction false} StoppedBuysNothing(t: Terms, d: Desk, tick: Tick, n: nat)
    requires n <= |tick| == |d.slots| && d.stopped
    requires forall k | 0 <= k < |tick| && tick[k].Some? :: tick[k].value.bar.open > 0.0
    ensures var e := BuyAll(t, d, tick, n);
            && e.trades == d.trades && e.cash == d.cash && e.stopped
            && (forall k | 0 <= k < |d.slots| ::
                  e.slots[k].units == d.slots[k].units && (e.slots[k].units > 0.0 ==> e.slots[k] == d.slots[k]))
  {
    hide CostOf, Value, UnitsBought, Allotment, Exposure;
    if n > 0 {
      StoppedBuysNothing(t, d, tick, n - 1);
    }
  }

  /** The sale of all units of symbol `k`, if it is held and present. */
  function ClosingSale(t: Terms, d: Desk, tick: Tick, k: nat): seq<Trade>
    requires k < |tick| == |d.slots|
  {
    if Sells(d, tick, k)
    then [MakeTrade(tick[k].value.bar, Sell, d.slots[k].units,
        CostOf(t, Value(d.slots[k].units, tick[k].value.bar.open)))]
    else []
  }

  /** The trades of one symbol, in order. */
  function Only(trades: seq<Trade>, symbol: string): seq<Trade> {
    if trades == [] then []
    else
      var last := trades[|trades| - 1];
      Only(trades[..|trades| - 1], symbol) + (if last.symbol == symbol then [last] else [])
  }

  lemma OnlySnoc(trades: seq<Trade>, trade: Trade, symbol: string)
    ensures Only(trades + [trade], symbol) == Only(trades, symbol) + (if trade.symbol == symbol then [trade] else [])
  {
    assert (trades + [trade])[..|trades|] == trades;
  }

  lemma SaleOf(t: Terms, d: Desk, tick: Tick, m: nat, symbol: string)
    requires m < |tick| == |d.slots|
    ensures Only(SellOne(t, d, tick, m).trades, symbol)
         == Only(d.trades, symbol) + (if Sells(d, tick, m) && tick[m].value.bar.symbol == symbol
             then ClosingSale(t, d, tick, m) else [])
  {
    hide CostOf, Value, Only;
    if Sells(d, tick, m) {
      OnlySnoc(d.trades, ClosingSale(t, d, tick, m)[0], symbol);
    }
  }

  /** The exits of a tick: of each symbol, its closing sale and nothing else. */
  lemma {:induction false} SalesOf(t: Terms, d: Desk, tick: Tick, symbols: seq<string>, n: nat, k: nat)
    requires ValidTick(tick, symbols) && |d.slots| == |symbols| && n <= |symbols| && k < |symbols|
    requires forall i, j | 0 <= i < j < |symbols| :: symbols[i] != symbols[j]
    ensures Only(SellAll(t, d, tick, n).trades, symbols[k])
         == Only(d.trades, symbols[k]) + (if k < n then ClosingSale(t, d, tick, k) else [])
  {
    hide CostOf, Value, SellOne, Only, MakeTrade;
    if n > 0 {
      SalesOf(t, d, tick, symbols, n - 1, k);
      SellFrame(t, d, tick, n - 1);
      SaleOf(t, SellAll(t, d, tick, n - 1), tick, n - 1, symbols[k]);
      if n - 1 != k {
        assert symbols[if n - 1 < k then n - 1 else k] != symbols[if n - 1 < k then k else n - 1];
      }
    }
  }

  /** A tick of a stopped desk: no buy; each symbol present sells what it holds, and the others keep
      their exit ordered. */
  lemma StoppedStep(t: Terms, d: Desk, tick: Tick, symbols: seq<string>)
    requires t.Valid() && ValidTick(tick, symbols) && |d.slots| == |symbols| && d.stopped && ExitsArmed(d)
    requires forall i, j | 0 <= i < j < |symbols| :: symbols[i] != symbols[j]
    requires forall k | 0 <= k < |d.slots| :: d.slots[k].units >= 0.0
    requires Step(t, d, tick).Ok?
    ensures var e := Step(t, d, tick).value;
            && e.stopped && ExitsArmed(e)
            && (forall k | 0 <= k < |symbols| ::
                  && e.slots[k].units == (if tick[k].Some? then 0.0 else d.slots[k].units)
                  && Only(e.trades, symbols[k]) == Only(d.trades, symbols[k]) + ClosingSale(t, d, tick, k))
  {
    hide SellAll, BuyAll, LossBreached, CostOf, Value;
    var o := OpenTick(t, d, tick);
    var s := SellAll(t, o, tick, |tick|);
    SellFrame(t, o, tick, |tick|);
    StoppedBuysNothing(t, s, tick, |tick|);
    StoppedRest(t, d, tick);
    forall k | 0 <= k < |symbols|
      ensures Only(s.trades, symbols[k]) == Only(d.trades, symbols[k]) + ClosingSale(t, d, tick, k)
    {
      SalesOf(t, o, tick, symbols, |tick|, k);
    }
  }

  lemma StoppedRest(t: Terms, d: Desk, tick: Tick)
    requires |tick| == |d.slots| && exists k | 0 <= k < |tick| :: tick[k].Some?
    requires forall k | 0 <= k < |tick| && tick[k].Some? :: tick[k].value.bar.open > 0.0
    requires AtOpen(t, d, tick).stopped && Step(t, d, tick).Ok?
    ensures Step(t, d, tick).value.stopped
    ensures (forall k | 0 <= k < |tick| && AtOpen(t, d, tick).slots[k].units > 0.0 ::
            AtOpen(t, d, tick).slots[k].pending.ExitOrder?)
            ==> ExitsArmed(Step(t, d, tick).value)
    ensures Step(t, d, tick).value.trades == AtOpen(t, d, tick).trades
    ensures forall k | 0 <= k < |tick| :: Step(t, d, tick).value.slots[k].units == AtOpen(t, d, tick).slots[k].units
  {
    hide AtOpen, LossBreached, CloseValue;
    StepFrame(t, d, tick);
  }

  lemma {:induction false} AlwaysArmed(t: Terms, firstCloses: seq<real>, tape: seq<Tick>, symbols: seq<string>, n: nat)
    requires t.Valid() && ValidTape(tape, symbols) && |firstCloses| == |symbols| && n <= |tape|
    requires forall i, j | 0 <= i < j < |symbols| :: symbols[i] != symbols[j]
    requires After(t, firstCloses, tape, symbols, n).Ok?
    ensures ExitsArmed(After(t, firstCloses, tape, symbols, n).value)
  {
    hide Step, Rate;
    if n > 0 {
      AlwaysArmed(t, firstCloses, tape, symbols, n - 1);
      var d := After(t, firstCloses, tape, symbols, n - 1).value;
      RunWithinLimits(t, firstCloses, tape, symbols, n - 1);
      if d.stopped {
        StoppedStep(t, d, tape[n - 1], symbols);
      } else {
        StoppingStep(t, d, tape[n - 1]);
      }
    }
  }

  /** The tick that sets the flag orders every exit. */
  lemma StoppingStep(t: Terms, d: Desk, tick: Tick)
    requires |tick| == |d.slots| && exists k | 0 <= k < |tick| :: tick[k].Some?
    requires forall k | 0 <= k < |tick| && tick[k].Some? :: tick[k].value.bar.open > 0.0
    requires !d.stopped && Step(t, d, tick).Ok?
    ensures ExitsArmed(Step(t, d, tick).value)
  {
    hide SellAll, BuyAll, LossBreached, CloseValue, Exposure;
    SellFrame(t, OpenTick(t, d, tick), tick, |tick|);
    BuyFrame(t, SellAll(t, OpenTick(t, d, tick), tick, |tick|), tick, |tick|);
    DecideFrame(t, AtOpen(t, d, tick), tick, |tick|);
  }

  /** The first tick from `n` on, before `m`, in which symbol `k` has a bar. */
  function NextBar(tape: seq<Tick>, symbols: seq<string>, k: nat, n: nat, m: nat): (r: Option<nat>)
    requires ValidTape(tape, symbols) && k < |symbols| && n <= m <= |tape|
    ensures r.Some? ==> n <= r.value < m && tape[r.value][k].Some?
    ensures forall i | n <= i < m && (r.Some? ==> i < r.value) :: tape[i][k].None?
    decreases m - n
  {
    if n == m then None else if tape[n][k].Some? then Some(n) else NextBar(tape, symbols, k, n + 1, m)
  }

  /** The sale of what is held of a symbol at a bar. */
  function LastSale(t: Terms, units: real, bar: Bar): seq<Trade> {
    if units == 0.0 then [] else [MakeTrade(bar, Sell, units, CostOf(t, Value(units, bar.open)))]
  }

  lemma NothingSold(t: Terms, bar: Bar)
    ensures LastSale(t, 0.0, bar) == []
  {
  }

  /** The tick of a stopped desk, for one symbol. */
  lemma StoppedStepOf(t: Terms, d: Desk, tick: Tick, symbols: seq<string>, k: nat)
    requires t.Valid() && ValidTick(tick, symbols) && |d.slots| == |symbols| && d.stopped && ExitsArmed(d)
             && k < |symbols|
    requires forall i, j | 0 <= i < j < |symbols| :: symbols[i] != symbols[j]
    requires WithinLimits(t, d)
    requires Step(t, d, tick).Ok?
    ensures var e := Step(t, d, tick).value;
            && e.stopped && |e.slots| == |symbols|
            && e.slots[k].units == (if tick[k].Some? then 0.0 else d.slots[k].units)
            && Only(e.trades, symbols[k])
               == Only(d.trades, symbols[k])
                  + if tick[k].Some? then LastSale(t, d.slots[k].units, tick[k].value.bar) else []
  {
    hide Step, Rate, CostOf, Value, Only, MakeTrade;
    StoppedStep(t, d, tick, symbols);
  }

  /** From tick `n` to tick `m` nothing of a stopped desk moves in symbol `k` but the sale at its first bar. */
  ghost predicate OnlyLastSale(t: Terms, d: Desk, e: Desk, tape: seq<Tick>, symbols: seq<string>, k: nat, n: nat,
                               m: nat)
    requires ValidTape(tape, symbols) && n <= m <= |tape| && |d.slots| == |e.slots| == |symbols| && k < |symbols|
  {
    var next := NextBar(tape, symbols, k, n, m);
    && e.stopped
    && e.slots[k].units == (if next.None? then d.slots[k].units else 0.0)
    && Only(e.trades, symbols[k])
       == Only(d.trades, symbols[k])
          + if next.None? then [] else LastSale(t, d.slots[k].units, tape[next.value][k].value.bar)
  }

  /** One more tick of a stopped desk. */
  lemma OnlyLastSaleSnoc(t: Terms, d: Desk, e: Desk, tape: seq<Tick>, symbols: seq<string>, k: nat, n: nat, m: nat)
    requires t.Valid() && ValidTape(tape, symbols) && n <= m < |tape| && |d.slots| == |e.slots| == |symbols|
    requires k < |symbols| && forall i, j | 0 <= i < j < |symbols| :: symbols[i] != symbols[j]
    requires ExitsArmed(e) && WithinLimits(t, e) && OnlyLastSale(t, d, e, tape, symbols, k, n, m)
    requires Step(t, e, tape[m]).Ok?
    ensures OnlyLastSale(t, d, Step(t, e, tape[m]).value, tape, symbols, k, n, m + 1)
  {
    hide Step, Rate, LastSale, Only, NextBar, ExitsArmed, WithinLimits;
    StoppedStepOf(t, e, tape[m], symbols, k);
    if tape[m][k].Some? {
      NothingSold(t, tape[m][k].value.bar);
    }
    NextBarSnoc(tape, symbols, k, n, m + 1);
  }

  /** Once stopped, a run stays stopped and buys nothing. A symbol held then is sold in full at its
      next bar, and never trades again; a symbol not held never trades again. */
  lemma {:induction false} StopIsFinal(t: Terms, firstCloses: seq<real>, tape: seq<Tick>, symbols: seq<string>, n: nat,
                                       m: nat, k: nat)
    requires t.Valid() && ValidTape(tape, symbols) && |firstCloses| == |symbols| && n <= m <= |tape| && k < |symbols|
    requires forall i, j | 0 <= i < j < |symbols| :: symbols[i] != symbols[j]
    requires After(t, firstCloses, tape, symbols, n).Ok? && After(t, firstCloses, tape, symbols, m).Ok?
    requires After(t, firstCloses, tape, symbols, n).value.stopped
    ensures var d, e := After(t, firstCloses, tape, symbols, n).value, After(t, firstCloses, tape, symbols, m).value;
            OnlyLastSale(t, d, e, tape, symbols, k, n, m)
    decreases m
  {
    hide Step, Rate, LastSale, ExitsArmed, WithinLimits, OnlyLastSale, ValidTick;
    if n == m {
      NoSaleYet(t, After(t, firstCloses, tape, symbols, n).value, tape, symbols, k, n);
    } else {
      StopIsFinal(t, firstCloses, tape, symbols, n, m - 1, k);
      AlwaysArmed(t, firstCloses, tape, symbols, m - 1);
      RunWithinLimits(t, firstCloses, tape, symbols, m - 1);
      OnlyLastSaleSnoc(t, After(t, firstCloses, tape, symbols, n).value,
                       After(t, firstCloses, tape, symbols, m - 1).value, tape, symbols, k, n, m - 1);
    }
  }

  lemma NoSaleYet(t: Terms, d: Desk, tape: seq<Tick>, symbols: seq<string>, k: nat, n: nat)
    requires ValidTape(tape, symbols) && n <= |tape| && |d.slots| == |symbols| && k < |symbols| && d.stopped
    ensures OnlyLastSale(t, d, d, tape, symbols, k, n, n)
  {
    hide Only;
    NextBarNone(tape, symbols, k, n);
  }

  lemma NextBarNone(tape: seq<Tick>, symbols: seq<string>, k: nat, n: nat)
    requires ValidTape(tape, symbols) && k < |symbols| && n <= |tape|
    ensures NextBar(tape, symbols, k, n, n) == None
  {
  }

  lemma {:induction false} NextBarSnoc(tape: seq<Tick>, symbols: seq<string>, k: nat, n: nat, m: nat)
    requires ValidTape(tape, symbols) && k < |symbols| && n < m <= |tape|
    ensures var early := NextBar(tape, symbols, k, n, m - 1);
            NextBar(tape, symbols, k, n, m)
            == if early.Some? then early else if tape[m - 1][k].Some? then Some(m - 1) else None
    decreases m - n
  {
    if n < m - 1 && tape[n][k].None? {
      NextBarSnoc(tape, symbols, k, n + 1, m);
    }
  }

  // ----- The daily loss block

  predicate SameDay(tape: seq<Tick>, symbols: seq<string>, j: nat, n: nat)
    requires ValidTape(tape, symbols) && j < n <= |tape|
  {
    forall k | j <= k < n :: DayOf(tape[k]) == DayOf(tape[j])
  }

  /** The desk at the opens of tick `j`, before the pending orders. */
  function DayOpen(t: Terms, firstCloses: seq<real>, tape: seq<Tick>, symbols: seq<string>, j: nat): Desk
    requires ValidTape(tape, symbols) && |firstCloses| == |symbols| && j < |tape|
    requires After(t, firstCloses, tape, symbols, j).Ok?
  {
    OpenTick(t, After(t, firstCloses, tape, symbols, j).value, tape[j])
  }

  /** The first tick of the day of tick `n`. */
  function FirstOfDay(tape: seq<Tick>, symbols: seq<string>, n: nat): (j: nat)
    requires ValidTape(tape, symbols) && n < |tape|
    ensures j <= n
  {
    if n > 0 && DayOf(tape[n - 1]) == DayOf(tape[n]) then FirstOfDay(tape, symbols, n - 1) else n
  }

  lemma {:induction false} FirstOfDayIsFirst(tape: seq<Tick>, symbols: seq<string>, n: nat)
    requires ValidTape(tape, symbols) && n < |tape|
    ensures var j := FirstOfDay(tape, symbols, n);
            SameDay(tape, symbols, j, n + 1) && (j > 0 ==> DayOf(tape[j - 1]) != DayOf(tape[j]))
  {
    hide DayOf, SameDay, FirstOfDay, ValidTick;
    FirstOfDayStep(tape, symbols, n);
    if n > 0 && SameDate(tape, symbols, n) {
      FirstOfDayIsFirst(tape, symbols, n - 1);
      SameDayNext(tape, symbols, FirstOfDay(tape, symbols, n), n);
    } else {
      SameDayOne(tape, symbols, n);
    }
  }

  /** Tick `n` is of the day of the one before. */
  predicate SameDate(tape: seq<Tick>, symbols: seq<string>, n: nat)
    requires ValidTape(tape, symbols) && 0 < n < |tape|
  {
    DayOf(tape[n - 1]) == DayOf(tape[n])
  }

  lemma FirstOfDayStep(tape: seq<Tick>, symbols: seq<string>, n: nat)
    requires ValidTape(tape, symbols) && n < |tape|
    ensures FirstOfDay(tape, symbols, n)
         == if n > 0 && SameDate(tape, symbols, n) then FirstOfDay(tape, symbols, n - 1) else n
  {
    hide DayOf;
  }

  /** The day of a tick is that of the bar of its first present symbol. */
  lemma {:induction false} DayIsFirst(tick: Tick) returns (k: nat)
    requires exists i | 0 <= i < |tick| :: tick[i].Some?
    ensures k < |tick| && tick[k].Some? && (forall i | 0 <= i < k :: tick[i].None?)
    ensures DayOf(tick) == tick[k].value.bar.day
  {
    if tick[0].Some? {
      k := 0;
    } else {
      var i :| 0 <= i < |tick| && tick[i].Some?;
      assert tick[1..][i - 1].Some?;
      var rest := DayIsFirst(tick[1..]);
      k := rest + 1;
      forall j | 0 <= j < k
        ensures tick[j].None?
      {
        assert j > 0 ==> tick[j] == tick[1..][j - 1];
      }
    }
  }

  /** What each position is worth at the opens of a tick, one without a bar at its last close. */
  function OpenValues(slots: seq<Slot>, tick: Tick): (r: seq<real>)
    requires |slots| == |tick|
    ensures |r| == |tick|
  {
    seq(|tick|, k requires 0 <= k < |tick| =>
      slots[k].units * if tick[k].Some? then tick[k].value.bar.open else slots[k].lastClose)
  }

  /** And at its closes. */
  function CloseValues(slots: seq<Slot>, tick: Tick): (r: seq<real>)
    requires |slots| == |tick|
    ensures |r| == |tick|
  {
    seq(|tick|, k requires 0 <= k < |tick| =>
      slots[k].units * if tick[k].Some? then tick[k].value.bar.close else slots[k].lastClose)
  }

  lemma {:induction false} ValuesSum(slots: seq<Slot>, tick: Tick, n: nat)
    requires n <= |slots| == |tick|
    ensures Exposure(slots, tick, n) == Sum(OpenValues(slots, tick)[..n])
    ensures CloseValue(slots, tick, n) == Sum(CloseValues(slots, tick)[..n])
  {
    hide OpenValues, CloseValues, Sum, Value, OpenMark, CloseMark;
    if n > 0 {
      ValuesSum(slots, tick, n - 1);
      OneMoreTerm(OpenValues(slots, tick), n - 1);
      OneMoreTerm(CloseValues(slots, tick), n - 1);
      ValuesAt(slots, tick, n - 1);
    } else {
      NoTerms(OpenValues(slots, tick));
      NoTerms(CloseValues(slots, tick));
    }
  }

  lemma NoTerms(xs: seq<real>)
    ensures Sum(xs[..0]) == 0.0
  {
  }

  lemma OneMoreTerm(xs: seq<real>, n: nat)
    requires n < |xs|
    ensures Sum(xs[..n + 1]) == Sum(xs[..n]) + xs[n]
  {
    assert xs[..n + 1] == xs[..n] + [xs[n]];
    SumSnoc(xs[..n], xs[n]);
  }

  lemma ValuesAt(slots: seq<Slot>, tick: Tick, k: nat)
    requires k < |slots| == |tick|
    ensures OpenValues(slots, tick)[k] == Value(slots[k].units, OpenMark(slots[k], tick[k]))
    ensures CloseValues(slots, tick)[k] == Value(slots[k].units, CloseMark(slots[k], tick[k]))
  {
  }

  lemma WorthSum(slots: seq<Slot>, tick: Tick)
    requires |slots| == |tick|
    ensures Exposure(slots, tick, |tick|) == Sum(OpenValues(slots, tick))
    ensures CloseValue(slots, tick, |tick|) == Sum(CloseValues(slots, tick))
  {
    ValuesSum(slots, tick, |tick|);
    assert OpenValues(slots, tick)[..|tick|] == OpenValues(slots, tick);
    assert CloseValues(slots, tick)[..|tick|] == CloseValues(slots, tick);
  }

  /** What the desk is worth at the opens of tick `j`, before the pending orders. */
  function OpenWorth(t: Terms, firstCloses: seq<real>, tape: seq<Tick>, symbols: seq<string>, j: nat): real
    requires ValidTape(tape, symbols) && |firstCloses| == |symbols| && j < |tape|
    requires After(t, firstCloses, tape, symbols, j).Ok?
  {
    var d := After(t, firstCloses, tape, symbols, j).value;
    d.cash + Sum(OpenValues(d.slots, tape[j]))
  }

  /** What it is worth at the closes. */
  function CloseWorth(t: Terms, firstCloses: seq<real>, tape: seq<Tick>, symbols: seq<string>, j: nat): real
    requires ValidTape(tape, symbols) && |firstCloses| == |symbols| && j < |tape|
    requires After(t, firstCloses, tape, symbols, j + 1).Ok?
  {
    var d := After(t, firstCloses, tape, symbols, j + 1).value;
    d.cash + Sum(CloseValues(d.slots, tape[j]))
  }

  lemma OpenKeepsStart(t: Terms, d: Desk, tick: Tick)
    requires |tick| == |d.slots| && exists k | 0 <= k < |tick| :: tick[k].Some?
    requires forall k | 0 <= k < |tick| && tick[k].Some? :: tick[k].value.bar.open > 0.0
    requires Step(t, d, tick).Ok?
    ensures var o, e := OpenTick(t, d, tick), Step(t, d, tick).value;
            && e.dayStart == o.dayStart && e.day == Some(DayOf(tick))
            && o.dayStart == if d.day == Some(DayOf(tick)) then d.dayStart else d.cash + Exposure(d.slots, tick, |tick|)
  {
    hide AtOpen, LossBreached, Exposure, CloseValue, DecideAll, DayOf;
    AtOpenFrame(t, d, tick);
    StepFrame(t, d, tick);
  }

  /** The loss of a day is measured from the opens of its first tick. */
  lemma {:induction false} DayStartsAtOpen(t: Terms, firstCloses: seq<real>, tape: seq<Tick>, symbols: seq<string>,
                                           n: nat)
    requires ValidTape(tape, symbols) && |firstCloses| == |symbols| && n < |tape|
    requires After(t, firstCloses, tape, symbols, n + 1).Ok?
    ensures After(t, firstCloses, tape, symbols, n).Ok?
    ensures After(t, firstCloses, tape, symbols, FirstOfDay(tape, symbols, n)).Ok?
    ensures var start := OpenWorth(t, firstCloses, tape, symbols, FirstOfDay(tape, symbols, n));
            && DayOpen(t, firstCloses, tape, symbols, n).dayStart == start
            && After(t, firstCloses, tape, symbols, n + 1).value.dayStart == start
    ensures After(t, firstCloses, tape, symbols, n + 1).value.day == Some(DayOf(tape[n]))
  {
    hide Step, Rate, LossBreached, DayOf, SameDay, Exposure, OpenTick, OpenValues, CloseValues, Sum;
    History(t, firstCloses, tape, symbols, n, n + 1);
    WorthSum(After(t, firstCloses, tape, symbols, n).value.slots, tape[n]);
    OpenKeepsStart(t, After(t, firstCloses, tape, symbols, n).value, tape[n]);
    if n > 0 {
      DayStartsAtOpen(t, firstCloses, tape, symbols, n - 1);
    } else {
      assert After(t, firstCloses, tape, symbols, 0) == Ok(Start(t, firstCloses));
    }
  }

  /** The loss limit is reached at the opens of tick `j`, against the first opens of the day. */
  predicate BreachAtOpen(t: Terms, firstCloses: seq<real>, tape: seq<Tick>, symbols: seq<string>, j: nat)
    requires ValidTape(tape, symbols) && |firstCloses| == |symbols| && j < |tape|
    requires After(t, firstCloses, tape, symbols, j).Ok?
    requires After(t, firstCloses, tape, symbols, FirstOfDay(tape, symbols, j)).Ok?
  {
    LossBreached(t.risk, OpenWorth(t, firstCloses, tape, symbols, FirstOfDay(tape, symbols, j)),
                 OpenWorth(t, firstCloses, tape, symbols, j))
  }

  /** It is reached at the closes. */
  predicate BreachAtClose(t: Terms, firstCloses: seq<real>, tape: seq<Tick>, symbols: seq<string>, j: nat)
    requires ValidTape(tape, symbols) && |firstCloses| == |symbols| && j < |tape|
    requires After(t, firstCloses, tape, symbols, j + 1).Ok?
    requires After(t, firstCloses, tape, symbols, FirstOfDay(tape, symbols, j)).Ok?
  {
    LossBreached(t.risk, OpenWorth(t, firstCloses, tape, symbols, FirstOfDay(tape, symbols, j)),
                 CloseWorth(t, firstCloses, tape, symbols, j))
  }

  /** The loss limit is reached at the opens or the closes of tick `j`. */
  predicate BreachAt(t: Terms, firstCloses: seq<real>, tape: seq<Tick>, symbols: seq<string>, j: nat)
    requires ValidTape(tape, symbols) && |firstCloses| == |symbols| && j < |tape|
    requires After(t, firstCloses, tape, symbols, j).Ok? && After(t, firstCloses, tape, symbols, j + 1).Ok?
    requires After(t, firstCloses, tape, symbols, FirstOfDay(tape, symbols, j)).Ok?
  {
    BreachAtOpen(t, firstCloses, tape, symbols, j) || BreachAtClose(t, firstCloses, tape, symbols, j)
  }

  /** What a tick does to the block and to the stop flag: a new day lifts the block, a breach at the opens or
      the closes sets it, and one at the closes can stop the run. */
  lemma BlockedStep(t: Terms, d: Desk, tick: Tick)
    requires |tick| == |d.slots| && exists k | 0 <= k < |tick| :: tick[k].Some?
    requires forall k | 0 <= k < |tick| && tick[k].Some? :: tick[k].value.bar.open > 0.0
    requires Step(t, d, tick).Ok?
    ensures var o, e := OpenTick(t, d, tick), Step(t, d, tick).value;
            var closing := LossBreached(t.risk, o.dayStart, e.cash + CloseValue(e.slots, tick, |tick|));
            && (o.blocked <==> (d.blocked && d.day == Some(DayOf(tick)))
                               || LossBreached(t.risk, o.dayStart, d.cash + Exposure(d.slots, tick, |tick|)))
            && (e.blocked <==> o.blocked || closing)
            && (e.stopped <==> d.stopped || (closing && t.risk.dailyLossAction.Stop?))
  {
    hide AtOpen, LossBreached, Exposure, CloseValue, DecideAll, DayOf;
    AtOpenFrame(t, d, tick);
    var f := AtOpen(t, d, tick);
    var g := DecideAll(t, f, tick, |tick|).value;
    DecideFrame(t, f, tick, |tick|);
    CloseValueOf(g.slots, OrderExits(g.slots), tick, |tick|);
  }

  /** The orders of an open change the cash, the positions and the trades alone. */
  lemma AtOpenFrame(t: Terms, d: Desk, tick: Tick)
    requires |tick| == |d.slots| && exists k | 0 <= k < |tick| :: tick[k].Some?
    requires forall k | 0 <= k < |tick| && tick[k].Some? :: tick[k].value.bar.open > 0.0
    ensures var o, f := OpenTick(t, d, tick), AtOpen(t, d, tick);
            f == o.(cash := f.cash, slots := f.slots, trades := f.trades)
  {
    hide SellAll, BuyAll, DayOf, Exposure, LossBreached;
    var o := OpenTick(t, d, tick);
    SellFrame(t, o, tick, |tick|);
    BuyFrame(t, SellAll(t, o, tick, |tick|), tick, |tick|);
  }

  /** A block lasts into the next tick of its day. */
  lemma BlockCarries(t: Terms, d: Desk, tick: Tick)
    requires |tick| == |d.slots| && exists k | 0 <= k < |tick| :: tick[k].Some?
    requires d.blocked && d.day == Some(DayOf(tick))
    ensures OpenTick(t, d, tick).blocked
  {
    hide DayOf, Exposure, LossBreached;
  }

  lemma AllOk(t: Terms, firstCloses: seq<real>, tape: seq<Tick>, symbols: seq<string>, n: nat)
    requires ValidTape(tape, symbols) && |firstCloses| == |symbols| && n <= |tape|
    requires After(t, firstCloses, tape, symbols, n).Ok?
    ensures forall j | 0 <= j <= n :: After(t, firstCloses, tape, symbols, j).Ok?
  {
    forall j | 0 <= j <= n
      ensures After(t, firstCloses, tape, symbols, j).Ok?
    {
      History(t, firstCloses, tape, symbols, j, n);
    }
  }

  /** What tick `n` of a run does to the block and the stop flag. */
  lemma BlockedStepAt(t: Terms, firstCloses: seq<real>, tape: seq<Tick>, symbols: seq<string>, n: nat)
    requires ValidTape(tape, symbols) && |firstCloses| == |symbols| && n < |tape|
    requires After(t, firstCloses, tape, symbols, n + 1).Ok?
    ensures forall j | 0 <= j <= n + 1 :: After(t, firstCloses, tape, symbols, j).Ok?
    ensures var d, e := After(t, firstCloses, tape, symbols, n).value,
            After(t, firstCloses, tape, symbols, n + 1).value;
            && e.day == Some(DayOf(tape[n]))
            && (DayOpen(t, firstCloses, tape, symbols, n).blocked <==>
                  (d.blocked && d.day == Some(DayOf(tape[n]))) || BreachAtOpen(t, firstCloses, tape, symbols, n))
            && (e.blocked <==>
                  (d.blocked && d.day == Some(DayOf(tape[n]))) || BreachAt(t, firstCloses, tape, symbols, n))
            && (e.stopped <==>
                  d.stopped || (t.risk.dailyLossAction.Stop? && BreachAtClose(t, firstCloses, tape, symbols, n)))
  {
    hide Step, DayOf, OpenTick, LossBreached, Exposure, CloseValue, SameDay, FirstOfDay, OpenValues, CloseValues, Sum;
    AllOk(t, firstCloses, tape, symbols, n + 1);
    WorthSum(After(t, firstCloses, tape, symbols, n).value.slots, tape[n]);
    WorthSum(After(t, firstCloses, tape, symbols, n + 1).value.slots, tape[n]);
    DayStartsAtOpen(t, firstCloses, tape, symbols, n);
    BlockedStep(t, After(t, firstCloses, tape, symbols, n).value, tape[n]);
  }

  /** Entries are blocked after a tick exactly when the loss limit was reached, at the opens or the
      closes, in this or an earlier tick of the same day; each loss counts from the first opens of its day. */
  lemma {:induction false} BlockedMeansBreached(t: Terms, firstCloses: seq<real>, tape: seq<Tick>, symbols: seq<string>,
                                                n: nat)
    requires ValidTape(tape, symbols) && |firstCloses| == |symbols| && 0 < n <= |tape|
    requires After(t, firstCloses, tape, symbols, n).Ok?
    ensures forall j | 0 <= j <= n :: After(t, firstCloses, tape, symbols, j).Ok?
    ensures After(t, firstCloses, tape, symbols, n).value.day == Some(DayOf(tape[n - 1]))
    ensures After(t, firstCloses, tape, symbols, n).value.blocked
            <==> exists j | 0 <= j < n :: SameDay(tape, symbols, j, n) && BreachAt(t, firstCloses, tape, symbols, j)
  {
    hide Step, Rate, BreachAt, BreachAtOpen, BreachAtClose, DayOf, SameDay, DayOpen, FirstOfDay;
    BlockedStepAt(t, firstCloses, tape, symbols, n - 1);
    if n > 1 {
      BlockedMeansBreached(t, firstCloses, tape, symbols, n - 1);
      forall j | 0 <= j < n - 1
        ensures SameDay(tape, symbols, j, n)
                <==> SameDay(tape, symbols, j, n - 1) && DayOf(tape[n - 2]) == DayOf(tape[n - 1])
      {
        SameDayNext(tape, symbols, j, n - 1);
      }
    } else {
      assert After(t, firstCloses, tape, symbols, 0) == Ok(Start(t, firstCloses));
    }
    SameDayOne(tape, symbols, n - 1);
  }

  /** A run is stopped exactly when the action is to stop and the loss limit was reached at the closes of some
      tick. */
  lemma {:induction false} StoppedIff(t: Terms, firstCloses: seq<real>, tape: seq<Tick>, symbols: seq<string>, n: nat)
    requires ValidTape(tape, symbols) && |firstCloses| == |symbols| && n <= |tape|
    requires After(t, firstCloses, tape, symbols, n).Ok?
    ensures forall j | 0 <= j <= n :: After(t, firstCloses, tape, symbols, j).Ok?
    ensures After(t, firstCloses, tape, symbols, n).value.stopped
            <==> t.risk.dailyLossAction.Stop?
                 && exists j | 0 <= j < n :: BreachAtClose(t, firstCloses, tape, symbols, j)
  {
    hide Step, Rate, BreachAt, BreachAtOpen, BreachAtClose, DayOf, SameDay, DayOpen, FirstOfDay;
    AllOk(t, firstCloses, tape, symbols, n);
    if n > 0 {
      StoppedIff(t, firstCloses, tape, symbols, n - 1);
      BlockedStepAt(t, firstCloses, tape, symbols, n - 1);
    } else {
      assert After(t, firstCloses, tape, symbols, 0) == Ok(Start(t, firstCloses));
    }
  }

  lemma SameDayOne(tape: seq<Tick>, symbols: seq<string>, j: nat)
    requires ValidTape(tape, symbols) && j < |tape|
    ensures SameDay(tape, symbols, j, j + 1)
  {
    hide DayOf;
  }

  lemma SameDayNext(tape: seq<Tick>, symbols: seq<string>, j: nat, n: nat)
    requires ValidTape(tape, symbols) && j < n < |tape|
    ensures SameDay(tape, symbols, j, n + 1) <==> SameDay(tape, symbols, j, n) && DayOf(tape[n - 1]) == DayOf(tape[n])
  {
    hide DayOf;
  }

  /** From `a` to `b` trades are only added, and those are sales. */
  ghost predicate OnlySales(a: seq<Trade>, b: seq<Trade>) {
    a <= b && forall i | |a| <= i < |b| :: b[i].side == Sell
  }

  lemma {:induction false} SellAllOnlySells(t: Terms, d: Desk, tick: Tick, n: nat)
    requires n <= |tick| == |d.slots|
    ensures OnlySales(d.trades, SellAll(t, d, tick, n).trades) && SellAll(t, d, tick, n).blocked == d.blocked
  {
    hide CostOf, Value;
    if n > 0 {
      SellAllOnlySells(t, d, tick, n - 1);
    }
  }

  lemma {:induction false} BlockedBuysNothing(t: Terms, d: Desk, tick: Tick, n: nat)
    requires n <= |tick| == |d.slots| && d.blocked
    requires forall k | 0 <= k < |tick| && tick[k].Some? :: tick[k].value.bar.open > 0.0
    ensures BuyAll(t, d, tick, n).trades == d.trades && BuyAll(t, d, tick, n).blocked
  {
    hide CostOf, Value, UnitsBought, Allotment, Exposure;
    if n > 0 {
      BlockedBuysNothing(t, d, tick, n - 1);
    }
  }

  /** A tick whose opens find entries blocked makes no buy, whatever orders are pending, and leaves them
      blocked. */
  lemma BlockedTickBuysNothing(t: Terms, d: Desk, tick: Tick)
    requires |tick| == |d.slots| && exists k | 0 <= k < |tick| :: tick[k].Some?
    requires forall k | 0 <= k < |tick| && tick[k].Some? :: tick[k].value.bar.open > 0.0
    requires OpenTick(t, d, tick).blocked && Step(t, d, tick).Ok?
    ensures var e := Step(t, d, tick).value; e.blocked && OnlySales(d.trades, e.trades)
  {
    hide SellAll, BuyAll, LossBreached, Exposure, Step;
    var o := OpenTick(t, d, tick);
    SellAllOnlySells(t, o, tick, |tick|);
    BlockedBuysNothing(t, SellAll(t, o, tick, |tick|), tick, |tick|);
    StepFrame(t, d, tick);
  }

  lemma OnlySalesSame(a: seq<Trade>)
    ensures OnlySales(a, a)
  {
  }

  lemma OnlySalesJoin(a: seq<Trade>, b: seq<Trade>, c: seq<Trade>)
    requires OnlySales(a, b) && OnlySales(b, c)
    ensures OnlySales(a, c)
  {
  }

  lemma BlockReopens(t: Terms, firstCloses: seq<real>, tape: seq<Tick>, symbols: seq<string>, m: nat)
    requires ValidTape(tape, symbols) && |firstCloses| == |symbols| && m < |tape|
    requires After(t, firstCloses, tape, symbols, m).Ok?
    requires After(t, firstCloses, tape, symbols, m).value.blocked
    requires After(t, firstCloses, tape, symbols, m).value.day == Some(DayOf(tape[m]))
    ensures DayOpen(t, firstCloses, tape, symbols, m).blocked
  {
    hide OpenTick, After, DayOf;
    BlockCarries(t, After(t, firstCloses, tape, symbols, m).value, tape[m]);
  }

  lemma BlockedTickAt(t: Terms, firstCloses: seq<real>, tape: seq<Tick>, symbols: seq<string>, m: nat)
    requires ValidTape(tape, symbols) && |firstCloses| == |symbols| && m < |tape|
    requires After(t, firstCloses, tape, symbols, m).Ok? && After(t, firstCloses, tape, symbols, m + 1).Ok?
    requires DayOpen(t, firstCloses, tape, symbols, m).blocked
    ensures var d, e := After(t, firstCloses, tape, symbols, m).value,
            After(t, firstCloses, tape, symbols, m + 1).value;
            e.blocked && OnlySales(d.trades, e.trades)
  {
    hide Step, OpenTick, OnlySales;
    BlockedTickBuysNothing(t, After(t, firstCloses, tape, symbols, m).value, tape[m]);
  }

  /** From the first tick of a day whose opens find entries blocked, no symbol buys for the rest of the
      day, entries already pending included. */
  lemma {:induction false} BlockLastsTheDay(t: Terms, firstCloses: seq<real>, tape: seq<Tick>, symbols: seq<string>,
                                            k: nat, m: nat)
    requires ValidTape(tape, symbols) && |firstCloses| == |symbols| && k < m <= |tape|
    requires After(t, firstCloses, tape, symbols, m).Ok? && SameDay(tape, symbols, k, m)
    requires After(t, firstCloses, tape, symbols, k).Ok? && DayOpen(t, firstCloses, tape, symbols, k).blocked
    ensures var a, b := After(t, firstCloses, tape, symbols, k).value, After(t, firstCloses, tape, symbols, m).value;
            b.blocked && OnlySales(a.trades, b.trades)
    decreases m
  {
    hide Step, Rate, DayOf, DayOpen, SameDay, BreachAt, OnlySales, After;
    History(t, firstCloses, tape, symbols, m - 1, m);
    if k < m - 1 {
      SameDayNext(tape, symbols, k, m - 1);
      BlockLastsTheDay(t, firstCloses, tape, symbols, k, m - 1);
      BlockedMeansBreached(t, firstCloses, tape, symbols, m - 1);
      BlockReopens(t, firstCloses, tape, symbols, m - 1);
    }
    BlockedTickAt(t, firstCloses, tape, symbols, m - 1);
    if k < m - 1 {
      OnlySalesJoin(After(t, firstCloses, tape, symbols, k).value.trades,
          After(t, firstCloses, tape, symbols, m - 1).value.trades,
                    After(t, firstCloses, tape, symbols, m).value.trades);
    }
  }

  /** After a tick in which the loss limit is reached, at its opens or at its closes, no symbol buys for
      the rest of the day; and if it is reached at the opens, none buys in that tick either. */
  lemma NoBuyAfterBreach(t: Terms, firstCloses: seq<real>, tape: seq<Tick>, symbols: seq<string>, j: nat, m: nat)
    requires ValidTape(tape, symbols) && |firstCloses| == |symbols| && j < m <= |tape|
    requires forall i | 0 <= i <= m :: After(t, firstCloses, tape, symbols, i).Ok?
    requires SameDay(tape, symbols, j, m) && BreachAt(t, firstCloses, tape, symbols, j)
    ensures var a, b, e := After(t, firstCloses, tape, symbols, j).value,
            After(t, firstCloses, tape, symbols, j + 1).value,
                           After(t, firstCloses, tape, symbols, m).value;
            && e.blocked && OnlySales(b.trades, e.trades)
            && (DayOpen(t, firstCloses, tape, symbols, j).blocked ==> OnlySales(a.trades, e.trades))
  {
    hide Step, Rate, DayOf, DayOpen, BreachAt, OnlySales, After;
    History(t, firstCloses, tape, symbols, j + 1, m);
    BlockedStepAt(t, firstCloses, tape, symbols, j);
    if DayOpen(t, firstCloses, tape, symbols, j).blocked {
      BlockLastsTheDay(t, firstCloses, tape, symbols, j, m);
    }
    if j + 1 < m {
      assert DayOf(tape[j + 1]) == DayOf(tape[j]);
      assert forall k | j + 1 <= k < m :: DayOf(tape[k]) == DayOf(tape[j]);
      BlockReopens(t, firstCloses, tape, symbols, j + 1);
      BlockLastsTheDay(t, firstCloses, tape, symbols, j + 1, m);
    } else {
      OnlySalesSame(After(t, firstCloses, tape, symbols, m).value.trades);
    }
  }
}
