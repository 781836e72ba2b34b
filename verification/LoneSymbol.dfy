/** Ticks of a many-symbol run in which one symbol alone is held or ordered, under no limits. */
module LoneSymbol {
  import opened Prelude
  import opened Costs
  import opened Strategy
  import opened Market
  import opened MultiEngine

  /** No exits but those of the rules, and nothing that limits a position but the cash. */
  predicate NoLimits(risk: Risk) {
    && risk.stopLossPct == 0.0 && risk.takeProfitPct == 0.0 && risk.dailyLossLimitPct.None?
    && risk.maxConcurrentPositions.None? && risk.maxTotalExposurePct.None?
  }

  /** Nothing is held or ordered. */
  ghost predicate Idle(slot: Slot) {
    slot.units == 0.0 && slot.pending.NoOrder?
  }

  ghost predicate Alone(d: Desk, k: nat)
    requires k < |d.slots|
  {
    !d.blocked && !d.stopped && forall l | 0 <= l < |d.slots| && l != k :: Idle(d.slots[l])
  }

  /** The rules answer, and ask for no symbol but `k`. */
  ghost predicate Silent(tick: Tick, k: nat) {
    forall l | 0 <= l < |tick| && tick[l].Some? ::
      && tick[l].value.entry.Ok? && tick[l].value.exit.Ok?
      && (l != k ==> !tick[l].value.entry.value && !tick[l].value.exit.value)
  }

  /** The order that the rules place. */
  function Asked(slot: Slot, cell: Option<Cell>): Order {
    if cell.None? then slot.pending
    else if slot.units > 0.0 then (if cell.value.exit == Ok(true) then ExitOrder else slot.pending)
    else if cell.value.entry == Ok(true) then EntryOrder
    else slot.pending
  }

  lemma {:induction false} SellAllAlone(t: Terms, d: Desk, tick: Tick, k: nat, n: nat)
    requires n <= |tick| == |d.slots| && k < |tick| && Alone(d, k)
    ensures SellAll(t, d, tick, n) == if k < n then SellOne(t, d, tick, k) else d
  {
    hide CostOf, Value;
    if n > 0 {
      SellAllAlone(t, d, tick, k, n - 1);
    }
  }

  lemma {:induction false} BuyAllAlone(t: Terms, d: Desk, tick: Tick, k: nat, n: nat)
    requires n <= |tick| == |d.slots| && k < |tick| && Alone(d, k)
    requires forall l | 0 <= l < |tick| && tick[l].Some? :: tick[l].value.bar.open > 0.0
    ensures BuyAll(t, d, tick, n) == if k < n then BuyOne(t, d, tick, k) else d
  {
    hide CostOf, Value, UnitsBought, Allotment, EntryAllowed;
    if n > 0 {
      BuyAllAlone(t, d, tick, k, n - 1);
    }
  }

  lemma {:induction false} DecideAllAlone(t: Terms, d: Desk, tick: Tick, k: nat, n: nat)
    requires n <= |tick| == |d.slots| && k < |tick| && Alone(d, k) && Silent(tick, k)
    requires t.risk.stopLossPct == 0.0 && t.risk.takeProfitPct == 0.0
    ensures DecideAll(t, d, tick, n).Ok?
    ensures var e := DecideAll(t, d, tick, n).value;
            && e == d.(slots := e.slots) && Alone(e, k)
            && e.slots[k].units == d.slots[k].units
            && e.slots[k].pending == if k < n then Asked(d.slots[k], tick[k]) else d.slots[k].pending
  {
    if n > 0 {
      DecideAllAlone(t, d, tick, k, n - 1);
    }
  }

  /** A tick: the open of symbol `k`, then what its rules ask. */
  lemma StepAlone(t: Terms, d: Desk, tick: Tick, symbols: seq<string>, k: nat)
    requires ValidTick(tick, symbols) && |d.slots| == |symbols| && k < |symbols| && Alone(d, k) && Silent(tick, k)
    requires NoLimits(t.risk)
    ensures var o := OpenTick(t, d, tick);
            && o == d.(day := o.day, dayStart := o.dayStart)
            && var f := BuyOne(t, SellOne(t, o, tick, k), tick, k);
               Alone(f, k) && Step(t, d, tick).Ok?
               && var e := Step(t, d, tick).value;
                  && Alone(e, k) && e.cash == f.cash && e.trades == f.trades
                  && e.slots[k].units == f.slots[k].units && e.slots[k].pending == Asked(f.slots[k], tick[k])
  {
    hide SellAll, BuyAll, DecideAll, CostOf, Value, UnitsBought, Allotment, EntryAllowed, Exposure, CloseValue;
    var o := OpenTick(t, d, tick);
    SellAllAlone(t, o, tick, k, |tick|);
    BuyAllAlone(t, SellOne(t, o, tick, k), tick, k, |tick|);
    DecideAllAlone(t, AtOpen(t, d, tick), tick, k, |tick|);
  }

  /** Without an order, or without a bar, symbol `k` does not trade. */
  lemma LoneWaits(t: Terms, d: Desk, tick: Tick, symbols: seq<string>, k: nat)
    requires ValidTick(tick, symbols) && |d.slots| == |symbols| && k < |symbols| && Alone(d, k) && Silent(tick, k)
    requires NoLimits(t.risk) && (tick[k].None? || d.slots[k].pending.NoOrder?)
    ensures Step(t, d, tick).Ok?
    ensures var e := Step(t, d, tick).value;
            && Alone(e, k) && e.cash == d.cash && e.trades == d.trades
            && e.slots[k].units == d.slots[k].units && e.slots[k].pending == Asked(d.slots[k], tick[k])
  {
    hide Step, OpenTick, CostOf, Value, UnitsBought, Allotment, EntryAllowed;
    StepAlone(t, d, tick, symbols, k);
  }

  /** The purchase of symbol `k`, which the cash allows. */
  lemma LoneBuys(t: Terms, d: Desk, tick: Tick, symbols: seq<string>, k: nat)
    requires ValidTick(tick, symbols) && |d.slots| == |symbols| && k < |symbols| && Alone(d, k) && Silent(tick, k)
    requires NoLimits(t.risk) && d.cash + TOLERANCE >= Allotment(t, |symbols|)
    requires tick[k].Some? && d.slots[k].pending.EntryOrder? && d.slots[k].units == 0.0
    ensures Step(t, d, tick).Ok?
    ensures var e, bar, stake := Step(t, d, tick).value, tick[k].value.bar, Allotment(t, |symbols|);
            && Alone(e, k) && e.cash == d.cash - stake
            && e.trades == d.trades + [MakeTrade(bar, Buy, e.slots[k].units, CostOf(t, stake))]
            && e.slots[k].units == UnitsBought(stake, CostOf(t, stake), bar.open)
            && e.slots[k].pending == Asked(e.slots[k].(pending := NoOrder), tick[k])
  {
    hide Step, OpenTick, CostOf, Value, UnitsBought, Allotment, Exposure, Rate;
    StepAlone(t, d, tick, symbols, k);
  }

  /** The purchase that the cash does not allow. */
  lemma LoneLapses(t: Terms, d: Desk, tick: Tick, symbols: seq<string>, k: nat)
    requires ValidTick(tick, symbols) && |d.slots| == |symbols| && k < |symbols| && Alone(d, k) && Silent(tick, k)
    requires NoLimits(t.risk) && d.cash + TOLERANCE < Allotment(t, |symbols|)
    requires tick[k].Some? && d.slots[k].pending.EntryOrder? && d.slots[k].units == 0.0
    ensures Step(t, d, tick).Ok?
    ensures var e := Step(t, d, tick).value;
            && Alone(e, k) && e.cash == d.cash && e.trades == d.trades && e.slots[k].units == 0.0
            && e.slots[k].pending == if tick[k].value.entry == Ok(true) then EntryOrder else NoOrder
  {
    hide Step, OpenTick, CostOf, Value, UnitsBought, Allotment, Exposure, Rate;
    StepAlone(t, d, tick, symbols, k);
  }

  /** The sale of symbol `k`. */
  lemma LoneSells(t: Terms, d: Desk, tick: Tick, symbols: seq<string>, k: nat)
    requires ValidTick(tick, symbols) && |d.slots| == |symbols| && k < |symbols| && Alone(d, k) && Silent(tick, k)
    requires NoLimits(t.risk)
    requires tick[k].Some? && d.slots[k].pending.ExitOrder? && d.slots[k].units > 0.0
    ensures Step(t, d, tick).Ok?
    ensures var e, bar := Step(t, d, tick).value, tick[k].value.bar;
            var notional := Value(d.slots[k].units, bar.open);
            && Alone(e, k) && e.cash == d.cash + (notional - CostOf(t, notional))
            && e.trades == d.trades + [MakeTrade(bar, Sell, d.slots[k].units, CostOf(t, notional))]
            && e.slots[k].units == 0.0
            && e.slots[k].pending == if tick[k].value.entry == Ok(true) then EntryOrder else NoOrder
  {
    hide Step, OpenTick, CostOf, Value, UnitsBought, Allotment, EntryAllowed;
    StepAlone(t, d, tick, symbols, k);
  }
}
