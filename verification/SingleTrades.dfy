/** Every trade of a one-symbol run, said from the rules, the bars and the trades before it: when there is a
    sale, when there is a purchase, and of how much. */
module SingleTrades {
  import opened Prelude
  import opened Costs
  import opened Strategy
  import opened Market
  import opened SingleEngine
  import opened SingleLimits

  /** A stop loss or a take profit in plain words: the price has moved from that of the entry by the given
      percentage of it, and a setting of zero does nothing. */
  lemma RiskExitIff(risk: Risk, entryPrice: real, price: real)
    requires entryPrice > 0.0
    ensures RiskExit(risk, entryPrice, price) <==>
              || (risk.stopLossPct > 0.0 && price <= entryPrice - entryPrice * risk.stopLossPct / 100.0)
              || (risk.takeProfitPct > 0.0 && price >= entryPrice + entryPrice * risk.takeProfitPct / 100.0)
  {
    var ratio := price / entryPrice;
    assert ratio * entryPrice == price;
    RiseIff(entryPrice, price, ratio, risk.takeProfitPct);
    FallIff(entryPrice, price, ratio, risk.stopLossPct);
  }

  lemma RiseIff(entryPrice: real, price: real, ratio: real, percent: real)
    requires entryPrice > 0.0 && ratio * entryPrice == price
    ensures (ratio - 1.0) * 100.0 >= percent <==> price >= entryPrice + entryPrice * percent / 100.0
  {
    var gap := (ratio - 1.0) * 100.0 - percent;
    assert gap * entryPrice == (price - entryPrice) * 100.0 - entryPrice * percent;
    if gap > 0.0 {
      ProductPositive(gap, entryPrice);
    } else if gap < 0.0 {
      ProductPositive(-gap, entryPrice);
    }
  }

  lemma FallIff(entryPrice: real, price: real, ratio: real, percent: real)
    requires entryPrice > 0.0 && ratio * entryPrice == price
    ensures (ratio - 1.0) * 100.0 <= -percent <==> price <= entryPrice - entryPrice * percent / 100.0
  {
    var gap := -percent - (ratio - 1.0) * 100.0;
    assert gap * entryPrice == (entryPrice - price) * 100.0 - entryPrice * percent;
    if gap > 0.0 {
      ProductPositive(gap, entryPrice);
    } else if gap < 0.0 {
      ProductPositive(-gap, entryPrice);
    }
  }

  // ----- What is held

  /** Units are held from the last trade, a purchase of just these units at the entry price. */
  ghost predicate HeldFromLast(a: Account) {
    a.units > 0.0 ==>
      && a.trades != []
      && var last := a.trades[|a.trades| - 1];
         last.side.Buy? && last.quantity == a.units && last.price == a.entryPrice > 0.0
  }

  lemma StepHeld(t: Terms, a: Account, cell: Cell)
    requires cell.bar.open > 0.0 && Step(t, a, cell).Ok? && HeldFromLast(a)
    ensures HeldFromLast(Step(t, a, cell).value)
  {
    hide Rate, CostOf, UnitsBought, Stake, Value, Worth, LossBreached, RiskExit, EntryAllowed;
  }

  lemma {:induction false} AlwaysHeldFromLast(t: Terms, cells: seq<Cell>, n: nat)
    requires n <= |cells|
    requires forall i | 0 <= i < |cells| :: cells[i].bar.open > 0.0
    requires After(t, cells, n).Ok?
    ensures HeldFromLast(After(t, cells, n).value)
  {
    hide Step, HeldFromLast;
    if n == 0 {
      StartHeld(t);
    } else {
      AlwaysHeldFromLast(t, cells, n - 1);
      StepHeld(t, After(t, cells, n - 1).value, cells[n - 1]);
    }
  }

  lemma StartHeld(t: Terms)
    ensures HeldFromLast(Start(t))
  {
  }

  // ----- What is ordered

  /** The order that a bar leaves. */
  lemma OrderLeft(t: Terms, a: Account, cell: Cell)
    requires cell.bar.open > 0.0 && Step(t, a, cell).Ok?
    ensures var o, b := OpenDay(t, a, cell.bar), Step(t, a, cell).value;
            var closing := LossBreached(t.risk, o.dayStart, Worth(b.cash, b.units, cell.bar.close));
            b.pending == if b.units > 0.0 then
                           (if || cell.exit == Ok(true) || RiskExit(t.risk, b.entryPrice, cell.bar.close)
                               || (closing && t.risk.dailyLossAction in {Reduce, Stop})
                            then ExitOrder else NoOrder)
                         else if o.blocked || a.stopped then NoOrder
                         else if cell.entry == Ok(true) then EntryOrder
                         else NoOrder
  {
    hide Rate, CostOf, UnitsBought, Stake, Value, Worth, LossBreached, RiskExit, ExposureAllows;
  }

  /** What an open does with an order. */
  lemma OrderFills(t: Terms, a: Account, cell: Cell)
    requires cell.bar.open > 0.0 && Step(t, a, cell).Ok?
    ensures var o, b := OpenDay(t, a, cell.bar), Step(t, a, cell).value;
            b.trades == a.trades +
              if a.pending.ExitOrder? && a.units > 0.0 then
                [MakeTrade(cell.bar, Sell, a.units, CostOf(t, Value(a.units, cell.bar.open)))]
              else if && a.pending.EntryOrder? && a.units == 0.0 && !o.blocked && !a.stopped
                      && ExposureAllows(t.risk, Stake(t, a.cash), a.cash, 0.0)
              then
                [MakeTrade(cell.bar, Buy, UnitsBought(Stake(t, a.cash), CostOf(t, Stake(t, a.cash)), cell.bar.open),
                           CostOf(t, Stake(t, a.cash)))]
              else []
  {
    hide Rate, CostOf, UnitsBought, Stake, LossBreached, RiskExit, ExposureAllows;
    if a.units == 0.0 {
      assert Worth(a.cash, 0.0, cell.bar.open) == a.cash && Value(0.0, cell.bar.open) == 0.0;
    }
  }

  /** Entries are blocked at the open of a bar when the loss limit is reached there or was reached earlier in
      the day. */
  ghost predicate BlockedAtOpen(t: Terms, cells: seq<Cell>, n: nat)
    requires n < |cells|
    requires forall i | 0 <= i < |cells| :: cells[i].bar.open > 0.0
    requires forall j | 0 <= j <= n :: After(t, cells, j).Ok?
  {
    BreachAtOpen(t, cells, n) || exists j | 0 <= j < n :: SameDay(cells, j, n + 1) && BreachAt(t, cells, j)
  }

  lemma BlockedAtOpenIff(t: Terms, cells: seq<Cell>, n: nat)
    requires n < |cells|
    requires forall i | 0 <= i < |cells| :: cells[i].bar.open > 0.0
    requires After(t, cells, n + 1).Ok?
    ensures forall j | 0 <= j <= n + 1 :: After(t, cells, j).Ok?
    ensures DayOpen(t, cells, n).blocked <==> BlockedAtOpen(t, cells, n)
  {
    hide Step, Rate, Worth, LossBreached, OpenDay, FirstOfDay, BreachAt;
    AllOk(t, cells, n + 1);
    DayStartsAtOpen(t, cells, n);
    BlockedStep(t, After(t, cells, n).value, cells[n]);
    if n > 0 {
      BlockedMeansBreached(t, cells, n);
      if cells[n - 1].bar.day == cells[n].bar.day {
        assert forall j | 0 <= j < n :: SameDay(cells, j, n + 1) <==> SameDay(cells, j, n);
      } else {
        var m := n + 1;
        assert forall j | 0 <= j < n :: !SameDay(cells, j, m);
      }
    } else {
      assert After(t, cells, 0) == Ok(Start(t));
    }
  }

  // ----- The trades of a run

  /** The bar before asks to leave: by the exit rule, by the stop loss or take profit against the price of the
      purchase, or by a loss limit reached at its close. */
  predicate LeaveAsked(t: Terms, cells: seq<Cell>, n: nat, bought: Trade)
    requires 0 < n < |cells|
    requires forall i | 0 <= i < |cells| :: cells[i].bar.open > 0.0
    requires After(t, cells, n).Ok? && After(t, cells, FirstOfDay(cells, n - 1)).Ok?
  {
    || cells[n - 1].exit == Ok(true)
    || RiskExit(t.risk, bought.price, cells[n - 1].bar.close)
    || (BreachAtClose(t, cells, n - 1) && t.risk.dailyLossAction in {Reduce, Stop})
  }

  /** The trade of bar `n`, of any run: the sale of everything held if the bar before asks to leave; if nothing
      is held, the purchase of a share of the cash if the rule at the bar before asks to enter, entries are
      blocked at neither of the two opens, the run is not stopped and the exposure limit allows it; and
      otherwise none. */
  lemma TradeOfBar(t: Terms, cells: seq<Cell>, n: nat)
    requires n < |cells|
    requires forall i | 0 <= i < |cells| :: cells[i].bar.open > 0.0
    requires After(t, cells, n + 1).Ok?
    ensures forall j | 0 <= j <= n + 1 :: After(t, cells, j).Ok?
    ensures n == 0 ==> After(t, cells, 1).value.trades == []
    ensures n > 0 ==>
              var a, b, bar := After(t, cells, n).value, After(t, cells, n + 1).value, cells[n].bar;
              if a.units > 0.0 then
                && a.trades != []
                && var bought := a.trades[|a.trades| - 1];
                   && bought.side.Buy? && bought.quantity == a.units
                   && b.trades == a.trades +
                        if LeaveAsked(t, cells, n, bought)
                        then [MakeTrade(bar, Sell, a.units, CostOf(t, Value(a.units, bar.open)))] else []
              else if && a.units == 0.0 && cells[n - 1].entry == Ok(true)
                      && !BlockedAtOpen(t, cells, n - 1) && !BlockedAtOpen(t, cells, n) && !a.stopped
                      && ExposureAllows(t.risk, Stake(t, a.cash), a.cash, 0.0)
              then
                var stake := Stake(t, a.cash);
                b.trades
                == a.trades + [MakeTrade(bar, Buy, UnitsBought(stake, CostOf(t, stake), bar.open), CostOf(t, stake))]
              else b.trades == a.trades
  {
    hide Step, Rate, CostOf, UnitsBought, Stake, Value, LossBreached, RiskExit, ExposureAllows, OpenDay, FirstOfDay,
         BlockedAtOpen, Worth, MakeTrade;
    AllOk(t, cells, n + 1);
    OrderFills(t, After(t, cells, n).value, cells[n]);
    if n == 0 {
      assert After(t, cells, 0) == Ok(Start(t));
      assert [] + [] == Start(t).trades;
    } else {
      BlockedAtOpenIff(t, cells, n - 1);
      BlockedAtOpenIff(t, cells, n);
      DayStartsAtOpen(t, cells, n - 1);
      AlwaysHeldFromLast(t, cells, n);
      OrderLeft(t, After(t, cells, n - 1).value, cells[n - 1]);
      StepFrame(t, After(t, cells, n - 1).value, cells[n - 1]);
      BlockedStep(t, After(t, cells, n - 1).value, cells[n - 1]);
    }
  }
}
