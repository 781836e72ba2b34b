/** The one-symbol run of core/backtest/engine.py: a fold over the cells of the symbol, and the loop
    that computes it. */
module SingleEngine {
  import opened Prelude
  import opened Costs
  import opened Strategy
  import opened Market

  /** The local variables of the run after some bars. */
  datatype Account = Account(
    cash: real,
    units: real,
    entryPrice: real,
    pending: Order,
    day: Option<int>,
    dayStart: real,
    blocked: bool,
    stopped: bool,
    trades: seq<Trade>,
    equity: seq<real>)

  function Start(t: Terms): Account {
    Account(t.initialCash, 0.0, 0.0, NoOrder, None, t.initialCash, false, false, [], [])
  }

  /** A new day resets the loss block; a loss at the open sets it. */
  function OpenDay(t: Terms, a: Account, bar: Bar): Account {
    var equityAtOpen := Worth(a.cash, a.units, bar.open);
    var newDay := a.day != Some(bar.day);
    var dayStart := if newDay then equityAtOpen else a.dayStart;
    a.(day := Some(bar.day),
       dayStart := dayStart,
       blocked := (!newDay && a.blocked) || LossBreached(t.risk, dayStart, equityAtOpen))
  }

  predicate EntryAllowed(t: Terms, a: Account, notional: real, price: real) {
    && !a.blocked
    && !a.stopped
    && ExposureAllows(t.risk, notional, Worth(a.cash, a.units, price), Value(a.units, price))
  }

  /** The share of the cash that an entry stakes. */
  function Stake(t: Terms, cash: real): real {
    cash * t.risk.positionSizePct / 100.0
  }

  /** The pending order fills at the open, or lapses. */
  function Fill(t: Terms, a: Account, bar: Bar): Account
    requires bar.open > 0.0
  {
    if a.pending.ExitOrder? && a.units > 0.0 then
      var notional := Value(a.units, bar.open);
      var cost := CostOf(t, notional);
      a.(cash := a.cash + (notional - cost),
         units := 0.0,
         entryPrice := 0.0,
         pending := NoOrder,
         trades := a.trades + [MakeTrade(bar, Sell, a.units, cost)])
    else
      var notional := Stake(t, a.cash);
      if a.pending.EntryOrder? && a.units == 0.0 && EntryAllowed(t, a, notional, bar.open) then
        var cost := CostOf(t, notional);
        var bought := UnitsBought(notional, cost, bar.open);
        a.(cash := a.cash - notional,
           units := bought,
           entryPrice := bar.open,
           pending := NoOrder,
           trades := a.trades + [MakeTrade(bar, Buy, bought, cost)])
      else
        a.(pending := NoOrder)
  }

  /** The rules are evaluated at the close: the exit rule when units are held, and otherwise the entry
      rule unless entries are blocked. */
  function Decide(t: Terms, a: Account, cell: Cell): Result<Account, RuleError> {
    if a.units > 0.0 then
      if cell.exit.Err? then Err(cell.exit.error)
      else if cell.exit.value || RiskExit(t.risk, a.entryPrice, cell.bar.close) then Ok(a.(pending := ExitOrder))
      else Ok(a)
    else if a.blocked || a.stopped then Ok(a)
    else if cell.entry.Err? then Err(cell.entry.error)
    else if cell.entry.value then Ok(a.(pending := EntryOrder))
    else Ok(a)
  }

  /** The equity is marked at the close; a loss limit breached here blocks, reduces or stops. */
  function MarkClose(t: Terms, a: Account, bar: Bar): Account {
    var marked := Worth(a.cash, a.units, bar.close);
    if LossBreached(t.risk, a.dayStart, marked) then
      a.(blocked := true,
         pending := if t.risk.dailyLossAction in {Reduce, Stop} && a.units > 0.0 then ExitOrder else a.pending,
         stopped := a.stopped || t.risk.dailyLossAction.Stop?,
         equity := a.equity + [marked])
    else
      a.(equity := a.equity + [marked])
  }

  /** The account when bar `cell` has opened and the pending order has filled or lapsed. */
  function AtOpen(t: Terms, a: Account, bar: Bar): Account
    requires bar.open > 0.0
  {
    Fill(t, OpenDay(t, a, bar), bar)
  }

  function Step(t: Terms, a: Account, cell: Cell): Result<Account, RuleError>
    requires cell.bar.open > 0.0
  {
    var decided := Decide(t, AtOpen(t, a, cell.bar), cell);
    if decided.Err? then decided else Ok(MarkClose(t, decided.value, cell.bar))
  }

  /** The cells of one symbol, as the data contract has them. */
  ghost predicate ValidCells(cells: seq<Cell>, symbol: string) {
    forall i | 0 <= i < |cells| :: cells[i].bar.Valid() && cells[i].bar.symbol == symbol
  }

  /** The account after the first `n` bars; an exception of a rule ends the run. */
  function After(t: Terms, cells: seq<Cell>, n: nat): Result<Account, RuleError>
    requires n <= |cells|
    requires forall i | 0 <= i < |cells| :: cells[i].bar.open > 0.0
  {
    if n == 0 then Ok(Start(t)) else
    var before := After(t, cells, n - 1);
    if before.Err? then before else Step(t, before.value, cells[n - 1])
  }

  // ----- What every bar keeps

  /** Cash is never negative, and units are held only when the cost leaves some. */
  ghost predicate Solvent(t: Terms, a: Account) {
    && a.cash >= 0.0
    && a.units >= 0.0
    && (a.units > 0.0 ==> t.CostRate() < 1.0)
    && (t.CostRate() < 1.0 && a.units == 0.0 ==> a.cash > 0.0)
  }

  lemma StakeBounds(t: Terms, cash: real)
    requires t.risk.Valid() && cash >= 0.0
    ensures 0.0 <= Stake(t, cash) <= cash
    ensures cash > 0.0 ==> Stake(t, cash) > 0.0
  {
    var size := t.risk.positionSizePct;
    ProductNotNegative(cash, size);
    ProductNotNegative(cash, 100.0 - size);
    assert cash * (100.0 - size) == cash * 100.0 - cash * size;
    if cash > 0.0 {
      ProductPositive(cash, size);
    }
  }

  lemma SellProceeds(t: Terms, units: real, price: real)
    requires units > 0.0 && price > 0.0 && t.CostRate() < 1.0
    ensures Value(units, price) > 0.0
    ensures Value(units, price) - CostOf(t, Value(units, price)) > 0.0
  {
    hide Rate;
    var notional, rate := Value(units, price), t.CostRate();
    ProductPositive(units, price);
    ProductPositive(notional, 1.0 - rate);
    assert CostOf(t, notional) == rate * notional;
    assert notional - rate * notional == notional * (1.0 - rate);
  }

  lemma BuyKeepsSolvent(t: Terms, cash: real, price: real)
    requires t.risk.Valid() && cash >= 0.0 && price > 0.0
    ensures var bought := UnitsBought(Stake(t, cash), CostOf(t, Stake(t, cash)), price);
            && cash - Stake(t, cash) >= 0.0
            && bought >= 0.0
            && (bought > 0.0 ==> t.CostRate() < 1.0)
            && (t.CostRate() < 1.0 && cash > 0.0 ==> bought > 0.0)
  {
    StakeBounds(t, cash);
    if Stake(t, cash) > 0.0 {
      UnitsBoughtSign(t, Stake(t, cash), price);
    } else {
      assert Stake(t, cash) == 0.0;
    }
  }

  lemma FillKeepsSolvent(t: Terms, a: Account, bar: Bar)
    requires t.Valid() && bar.Valid() && Solvent(t, a)
    ensures Solvent(t, Fill(t, a, bar))
  {
    hide UnitsBought, Stake, Value, CostOf, EntryAllowed;
    if a.pending.ExitOrder? && a.units > 0.0 {
      SellProceeds(t, a.units, bar.open);
    } else {
      BuyKeepsSolvent(t, a.cash, bar.open);
    }
  }

  lemma StepKeepsSolvent(t: Terms, a: Account, cell: Cell)
    requires t.Valid() && cell.bar.Valid() && Solvent(t, a)
    ensures Solvent(t, AtOpen(t, a, cell.bar))
    ensures Step(t, a, cell).Ok? ==> Solvent(t, Step(t, a, cell).value)
  {
    FillKeepsSolvent(t, OpenDay(t, a, cell.bar), cell.bar);
  }

  lemma {:induction false} AlwaysSolvent(t: Terms, cells: seq<Cell>, symbol: string, n: nat)
    requires t.Valid() && ValidCells(cells, symbol) && n <= |cells|
    ensures After(t, cells, n).Ok? ==> Solvent(t, After(t, cells, n).value)
  {
    if n > 0 {
      AlwaysSolvent(t, cells, symbol, n - 1);
      if After(t, cells, n - 1).Ok? {
        StepKeepsSolvent(t, After(t, cells, n - 1).value, cells[n - 1]);
      }
    }
  }

  // ----- The run

  datatype Report = Report(equity: seq<real>, trades: seq<Trade>)

  /** What a run returns, as a function of the fold. */
  function Outcome(t: Terms, cells: seq<Cell>): Result<Report, RunError>
    requires forall i | 0 <= i < |cells| :: cells[i].bar.open > 0.0
  {
    if t.initialCash <= 0.0 || t.stress < 0.0 then Err(InvalidRequest) else
    var end := After(t, cells, |cells|);
    if end.Err? then Err(RuleFailed(end.error)) else Ok(Report(end.value.equity, end.value.trades))
  }

  datatype Filled = Filled(cash: real, units: real, trade: Option<Trade>)

  /** The order at the open. The cost model is asked, and never refuses. */
  method FillOrder(t: Terms, bar: Bar, cash: real, units: real, pending: Order, blocked: bool, stopped: bool,
                   ghost a: Account)
    returns (f: Filled)
    requires t.Valid() && bar.Valid() && Solvent(t, a)
    requires cash == a.cash && units == a.units && pending == a.pending && blocked == a.blocked && stopped == a.stopped
    ensures Fill(t, a, bar) == a.(
              cash := f.cash,
              units := f.units,
              entryPrice := if f.trade.None? then a.entryPrice else if f.trade.value.side.Buy? then bar.open else 0.0,
              pending := NoOrder,
              trades := if f.trade.None? then a.trades else a.trades + [f.trade.value])
  {
    hide UnitsBought, Stake, ExposureAllows, Charge, CostOf;
    if pending.ExitOrder? && units > 0.0 {
      var notional := Value(units, bar.open);
      SellProceeds(t, units, bar.open);
      ChargeIsCostOf(t, notional, Sell);
      var cost := Charge(t.costs, notional, Sell, t.stress);
      return Filled(cash + (notional - cost.value), 0.0, Some(MakeTrade(bar, Sell, units, cost.value)));
    } else if pending.EntryOrder? && units == 0.0 {
      var notional := Stake(t, cash);
      if !blocked && !stopped && ExposureAllows(t.risk, notional, Worth(cash, units, bar.open),
          Value(units, bar.open)) {
        StakeBounds(t, cash);
        ChargeIsCostOf(t, notional, Buy);
        var cost := Charge(t.costs, notional, Buy, t.stress);
        var bought := UnitsBought(notional, cost.value, bar.open);
        return Filled(cash - notional, bought, Some(MakeTrade(bar, Buy, bought, cost.value)));
      }
    }
    return Filled(cash, units, None);
  }

  /** The order that the close places; a rule is evaluated only when it is needed. */
  method DecideOrder(t: Terms, cell: Cell, units: real, entryPrice: real, blocked: bool, stopped: bool,
                     ghost a: Account)
    returns (order: Result<Order, RuleError>)
    requires units == a.units && entryPrice == a.entryPrice && blocked == a.blocked && stopped == a.stopped
    requires a.pending.NoOrder?
    ensures Decide(t, a, cell) == if order.Err? then Err(order.error) else Ok(a.(pending := order.value))
  {
    if units > 0.0 {
      if cell.exit.Err? {
        return Err(cell.exit.error);
      }
      if cell.exit.value || RiskExit(t.risk, entryPrice, cell.bar.close) {
        return Ok(ExitOrder);
      }
    } else if !blocked && !stopped {
      if cell.entry.Err? {
        return Err(cell.entry.error);
      }
      if cell.entry.value {
        return Ok(EntryOrder);
      }
    }
    return Ok(NoOrder);
  }

  /** The loop of `_run_single_symbol_strategy`. It asks the cost model at each trade and would pass
      on a refusal; no refusal ever happens. */
  method Run(t: Terms, cells: seq<Cell>, symbol: string) returns (r: Result<Report, RunError>)
    requires t.risk.Valid() && ValidCells(cells, symbol)
    ensures r == Outcome(t, cells)
    ensures r == Err(InvalidRequest) <==> t.initialCash <= 0.0 || t.stress < 0.0
  {
    hide Worth, Value, LossBreached, RiskExit, Fill, Decide, CostOf, UnitsBought, Stake, EntryAllowed, Rate;
    if t.initialCash <= 0.0 || t.stress < 0.0 {
      return Err(InvalidRequest);
    }
    var cash, units, entryPrice := t.initialCash, 0.0, 0.0;
    var equity: seq<real>, trades: seq<Trade> := [], [];
    var pending := NoOrder;
    var currentDay: Option<int> := None;
    var dayStart, blocked, stopped := cash, false, false;
    for index := 0 to |cells|
      invariant After(t, cells, index)
             == Ok(Account(cash, units, entryPrice, pending, currentDay, dayStart, blocked, stopped, trades, equity))
    {
      var bar := cells[index].bar;
      ghost var before := After(t, cells, index).value;
      AlwaysSolvent(t, cells, symbol, index);
      assert After(t, cells, index + 1) == Step(t, before, cells[index]);

      if Some(bar.day) != currentDay {
        currentDay := Some(bar.day);
        dayStart := Worth(cash, units, bar.open);
        blocked := false;
      }
      if LossBreached(t.risk, dayStart, Worth(cash, units, bar.open)) {
        blocked := true;
      }
      ghost var atDayOpen := Account(cash, units, entryPrice, pending, currentDay, dayStart, blocked, stopped, trades,
          equity);
      assert atDayOpen == OpenDay(t, before, bar);

      var fill := FillOrder(t, bar, cash, units, pending, blocked, stopped, atDayOpen);
      cash, units := fill.cash, fill.units;
      if fill.trade.Some? {
        entryPrice := if fill.trade.value.side.Buy? then bar.open else 0.0;
        trades := trades + [fill.trade.value];
      }
      pending := NoOrder;
      ghost var filled := Account(cash, units, entryPrice, pending, currentDay, dayStart, blocked, stopped, trades,
          equity);
      assert filled == Fill(t, atDayOpen, bar);

      var order := DecideOrder(t, cells[index], units, entryPrice, blocked, stopped, filled);
      if order.Err? {
        EarlyError(t, cells, index + 1);
        return Err(RuleFailed(order.error));
      }
      pending := order.value;
      var marked := Worth(cash, units, bar.close);
      if LossBreached(t.risk, dayStart, marked) {
        blocked := true;
        if t.risk.dailyLossAction in {Reduce, Stop} && units > 0.0 {
          pending := ExitOrder;
        }
        if t.risk.dailyLossAction.Stop? {
          stopped := true;
        }
      }
      equity := equity + [marked];
    }
    return Ok(Report(equity, trades));
  }

  /** An exception after some bars is the exception of the run. */
  lemma {:induction false} EarlyError(t: Terms, cells: seq<Cell>, n: nat)
    requires n <= |cells|
    requires forall i | 0 <= i < |cells| :: cells[i].bar.open > 0.0
    requires After(t, cells, n).Err?
    ensures After(t, cells, |cells|) == After(t, cells, n)
    decreases |cells| - n
  {
    if n < |cells| {
      EarlyError(t, cells, n + 1);
    }
  }

  /** After the open, the rest of a bar moves no money: it only places an order, blocks or stops, and
      marks one equity point. */
  lemma StepFrame(t: Terms, a: Account, cell: Cell)
    requires cell.bar.open > 0.0 && Step(t, a, cell).Ok?
    ensures var f, b := AtOpen(t, a, cell.bar), Step(t, a, cell).value;
            && b.cash == f.cash && b.units == f.units && b.entryPrice == f.entryPrice
            && b.trades == f.trades
            && f.equity == a.equity
            && b.equity == a.equity + [Worth(b.cash, b.units, cell.bar.close)]
            && b.day == f.day == Some(cell.bar.day)
            && b.dayStart == f.dayStart
            && (f.blocked ==> b.blocked)
            && (f.stopped ==> b.stopped)
  {
    hide Worth, Value, CostOf, UnitsBought, Stake, EntryAllowed, LossBreached, RiskExit;
  }

  lemma StepHistory(t: Terms, a: Account, cell: Cell)
    requires cell.bar.open > 0.0 && Step(t, a, cell).Ok?
    ensures var b := Step(t, a, cell).value;
            && |b.equity| == |a.equity| + 1
            && a.equity <= b.equity
            && a.trades <= b.trades
            && |b.trades| <= |a.trades| + 1
  {
    hide Worth, Value, CostOf, UnitsBought, Stake, EntryAllowed, LossBreached, RiskExit;
  }

  /** What the account has after `m` bars is a prefix of what it has later: trades are only added, at
      most one a bar, and each bar adds one equity point. */
  lemma {:induction false} History(t: Terms, cells: seq<Cell>, m: nat, n: nat)
    requires m <= n <= |cells|
    requires forall i | 0 <= i < |cells| :: cells[i].bar.open > 0.0
    requires After(t, cells, n).Ok?
    ensures After(t, cells, m).Ok?
    ensures var early, late := After(t, cells, m).value, After(t, cells, n).value;
            && |early.equity| == m
            && |late.equity| == n
            && early.trades <= late.trades
            && |late.trades| - |early.trades| <= n - m
            && early.equity <= late.equity
    decreases n
  {
    hide Step, AtOpen;
    if n > 0 {
      StepHistory(t, After(t, cells, n - 1).value, cells[n - 1]);
      History(t, cells, if m < n then m else n - 1, n - 1);
    }
  }
}
