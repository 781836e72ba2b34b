/** Solvency, the stop flag and the daily loss block of a one-symbol run. */
module SingleLimits {
  import opened Prelude
  import opened Costs
  import opened Strategy
  import opened Market
  import opened SingleEngine
  import SC = SingleConservation

  // ----- Solvency

  lemma WorthPositive(cash: real, units: real, price: real)
    requires cash >= 0.0 && units >= 0.0 && price > 0.0 && (cash > 0.0 || units > 0.0)
    ensures Worth(cash, units, price) > 0.0
  {
    assert units > 0.0 ==> units * price > 0.0;
  }

  /** Cash is never negative; and while the cost leaves something of a notional, no equity point is
      zero or below, so that the metrics accept the curve. */
  lemma {:induction false} RunSolvent(t: Terms, cells: seq<Cell>, symbol: string, n: nat)
    requires t.Valid() && ValidCells(cells, symbol) && n <= |cells|
    requires After(t, cells, n).Ok?
    ensures var a := After(t, cells, n).value;
            && a.cash >= 0.0
            && a.units >= 0.0
            && (t.CostRate() < 1.0 ==> forall k | 0 <= k < |a.equity| :: a.equity[k] > 0.0)
  {
    hide Step, AtOpen, Rate, Worth;
    AlwaysSolvent(t, cells, symbol, n);
    if n > 0 {
      RunSolvent(t, cells, symbol, n - 1);
      StepFrame(t, After(t, cells, n - 1).value, cells[n - 1]);
      var a := After(t, cells, n).value;
      if t.CostRate() < 1.0 {
        WorthPositive(a.cash, a.units, cells[n - 1].bar.close);
      }
    }
  }

  /** With these costs, every run has a positive equity curve. */
  ghost predicate PositiveAll(costs: Option<CostModel>, stress: real) {
    forall t: Terms, cells: seq<Cell>, symbol: string, n: nat ::
      t.Valid() && t.costs == costs && t.stress == stress && ValidCells(cells, symbol)
      && n <= |cells| && After(t, cells, n).Ok?
      ==> forall k | 0 <= k < |After(t, cells, n).value.equity| :: After(t, cells, n).value.equity[k] > 0.0
  }

  /** A cost that takes the whole notional leaves nothing of a full stake. */
  lemma WholeCostRuins(costs: Option<CostModel>, stress: real)
    requires Rate(costs, stress) >= 1.0 && stress >= 0.0
    ensures var t := Terms(SC.EntryRisk(), costs, stress, 100.0);
            && t.Valid() && ValidCells(SC.EntryCells(), "A")
            && After(t, SC.EntryCells(), 2).Ok?
            && After(t, SC.EntryCells(), 2).value.equity == [100.0, 0.0]
  {
    hide Rate, Step, AtOpen;
    var t := Terms(SC.EntryRisk(), costs, stress, 100.0);
    SC.EntryPlaced(t);
    var one := After(t, SC.EntryCells(), 1).value;
    SC.EntryFilled(t, one);
    UnitsBoughtSign(t, 100.0, 1.0);
    SC.EntryStepOk(t, one);
    assert After(t, SC.EntryCells(), 2) == Step(t, one, SC.EntryCells()[1]);
    StepFrame(t, one, SC.EntryCells()[1]);
  }

  /** Every run of every strategy keeps a positive curve exactly when a cost leaves something of the notional. */
  lemma SolvencyIff(costs: Option<CostModel>, stress: real)
    requires stress >= 0.0
    ensures PositiveAll(costs, stress) <==> Rate(costs, stress) < 1.0
  {
    hide Rate;
    if Rate(costs, stress) < 1.0 {
      forall t: Terms, cells: seq<Cell>, symbol: string, n: nat |
        t.Valid() && t.costs == costs && t.stress == stress && ValidCells(cells, symbol)
        && n <= |cells| && After(t, cells, n).Ok?
        ensures forall k | 0 <= k < |After(t, cells, n).value.equity| :: After(t, cells, n).value.equity[k] > 0.0
      {
        RunSolvent(t, cells, symbol, n);
      }
    } else {
      WholeCostRuins(costs, stress);
      var t := Terms(SC.EntryRisk(), costs, stress, 100.0);
      assert After(t, SC.EntryCells(), 2).value.equity[1] == 0.0;
    }
  }

  // ----- The stop flag

  /** A stopped account that still holds units has its exit ordered. */
  ghost predicate ExitArmed(a: Account) {
    a.stopped && a.units > 0.0 ==> a.pending == ExitOrder
  }

  /** A bar of a stopped account sells what is held and buys nothing. */
  lemma StoppedStep(t: Terms, a: Account, cell: Cell)
    requires cell.bar.Valid() && a.units >= 0.0 && ExitArmed(a)
    requires Step(t, a, cell).Ok?
    ensures var b := Step(t, a, cell).value;
            && ExitArmed(b)
            && (a.stopped ==>
                  && b.stopped
                  && b.units == 0.0
                  && b.trades == a.trades + ClosingSale(t, a, cell.bar)
                  && (a.units == 0.0 ==> b.cash == a.cash))
  {
    hide Rate, CostOf, UnitsBought, Stake, Value, Worth, LossBreached, RiskExit, ExposureAllows;
  }

  /** The sale of everything held, if anything is. */
  function ClosingSale(t: Terms, a: Account, bar: Bar): seq<Trade> {
    if a.units > 0.0 then [MakeTrade(bar, Sell, a.units, CostOf(t, Value(a.units, bar.open)))] else []
  }

  lemma {:induction false} AlwaysArmed(t: Terms, cells: seq<Cell>, symbol: string, n: nat)
    requires t.Valid() && ValidCells(cells, symbol) && n <= |cells| && After(t, cells, n).Ok?
    ensures ExitArmed(After(t, cells, n).value)
  {
    hide Step, Rate;
    if n > 0 {
      AlwaysArmed(t, cells, symbol, n - 1);
      AlwaysSolvent(t, cells, symbol, n - 1);
      StoppedStep(t, After(t, cells, n - 1).value, cells[n - 1]);
    }
  }

  /** Once stopped, a run stays stopped: no buy ever fills, what is held is sold at the very next open,
      and from that bar on the equity is the cash and never changes. */
  lemma {:induction false} StopIsFinal(t: Terms, cells: seq<Cell>, symbol: string, n: nat, m: nat)
    requires t.Valid() && ValidCells(cells, symbol) && n < m <= |cells|
    requires After(t, cells, m).Ok?
    requires After(t, cells, n).Ok? && After(t, cells, n).value.stopped
    ensures var a, b := After(t, cells, n).value, After(t, cells, m).value;
            && b.stopped
            && b.units == 0.0
            && b.trades == a.trades + ClosingSale(t, a, cells[n].bar)
            && |a.equity| == n && |b.equity| == m
            && (forall k | n <= k < m :: b.equity[k] == b.cash)
            && (a.units == 0.0 ==> b.cash == a.cash)
    decreases m
  {
    hide Step, AtOpen, Rate, CostOf, Value;
    History(t, cells, m - 1, m);
    History(t, cells, n, m);
    var before := After(t, cells, m - 1).value;
    AlwaysArmed(t, cells, symbol, m - 1);
    AlwaysSolvent(t, cells, symbol, m - 1);
    if n < m - 1 {
      StopIsFinal(t, cells, symbol, n, m - 1);
    }
    StoppedStep(t, before, cells[m - 1]);
    StepFrame(t, before, cells[m - 1]);
    FlatWorth(After(t, cells, m).value.cash, cells[m - 1].bar.close);
  }

  lemma FlatWorth(cash: real, price: real)
    ensures Worth(cash, 0.0, price) == cash
  {
  }

  // ----- The daily loss block

  /** The account at the open of bar `j`, before the pending order. */
  function DayOpen(t: Terms, cells: seq<Cell>, j: nat): Account
    requires j < |cells|
    requires forall i | 0 <= i < |cells| :: cells[i].bar.open > 0.0
    requires After(t, cells, j).Ok?
  {
    OpenDay(t, After(t, cells, j).value, cells[j].bar)
  }

  predicate SameDay(cells: seq<Cell>, j: nat, n: nat)
    requires j < n <= |cells|
  {
    forall k | j <= k < n :: cells[k].bar.day == cells[j].bar.day
  }

  /** The first bar of the day of bar `n`. */
  function FirstOfDay(cells: seq<Cell>, n: nat): (j: nat)
    requires n < |cells|
    ensures j <= n && SameDay(cells, j, n + 1) && (j > 0 ==> cells[j - 1].bar.day != cells[j].bar.day)
  {
    if n > 0 && cells[n - 1].bar.day == cells[n].bar.day then FirstOfDay(cells, n - 1) else n
  }

  /** What the account is worth at the open of bar `j`, before the pending order. */
  function OpenWorth(t: Terms, cells: seq<Cell>, j: nat): real
    requires j < |cells|
    requires forall i | 0 <= i < |cells| :: cells[i].bar.open > 0.0
    requires After(t, cells, j).Ok?
  {
    var a := After(t, cells, j).value;
    Worth(a.cash, a.units, cells[j].bar.open)
  }

  /** What it is worth at the close. */
  function CloseWorth(t: Terms, cells: seq<Cell>, j: nat): real
    requires j < |cells|
    requires forall i | 0 <= i < |cells| :: cells[i].bar.open > 0.0
    requires After(t, cells, j + 1).Ok?
  {
    var a := After(t, cells, j + 1).value;
    Worth(a.cash, a.units, cells[j].bar.close)
  }

  /** The loss of a day is measured from the open of its first bar. */
  lemma {:induction false} DayStartsAtOpen(t: Terms, cells: seq<Cell>, n: nat)
    requires n < |cells|
    requires forall i | 0 <= i < |cells| :: cells[i].bar.open > 0.0
    requires After(t, cells, n).Ok?
    ensures After(t, cells, FirstOfDay(cells, n)).Ok?
    ensures DayOpen(t, cells, n).dayStart == OpenWorth(t, cells, FirstOfDay(cells, n))
    ensures After(t, cells, n + 1).Ok? ==>
              After(t, cells, n + 1).value.dayStart == OpenWorth(t, cells, FirstOfDay(cells, n))
    ensures n > 0 ==> After(t, cells, n).value.day == Some(cells[n - 1].bar.day)
  {
    hide Step, Rate, Worth, LossBreached;
    if n == 0 {
      assert After(t, cells, 0) == Ok(Start(t));
    } else {
      History(t, cells, n - 1, n);
      DayStartsAtOpen(t, cells, n - 1);
      StepFrame(t, After(t, cells, n - 1).value, cells[n - 1]);
    }
    if After(t, cells, n + 1).Ok? {
      StepFrame(t, After(t, cells, n).value, cells[n]);
      OpenKeepsStart(t, After(t, cells, n).value, cells[n].bar);
    }
  }

  lemma OpenKeepsStart(t: Terms, a: Account, bar: Bar)
    requires bar.open > 0.0
    ensures AtOpen(t, a, bar).dayStart == OpenDay(t, a, bar).dayStart
  {
    hide Rate, CostOf, UnitsBought, Stake, Value, Worth, LossBreached, ExposureAllows;
  }

  /** The loss limit in plain words: it is reached when the worth has fallen by the limit's share of what the
      day started with, up to the tolerance. */
  lemma LossBreachedIff(risk: Risk, dayStart: real, current: real)
    requires dayStart > 0.0
    ensures LossBreached(risk, dayStart, current) <==>
              && risk.dailyLossLimitPct.Some? && !risk.dailyLossAction.NoAction?
              && current <= dayStart - dayStart * (risk.dailyLossLimitPct.value - TOLERANCE) / 100.0
  {
    if risk.dailyLossLimitPct.Some? {
      var lost, limit := dayStart - current, risk.dailyLossLimitPct.value - TOLERANCE;
      assert lost / dayStart * dayStart == lost;
      if lost / dayStart * 100.0 >= limit {
        ProductNotNegative(lost / dayStart * 100.0 - limit, dayStart);
      } else {
        ProductPositive(limit - lost / dayStart * 100.0, dayStart);
      }
    }
  }

  /** The loss limit is reached at the open of bar `j`, against the first open of the day. */
  predicate BreachAtOpen(t: Terms, cells: seq<Cell>, j: nat)
    requires j < |cells|
    requires forall i | 0 <= i < |cells| :: cells[i].bar.open > 0.0
    requires After(t, cells, j).Ok? && After(t, cells, FirstOfDay(cells, j)).Ok?
  {
    LossBreached(t.risk, OpenWorth(t, cells, FirstOfDay(cells, j)), OpenWorth(t, cells, j))
  }

  /** It is reached at the close. */
  predicate BreachAtClose(t: Terms, cells: seq<Cell>, j: nat)
    requires j < |cells|
    requires forall i | 0 <= i < |cells| :: cells[i].bar.open > 0.0
    requires After(t, cells, j + 1).Ok? && After(t, cells, FirstOfDay(cells, j)).Ok?
  {
    LossBreached(t.risk, OpenWorth(t, cells, FirstOfDay(cells, j)), CloseWorth(t, cells, j))
  }

  /** The loss limit is reached at the open or at the close of bar `j`. */
  predicate BreachAt(t: Terms, cells: seq<Cell>, j: nat)
    requires j < |cells|
    requires forall i | 0 <= i < |cells| :: cells[i].bar.open > 0.0
    requires After(t, cells, j).Ok? && After(t, cells, j + 1).Ok? && After(t, cells, FirstOfDay(cells, j)).Ok?
  {
    BreachAtOpen(t, cells, j) || BreachAtClose(t, cells, j)
  }

  lemma BlockedStep(t: Terms, a: Account, cell: Cell)
    requires cell.bar.open > 0.0 && Step(t, a, cell).Ok?
    ensures var o, b := OpenDay(t, a, cell.bar), Step(t, a, cell).value;
            var closing := LossBreached(t.risk, o.dayStart, Worth(b.cash, b.units, cell.bar.close));
            && (o.blocked <==> (a.blocked && a.day == Some(cell.bar.day))
                               || LossBreached(t.risk, o.dayStart, Worth(a.cash, a.units, cell.bar.open)))
            && (b.blocked <==> o.blocked || closing)
            && (b.stopped <==> a.stopped || (closing && t.risk.dailyLossAction.Stop?))
  {
    hide Rate, CostOf, UnitsBought, Stake, Value, Worth, LossBreached, RiskExit, ExposureAllows;
  }

  lemma AllOk(t: Terms, cells: seq<Cell>, n: nat)
    requires n <= |cells|
    requires forall i | 0 <= i < |cells| :: cells[i].bar.open > 0.0
    requires After(t, cells, n).Ok?
    ensures forall j | 0 <= j <= n :: After(t, cells, j).Ok?
  {
    forall j | 0 <= j <= n
      ensures After(t, cells, j).Ok?
    {
      History(t, cells, j, n);
    }
  }

  /** Entries are blocked after a bar exactly when the loss limit was reached at some earlier bar of
      the same day, or at this one; each loss counts from the first open of its day. */
  lemma {:induction false} BlockedMeansBreached(t: Terms, cells: seq<Cell>, n: nat)
    requires 0 < n <= |cells|
    requires forall i | 0 <= i < |cells| :: cells[i].bar.open > 0.0
    requires After(t, cells, n).Ok?
    ensures forall j | 0 <= j <= n :: After(t, cells, j).Ok?
    ensures After(t, cells, n).value.day == Some(cells[n - 1].bar.day)
    ensures After(t, cells, n).value.blocked <==> exists j | 0 <= j < n :: SameDay(cells, j, n) && BreachAt(t, cells, j)
  {
    hide Step, Rate, Worth, LossBreached, OpenDay, FirstOfDay;
    AllOk(t, cells, n);
    DayStartsAtOpen(t, cells, n - 1);
    BlockedStep(t, After(t, cells, n - 1).value, cells[n - 1]);
    StepFrame(t, After(t, cells, n - 1).value, cells[n - 1]);
    if n > 1 {
      BlockedMeansBreached(t, cells, n - 1);
      hide BreachAt;
      if cells[n - 2].bar.day == cells[n - 1].bar.day {
        assert forall j | 0 <= j < n - 1 :: SameDay(cells, j, n) <==> SameDay(cells, j, n - 1);
      } else {
        assert forall j | 0 <= j < n - 1 :: !SameDay(cells, j, n);
      }
    }
    assert SameDay(cells, n - 1, n);
  }

  /** A run is stopped exactly when the action is to stop and the loss limit was reached at some close; a
      loss at an open does not stop it. */
  lemma {:induction false} StoppedIff(t: Terms, cells: seq<Cell>, n: nat)
    requires n <= |cells|
    requires forall i | 0 <= i < |cells| :: cells[i].bar.open > 0.0
    requires After(t, cells, n).Ok?
    ensures forall j | 0 <= j <= n :: After(t, cells, j).Ok?
    ensures After(t, cells, n).value.stopped
            <==> t.risk.dailyLossAction.Stop? && exists j | 0 <= j < n :: BreachAtClose(t, cells, j)
  {
    hide Step, Rate, Worth, LossBreached, OpenDay, FirstOfDay;
    AllOk(t, cells, n);
    if n > 0 {
      StoppedIff(t, cells, n - 1);
      DayStartsAtOpen(t, cells, n - 1);
      BlockedStep(t, After(t, cells, n - 1).value, cells[n - 1]);
      hide CloseWorth, OpenWorth;
      assert After(t, cells, n).value.stopped
             <==> || After(t, cells, n - 1).value.stopped
                   || (BreachAtClose(t, cells, n - 1) && t.risk.dailyLossAction.Stop?);
    } else {
      assert After(t, cells, 0) == Ok(Start(t));
    }
  }

  /** A blocked open fills no buy, whatever order is pending. */
  lemma BlockedOpenFillsNoBuy(t: Terms, a: Account, bar: Bar)
    requires bar.Valid() && OpenDay(t, a, bar).blocked
    ensures var f := AtOpen(t, a, bar);
            && a.trades <= f.trades
            && forall k | |a.trades| <= k < |f.trades| :: f.trades[k].side == Sell
  {
    hide Rate, CostOf, UnitsBought, Stake, Value, Worth, LossBreached;
  }

  /** From the first bar of a day whose open finds entries blocked, no buy fills for the rest of the
      day, entries already pending included. With `BlockedMeansBreached` this is: no buy fills at or
      after the first breach of a day. */
  lemma {:induction false} BlockLastsTheDay(t: Terms, cells: seq<Cell>, symbol: string, k: nat, m: nat)
    requires t.Valid() && ValidCells(cells, symbol) && k < m <= |cells|
    requires After(t, cells, m).Ok? && SameDay(cells, k, m)
    requires After(t, cells, k).Ok? && DayOpen(t, cells, k).blocked
    ensures var a, b := After(t, cells, k).value, After(t, cells, m).value;
            && b.blocked
            && a.trades <= b.trades
            && forall i | |a.trades| <= i < |b.trades| :: b.trades[i].side == Sell
    decreases m
  {
    hide Step, Fill, Rate;
    History(t, cells, m - 1, m);
    History(t, cells, k, m);
    var before := After(t, cells, m - 1).value;
    if k < m - 1 {
      BlockLastsTheDay(t, cells, symbol, k, m - 1);
      BlockedMeansBreached(t, cells, m - 1);
      assert cells[m - 2].bar.day == cells[m - 1].bar.day;
    }
    BlockedOpenFillsNoBuy(t, before, cells[m - 1].bar);
    StepFrame(t, before, cells[m - 1]);
    BlockedByOpen(t, before, cells[m - 1]);
  }

  lemma BlockedByOpen(t: Terms, a: Account, cell: Cell)
    requires cell.bar.Valid() && OpenDay(t, a, cell.bar).blocked && Step(t, a, cell).Ok?
    ensures Step(t, a, cell).value.blocked
  {
    hide Rate, CostOf, UnitsBought, Stake, Value, Worth, LossBreached, RiskExit, ExposureAllows;
  }
}
