/** Conservation in a one-symbol run: the equity curve and the realised profits tell the same story. */
module SingleConservation {
  import opened Prelude
  import opened Costs
  import opened Strategy
  import opened Market
  import opened Ledger
  import opened SingleEngine

  /** The cash is what the closed trades made and the open lots took, and the open lots back the units. */
  ghost predicate Balanced(t: Terms, a: Account, symbol: string) {
    var book := Replay(a.trades);
    && a.cash == t.initialCash + Sum(book.pnls) - Paid(book.Lots(symbol))
    && Backs(book.Lots(symbol), a.units, t.CostRate())
  }

  lemma SellKeepsBalanced(t: Terms, a: Account, bar: Bar)
    requires bar.Valid() && a.pending.ExitOrder? && a.units > 0.0
    requires Balanced(t, a, bar.symbol)
    ensures Balanced(t, Fill(t, a, bar), bar.symbol)
  {
    hide Rate, UnitsBought, CostOf, Value, Stake;
    var trade := MakeTrade(bar, Sell, a.units, CostOf(t, Value(a.units, bar.open)));
    ReplaySnoc(a.trades, trade);
    SellCloses(Replay(a.trades), a.units, t.CostRate(), trade);
  }

  lemma BuyKeepsBalanced(t: Terms, a: Account, bar: Bar)
    requires t.Valid() && t.CostRate() <= 1.0 && bar.Valid()
    requires Solvent(t, a) && Balanced(t, a, bar.symbol)
    requires a.pending.EntryOrder? && a.units == 0.0 && EntryAllowed(t, a, Stake(t, a.cash), bar.open)
    ensures Balanced(t, Fill(t, a, bar), bar.symbol)
  {
    hide Rate, UnitsBought, CostOf, Value, Stake, EntryAllowed;
    var notional := Stake(t, a.cash);
    var cost := CostOf(t, notional);
    var trade := MakeTrade(bar, Buy, UnitsBought(notional, cost, bar.open), cost);
    ReplaySnoc(a.trades, trade);
    PaidByBuy(Replay(a.trades).Lots(bar.symbol), trade);
    BuyBacks(t, a, bar);
  }

  lemma FillKeepsBalanced(t: Terms, a: Account, bar: Bar)
    requires t.Valid() && t.CostRate() <= 1.0 && bar.Valid()
    requires Solvent(t, a) && Balanced(t, a, bar.symbol)
    ensures Balanced(t, Fill(t, a, bar), bar.symbol)
  {
    hide Rate, UnitsBought, CostOf, Value, Stake, EntryAllowed, Solvent;
    if a.pending.ExitOrder? && a.units > 0.0 {
      SellKeepsBalanced(t, a, bar);
    } else if a.pending.EntryOrder? && a.units == 0.0 && EntryAllowed(t, a, Stake(t, a.cash), bar.open) {
      BuyKeepsBalanced(t, a, bar);
    }
  }

  /** The lot of a buy is what backs the units bought, and costs its notional. */
  lemma BuyBacks(t: Terms, a: Account, bar: Bar)
    requires t.Valid() && t.CostRate() <= 1.0 && bar.Valid()
    requires Solvent(t, a) && a.units == 0.0
    ensures var notional := Stake(t, a.cash);
            var bought := UnitsBought(notional, CostOf(t, notional), bar.open);
            && Value(bought, bar.open) + CostOf(t, notional) == notional
            && (if t.CostRate() < 1.0 then bought > 0.0 else bought == 0.0)
  {
    hide Rate;
    StakeBounds(t, a.cash);
    var notional := Stake(t, a.cash);
    if notional > 0.0 {
      UnitsBoughtSign(t, notional, bar.open);
    } else {
      assert CostOf(t, 0.0) == 0.0;
    }
  }

  lemma StepKeepsBalanced(t: Terms, a: Account, cell: Cell)
    requires t.Valid() && t.CostRate() <= 1.0 && cell.bar.Valid()
    requires Solvent(t, a) && Balanced(t, a, cell.bar.symbol)
    ensures Step(t, a, cell).Ok? ==> Balanced(t, Step(t, a, cell).value, cell.bar.symbol)
  {
    hide Step, Fill, Rate;
    FillKeepsBalanced(t, OpenDay(t, a, cell.bar), cell.bar);
    if Step(t, a, cell).Ok? {
      StepFrame(t, a, cell);
    }
  }

  lemma {:induction false} AlwaysBalanced(t: Terms, cells: seq<Cell>, symbol: string, n: nat)
    requires t.Valid() && t.CostRate() <= 1.0 && ValidCells(cells, symbol) && n <= |cells|
    ensures After(t, cells, n).Ok? ==> Balanced(t, After(t, cells, n).value, symbol)
  {
    hide Step, Balanced, Rate;
    if n == 0 {
      StartsBalanced(t, symbol);
    } else {
      AlwaysBalanced(t, cells, symbol, n - 1);
      AlwaysSolvent(t, cells, symbol, n - 1);
      if After(t, cells, n - 1).Ok? {
        StepKeepsBalanced(t, After(t, cells, n - 1).value, cells[n - 1]);
      }
    }
  }

  lemma StartsBalanced(t: Terms, symbol: string)
    ensures Balanced(t, Start(t), symbol)
  {
  }

  /** The accounting identity after some bars: the last equity point is the initial cash, plus the
      profits of the trades closed so far, plus what the open lots are worth over their price. */
  ghost predicate Conserved(t: Terms, a: Account, symbol: string, close: real) {
    var book := Replay(a.trades);
    a.equity != [] && a.equity[|a.equity| - 1] == t.initialCash + Sum(book.pnls) + OpenValue(book.Lots(symbol), close)
  }

  /** Whatever the rules and prices, the identity holds after every bar when the cost takes no more
      than the notional of a trade. */
  lemma RunConserves(t: Terms, cells: seq<Cell>, symbol: string, n: nat)
    requires t.Valid() && t.CostRate() <= 1.0 && ValidCells(cells, symbol) && 0 < n <= |cells|
    requires After(t, cells, n).Ok?
    ensures Conserved(t, After(t, cells, n).value, symbol, cells[n - 1].bar.close)
  {
    hide Rate, Step;
    AlwaysBalanced(t, cells, symbol, n);
    var a := After(t, cells, n).value;
    var close := cells[n - 1].bar.close;
    BackedValue(Replay(a.trades).Lots(symbol), a.units, t.CostRate(), close);
    StepFrame(t, After(t, cells, n - 1).value, cells[n - 1]);
  }

  // ----- The bound on the cost is exact

  /** Two bars at one price, the first of which asks for an entry. */
  function EntryCells(): seq<Cell> {
    var bar := Bar(0, 0, 0, "A", 1.0, 1.0, 1.0, 1.0, 0.0);
    [Cell(bar, Ok(true), Ok(false)), Cell(bar.(time := 1, stamp := 1), Ok(true), Ok(false))]
  }

  function EntryRisk(): Risk {
    Risk(0.0, 0.0, 100.0, None, NoAction, None, None)
  }

  /** With these costs, no run of any strategy breaks the identity. */
  ghost predicate ConservesAll(costs: Option<CostModel>, stress: real) {
    forall t: Terms, cells: seq<Cell>, symbol: string, n: nat ::
      t.Valid() && t.costs == costs && t.stress == stress && ValidCells(cells, symbol)
      && 0 < n <= |cells| && After(t, cells, n).Ok?
      ==> Conserved(t, After(t, cells, n).value, symbol, cells[n - 1].bar.close)
  }

  /** The first bar of `EntryCells` places the entry order. */
  lemma EntryPlaced(t: Terms)
    requires t.risk == EntryRisk()
    ensures After(t, EntryCells(), 1)
         == Ok(Account(t.initialCash, 0.0, 0.0, EntryOrder, Some(0), t.initialCash, false, false, [], [t.initialCash]))
  {
    hide Rate, CostOf, UnitsBought, Stake;
    assert After(t, EntryCells(), 0) == Ok(Start(t));
    assert After(t, EntryCells(), 1) == Step(t, Start(t), EntryCells()[0]);
    assert Worth(t.initialCash, 0.0, 1.0) == t.initialCash;
    assert [] + [t.initialCash] == [t.initialCash];
  }

  /** The second bar fills it with the whole cash. */
  lemma EntryFilled(t: Terms, a: Account)
    requires t.risk == EntryRisk() && a.pending.EntryOrder? && a.units == 0.0 && !a.blocked && !a.stopped
    requires a.day == Some(0)
    ensures var bar := EntryCells()[1].bar;
            var bought := UnitsBought(a.cash, CostOf(t, a.cash), 1.0);
            var f := AtOpen(t, a, bar);
            && f.trades == a.trades + [MakeTrade(bar, Buy, bought, CostOf(t, a.cash))]
            && f.cash == 0.0
            && f.units == bought
  {
    hide Rate, CostOf, UnitsBought;
    assert Stake(t, a.cash) == a.cash;
  }

  /** When the cost takes more than the notional, the buy of `EntryCells` breaks the identity: the cash
      loses the notional, and the trade reports the larger cost. */
  lemma ExcessiveCostBreaks(costs: Option<CostModel>, stress: real)
    requires Rate(costs, stress) > 1.0 && stress >= 0.0
    ensures var t := Terms(EntryRisk(), costs, stress, 100.0);
            && t.Valid()
            && ValidCells(EntryCells(), "A")
            && After(t, EntryCells(), 2).Ok?
            && !Conserved(t, After(t, EntryCells(), 2).value, "A", 1.0)
  {
    hide Rate, Step, AtOpen;
    var t := Terms(EntryRisk(), costs, stress, 100.0);
    var cells := EntryCells();
    EntryPlaced(t);
    var one := After(t, cells, 1).value;
    EntryFilled(t, one);
    UnitsBoughtSign(t, 100.0, 1.0);
    assert UnitsBought(100.0, CostOf(t, 100.0), 1.0) == 0.0;
    assert After(t, cells, 2) == Step(t, one, cells[1]);
    EntryStepOk(t, one);
    StepFrame(t, one, cells[1]);
    var trade := MakeTrade(cells[1].bar, Buy, 0.0, CostOf(t, 100.0));
    assert After(t, cells, 2).value.trades == [] + [trade];
    ReplaySnoc([], trade);
    PaidByBuy([], trade);
    WorthlessLots([trade], 1.0);
    assert CostOf(t, 100.0) > 100.0;
  }

  lemma EntryStepOk(t: Terms, a: Account)
    ensures Step(t, a, EntryCells()[1]).Ok?
  {
    hide Rate, AtOpen;
  }

  /** Costs keep the identity in every run of every strategy exactly when they take at most the whole
      notional of a trade. */
  lemma ConservationIff(costs: Option<CostModel>, stress: real)
    requires stress >= 0.0
    ensures ConservesAll(costs, stress) <==> Rate(costs, stress) <= 1.0
  {
    hide Rate, Conserved;
    if Rate(costs, stress) <= 1.0 {
      forall t: Terms, cells: seq<Cell>, symbol: string, n: nat |
        t.Valid() && t.costs == costs && t.stress == stress && ValidCells(cells, symbol)
        && 0 < n <= |cells| && After(t, cells, n).Ok?
        ensures Conserved(t, After(t, cells, n).value, symbol, cells[n - 1].bar.close)
      {
        RunConserves(t, cells, symbol, n);
      }
    } else {
      ExcessiveCostBreaks(costs, stress);
    }
  }
}
