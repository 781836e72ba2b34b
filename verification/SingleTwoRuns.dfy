/** Properties of two one-symbol runs: no look-ahead, and what a higher cost stress does. */
module SingleTwoRuns {
  import opened Prelude
  import opened Costs
  import opened Market
  import opened SingleEngine
  import SingleLimits

  // ----- No look-ahead

  /** The cells agree before bar `i`, and at bar `i` on all that is known at its open. */
  ghost predicate SameUntilOpen(a: seq<Cell>, b: seq<Cell>, i: nat) {
    && i < |a| && i < |b|
    && a[..i] == b[..i]
    && a[i].bar.stamp == b[i].bar.stamp && a[i].bar.day == b[i].bar.day
    && a[i].bar.symbol == b[i].bar.symbol && a[i].bar.open == b[i].bar.open
  }

  lemma {:induction false} SamePast(t: Terms, a: seq<Cell>, b: seq<Cell>, i: nat)
    requires i <= |a| && i <= |b| && a[..i] == b[..i]
    requires forall k | 0 <= k < |a| :: a[k].bar.open > 0.0
    requires forall k | 0 <= k < |b| :: b[k].bar.open > 0.0
    ensures After(t, a, i) == After(t, b, i)
  {
    hide Step;
    if i > 0 {
      assert a[..i - 1] == a[..i][..i - 1] == b[..i - 1];
      assert a[i - 1] == a[..i][i - 1] == b[i - 1];
      SamePast(t, a, b, i - 1);
    }
  }

  /** The open of a bar reads only its stamp, day, symbol and open price. */
  lemma SameOpen(t: Terms, account: Account, a: Bar, b: Bar)
    requires a.open > 0.0
    requires a.stamp == b.stamp && a.day == b.day && a.symbol == b.symbol && a.open == b.open
    ensures AtOpen(t, account, a) == AtOpen(t, account, b)
  {
    hide Rate, CostOf, UnitsBought, Stake, Value, Worth, LossBreached, ExposureAllows;
  }

  /** Two runs whose data differ only from bar `i`'s high, low, close and volume on report the same
      trades up to and including bar `i`'s open, and the same equity before bar `i`. */
  lemma NoLookAhead(t: Terms, a: seq<Cell>, b: seq<Cell>, symbol: string, i: nat)
    requires ValidCells(a, symbol) && ValidCells(b, symbol) && SameUntilOpen(a, b, i)
    requires Outcome(t, a).Ok? && Outcome(t, b).Ok?
    ensures After(t, a, i + 1).Ok? && After(t, b, i + 1).Ok?
    ensures var filled := After(t, a, i + 1).value.trades;
            && filled == After(t, b, i + 1).value.trades
            && filled <= Outcome(t, a).value.trades
            && filled <= Outcome(t, b).value.trades
            && |Outcome(t, a).value.equity| == |a| && |Outcome(t, b).value.equity| == |b|
            && Outcome(t, a).value.equity[..i] == Outcome(t, b).value.equity[..i]
  {
    hide Step, AtOpen;
    History(t, a, i, |a|);
    History(t, b, i, |b|);
    History(t, a, i + 1, |a|);
    History(t, b, i + 1, |b|);
    SamePast(t, a, b, i);
    var account := After(t, a, i).value;
    SameOpen(t, account, a[i].bar, b[i].bar);
    StepFrame(t, account, a[i]);
    StepFrame(t, account, b[i]);
    assert Outcome(t, a).value.equity[..i] == account.equity;
    assert Outcome(t, b).value.equity[..i] == account.equity;
  }

  /** A trade fills at the open of its bar: every trade added after bar `m` carries the stamp, symbol
      and open price of one of the later bars. */
  lemma {:induction false} TradesFillAtOpens(t: Terms, cells: seq<Cell>, symbol: string, m: nat, n: nat)
    requires ValidCells(cells, symbol) && m <= n <= |cells| && After(t, cells, n).Ok?
    ensures After(t, cells, m).Ok? && After(t, cells, m).value.trades <= After(t, cells, n).value.trades
    ensures forall k | |After(t, cells, m).value.trades| <= k < |After(t, cells, n).value.trades| ::
              var trade := After(t, cells, n).value.trades[k];
              exists j | m <= j < n :: trade.stamp == cells[j].bar.stamp && trade.price == cells[j].bar.open
                  && trade.symbol == symbol
    decreases n
  {
    hide Step, AtOpen;
    History(t, cells, m, n);
    if m < n {
      TradesFillAtOpens(t, cells, symbol, m, n - 1);
      var before := After(t, cells, n - 1).value;
      StepFrame(t, before, cells[n - 1]);
      OpenTrade(t, before, cells[n - 1].bar);
    }
  }

  lemma OpenTrade(t: Terms, a: Account, bar: Bar)
    requires bar.Valid()
    ensures var f := AtOpen(t, a, bar);
            || f.trades == a.trades
            || (exists trade ::
                  && f.trades == a.trades + [trade]
                  && trade.stamp == bar.stamp && trade.price == bar.open && trade.symbol == bar.symbol)
  {
    hide Rate, CostOf, UnitsBought, Stake, Value, Worth, LossBreached, ExposureAllows;
  }

  // ----- Cost stress

  /** Two settings that differ in their costs only, the second dearer, in which the daily loss limit
      is off and a full position fits the exposure limit. */
  ghost predicate Dearer(base: Terms, dear: Terms) {
    && base.Valid() && dear.Valid()
    && base.risk == dear.risk && base.initialCash == dear.initialCash
    && base.CostRate() <= dear.CostRate() < 1.0
    && (base.risk.dailyLossLimitPct.None? || base.risk.dailyLossAction.NoAction?)
    && (base.risk.maxTotalExposurePct.None? || base.risk.positionSizePct <= base.risk.maxTotalExposurePct.value)
  }

  ghost predicate SameTrade(x: Trade, y: Trade) {
    x.stamp == y.stamp && x.side == y.side && x.price == y.price && x.symbol == y.symbol
  }

  /** The dearer account makes the same trades at the same times, and is never richer. */
  ghost predicate Shadows(a: Account, b: Account) {
    && 0.0 <= b.cash <= a.cash
    && 0.0 <= b.units <= a.units
    && (a.units > 0.0 ==> b.units > 0.0)
    && a.entryPrice == b.entryPrice && a.pending == b.pending
    && !a.blocked && !b.blocked && !a.stopped && !b.stopped
    && |a.trades| == |b.trades| && (forall k | 0 <= k < |a.trades| :: SameTrade(a.trades[k], b.trades[k]))
    && |a.equity| == |b.equity| && (forall k | 0 <= k < |a.equity| :: b.equity[k] <= a.equity[k])
  }

  lemma DearerSale(base: Terms, dear: Terms, a: real, b: real, price: real)
    requires 0.0 < b <= a && price > 0.0
    requires base.CostRate() <= dear.CostRate() < 1.0
    ensures 0.0 <= Value(b, price) - CostOf(dear, Value(b, price)) <= Value(a, price) - CostOf(base, Value(a, price))
  {
    hide Rate;
    var r, s := base.CostRate(), dear.CostRate();
    var x, y := Value(a, price), Value(b, price);
    assert 0.0 < y <= x by {
      assert (a - b) * price >= 0.0;
      assert b * price > 0.0;
    }
    assert y - CostOf(dear, y) == y * (1.0 - s);
    assert x - CostOf(base, x) == x * (1.0 - r);
    assert y * (1.0 - s) >= 0.0;
    assert x * (1.0 - r) - y * (1.0 - s) == (x - y) * (1.0 - r) + y * (s - r);
    assert (x - y) * (1.0 - r) >= 0.0 && y * (s - r) >= 0.0;
  }

  lemma DearerStake(base: Terms, dear: Terms, a: real, b: real)
    requires base.risk.Valid() && dear.risk == base.risk && 0.0 < b <= a
    ensures 0.0 <= b - Stake(dear, b) <= a - Stake(base, a)
    ensures 0.0 < Stake(dear, b) <= Stake(base, a)
  {
    var size := base.risk.positionSizePct;
    StakeBounds(dear, b);
    assert (a - b) * size >= 0.0;
    assert (a - b) * (100.0 - size) >= 0.0;
  }

  lemma DearerUnits(base: Terms, dear: Terms, x: real, y: real, price: real)
    requires 0.0 < y <= x && price > 0.0
    requires base.CostRate() <= dear.CostRate() < 1.0
    ensures 0.0 < UnitsBought(y, CostOf(dear, y), price) <= UnitsBought(x, CostOf(base, x), price)
  {
    hide Rate;
    var r, s := base.CostRate(), dear.CostRate();
    var p, q := x - CostOf(base, x), y - CostOf(dear, y);
    assert p - q == (x - y) * (1.0 - r) + y * (s - r);
    ProductNotNegative(x - y, 1.0 - r);
    ProductNotNegative(y, s - r);
    assert q == y * (1.0 - s) > 0.0;
    QuotientMonotone(q, p, price);
  }

  lemma QuotientMonotone(q: real, p: real, price: real)
    requires 0.0 < q <= p && price > 0.0
    ensures 0.0 < q / price <= p / price
  {
    assert p / price - q / price == (p - q) / price;
  }

  lemma DearerBuy(base: Terms, dear: Terms, a: real, b: real, price: real)
    requires base.risk.Valid() && dear.risk == base.risk
    requires 0.0 < b <= a && price > 0.0
    requires base.CostRate() <= dear.CostRate() < 1.0
    ensures 0.0 <= b - Stake(dear, b) <= a - Stake(base, a)
    ensures 0.0 < UnitsBought(Stake(dear, b), CostOf(dear, Stake(dear, b)), price)
         <= UnitsBought(Stake(base, a), CostOf(base, Stake(base, a)), price)
  {
    hide Rate, Stake;
    DearerStake(base, dear, a, b);
    DearerUnits(base, dear, Stake(base, a), Stake(dear, b), price);
  }

  /** A position that fits the exposure limit is always allowed from a flat account. */
  lemma FlatEntryAllowed(t: Terms, a: Account, price: real)
    requires t.risk.Valid() && a.cash >= 0.0 && a.units == 0.0 && !a.blocked && !a.stopped
    requires t.risk.maxTotalExposurePct.None? || t.risk.positionSizePct <= t.risk.maxTotalExposurePct.value
    ensures EntryAllowed(t, a, Stake(t, a.cash), price)
  {
    if t.risk.maxTotalExposurePct.Some? {
      var limit := t.risk.maxTotalExposurePct.value;
      assert Worth(a.cash, 0.0, price) == a.cash;
      assert a.cash * (limit - t.risk.positionSizePct) >= 0.0;
    }
  }

  lemma WorthMonotone(cash: real, units: real, lessCash: real, lessUnits: real, price: real)
    requires lessCash <= cash && lessUnits <= units && price > 0.0
    ensures Worth(lessCash, lessUnits, price) <= Worth(cash, units, price)
  {
    assert (units - lessUnits) * price >= 0.0;
  }

  lemma FillShadows(base: Terms, dear: Terms, a: Account, b: Account, bar: Bar)
    requires Dearer(base, dear) && bar.Valid() && Shadows(a, b)
    requires Solvent(base, a) && Solvent(dear, b)
    ensures Shadows(Fill(base, a, bar), Fill(dear, b, bar))
  {
    hide Rate, CostOf, UnitsBought, Stake, Value, EntryAllowed;
    if a.pending.ExitOrder? && a.units > 0.0 {
      DearerSale(base, dear, a.units, b.units, bar.open);
    } else if a.pending.EntryOrder? && a.units == 0.0 {
      FlatEntryAllowed(base, a, bar.open);
      FlatEntryAllowed(dear, b, bar.open);
      DearerBuy(base, dear, a.cash, b.cash, bar.open);
    }
  }

  lemma OpenDayShadows(base: Terms, dear: Terms, a: Account, b: Account, bar: Bar)
    requires Dearer(base, dear) && Shadows(a, b)
    ensures Shadows(OpenDay(base, a, bar), OpenDay(dear, b, bar))
  {
    hide Rate, Worth;
  }

  lemma CloseShadows(base: Terms, dear: Terms, a: Account, b: Account, cell: Cell)
    requires Dearer(base, dear) && cell.bar.Valid() && Shadows(a, b)
    ensures var x, y := Decide(base, a, cell), Decide(dear, b, cell);
            && (x.Err? <==> y.Err?)
            && (x.Err? ==> x.error == y.error)
            && (x.Ok? ==> Shadows(MarkClose(base, x.value, cell.bar), MarkClose(dear, y.value, cell.bar)))
  {
    hide Rate, Worth, RiskExit;
    WorthMonotone(a.cash, a.units, b.cash, b.units, cell.bar.close);
  }

  /** The same bars under dearer costs: the two runs fail at the same bar with the same error, or the
      dearer one shadows the other. */
  lemma {:induction false} DearerRunShadows(base: Terms, dear: Terms, cells: seq<Cell>, symbol: string, n: nat)
    requires Dearer(base, dear) && ValidCells(cells, symbol) && n <= |cells|
    ensures var x, y := After(base, cells, n), After(dear, cells, n);
            && (x.Err? <==> y.Err?)
            && (x.Err? ==> x.error == y.error)
            && (x.Ok? ==> Shadows(x.value, y.value))
  {
    hide Rate, OpenDay, Fill, Decide, MarkClose, Shadows;
    if n == 0 {
      StartShadows(base, dear);
    } else {
      DearerRunShadows(base, dear, cells, symbol, n - 1);
      var x, y := After(base, cells, n - 1), After(dear, cells, n - 1);
      if x.Ok? {
        var cell := cells[n - 1];
        AlwaysSolvent(base, cells, symbol, n - 1);
        AlwaysSolvent(dear, cells, symbol, n - 1);
        OpenDayShadows(base, dear, x.value, y.value, cell.bar);
        OpenDaySolvent(base, x.value, cell.bar);
        OpenDaySolvent(dear, y.value, cell.bar);
        FillShadows(base, dear, OpenDay(base, x.value, cell.bar), OpenDay(dear, y.value, cell.bar), cell.bar);
        CloseShadows(base, dear, AtOpen(base, x.value, cell.bar), AtOpen(dear, y.value, cell.bar), cell);
      }
    }
  }

  lemma StartShadows(base: Terms, dear: Terms)
    requires Dearer(base, dear)
    ensures Shadows(Start(base), Start(dear))
  {
  }

  lemma OpenDaySolvent(t: Terms, a: Account, bar: Bar)
    requires Solvent(t, a)
    ensures Solvent(t, OpenDay(t, a, bar))
  {
  }

  /** The change of the equity over a run, as the metrics report it. */
  function TotalReturn(equity: seq<real>): real
    requires equity != [] && equity[0] > 0.0
  {
    equity[|equity| - 1] / equity[0] - 1.0
  }

  /** The first equity point is the initial cash: nothing can fill at the first open. */
  lemma FirstPoint(t: Terms, cells: seq<Cell>)
    requires cells != [] && (forall k | 0 <= k < |cells| :: cells[k].bar.open > 0.0) && After(t, cells, |cells|).Ok?
    ensures After(t, cells, |cells|).value.equity != [] && After(t, cells, |cells|).value.equity[0] == t.initialCash
  {
    hide Step, AtOpen;
    History(t, cells, 1, |cells|);
    History(t, cells, 0, 1);
    assert After(t, cells, 0) == Ok(Start(t));
    assert After(t, cells, 1) == Step(t, Start(t), cells[0]);
    StepFrame(t, Start(t), cells[0]);
    StartOpen(t, cells[0].bar);
    SingleLimits.FlatWorth(t.initialCash, cells[0].bar.close);
  }

  lemma StartOpen(t: Terms, bar: Bar)
    requires bar.open > 0.0
    ensures AtOpen(t, Start(t), bar).cash == t.initialCash && AtOpen(t, Start(t), bar).units == 0.0
  {
  }

  /** A first bar that asks for an entry places the order, and moves nothing. */
  lemma FirstStep(t: Terms, cell: Cell)
    requires t.Valid() && cell.bar.open > 0.0 && cell.entry == Ok(true)
    requires t.risk.dailyLossLimitPct.Some? ==> t.risk.dailyLossLimitPct.value > TOLERANCE
    ensures Step(t, Start(t), cell)
         == Ok(Account(t.initialCash, 0.0, 0.0, EntryOrder, Some(cell.bar.day), t.initialCash, false, false, [],
             [t.initialCash]))
  {
    hide CostOf, UnitsBought, Stake, Rate;
    assert Worth(t.initialCash, 0.0, cell.bar.open) == t.initialCash;
    assert Worth(t.initialCash, 0.0, cell.bar.close) == t.initialCash;
    assert [] + [t.initialCash] == [t.initialCash];
  }
}
