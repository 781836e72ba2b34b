/** Bars and trades: core/data/contracts.py and the `Trade` record of core/backtest/engine.py. */
module Market {
  import opened Prelude
  import opened Costs
  import opened Strategy

  /** `time` is the instant, `stamp` the rank of its ISO text among the texts of the run (the engine
      sorts trades by that text), and `day` the calendar date the text shows. The three are kept
      apart because bars may carry different time zones. */
  datatype Bar = Bar(
    time: int, stamp: int, day: int, symbol: string,
    open: real, high: real, low: real, close: real, volume: real)
  {
    predicate Valid() {
      && symbol != ""
      && open > 0.0 && high > 0.0 && low > 0.0 && close > 0.0
      && high >= Max(open, close)
      && low <= open && low <= close
      && volume >= 0.0
    }
  }

  datatype Trade =
    Trade(stamp: int, side: Side, price: real, quantity: real, notional: real, cost: real, symbol: string)

  function MakeTrade(bar: Bar, side: Side, quantity: real, cost: real): Trade {
    Trade(bar.stamp, side, bar.open, quantity, Value(quantity, bar.open), cost, bar.symbol)
  }

  /** A position marked at a price. */
  function Value(units: real, price: real): real {
    units * price
  }

  /** Cash and a position marked at a price. */
  function Worth(cash: real, units: real, price: real): real {
    cash + Value(units, price)
  }

  /** All that the engine reads of one symbol at one bar: the bar, and what evaluating the entry and
      the exit rule at it gives. The engine evaluates a rule only when it needs it. */
  datatype Cell = Cell(bar: Bar, entry: Result<bool, RuleError>, exit: Result<bool, RuleError>)

  /** The part of a run that is not data: the risk settings, the costs, their stress multiplier and
      the initial cash. */
  datatype Terms = Terms(risk: Risk, costs: Option<CostModel>, stress: real, initialCash: real)
  {
    /** What the schema checks on the risk settings, and the engine on the request. */
    predicate Valid() {
      risk.Valid() && initialCash > 0.0 && stress >= 0.0
    }

    function CostRate(): real {
      Rate(costs, stress)
    }
  }

  /** The cost of trading a notional, as the cost model charges it. */
  function CostOf(t: Terms, notional: real): real {
    t.CostRate() * notional
  }

  datatype Order = NoOrder | EntryOrder | ExitOrder

  datatype RunError = InvalidRequest | RuleFailed(rule: RuleError)

  const TOLERANCE: real := 0.000000001

  function RiskExit(risk: Risk, entryPrice: real, price: real): bool {
    if entryPrice <= 0.0 then false else
    var move := (price / entryPrice - 1.0) * 100.0;
    || (risk.stopLossPct > 0.0 && move <= -risk.stopLossPct)
    || (risk.takeProfitPct > 0.0 && move >= risk.takeProfitPct)
  }

  function ExposureAllows(risk: Risk, planned: real, equity: real, exposure: real): bool {
    risk.maxTotalExposurePct.None?
    || exposure + planned <= equity * risk.maxTotalExposurePct.value / 100.0 + TOLERANCE
  }

  function LossBreached(risk: Risk, dayStart: real, current: real): bool {
    if risk.dailyLossLimitPct.None? || risk.dailyLossAction.NoAction? || dayStart <= 0.0 then false
    else (dayStart - current) / dayStart * 100.0 >= risk.dailyLossLimitPct.value - TOLERANCE
  }

  /** The units that a notional buys once the cost is taken from it, never negative. */
  function UnitsBought(notional: real, cost: real, price: real): real
    requires price > 0.0
  {
    Max(0.0, (notional - cost) / price)
  }

  /** A buy holds units exactly when something is left of its notional after the cost. */
  lemma UnitsBoughtSign(t: Terms, notional: real, price: real)
    requires price > 0.0 && notional > 0.0
    ensures var bought := UnitsBought(notional, CostOf(t, notional), price);
            && bought >= 0.0
            && (bought > 0.0 <==> t.CostRate() < 1.0)
            && (t.CostRate() <= 1.0 ==> Value(bought, price) == notional - CostOf(t, notional))
  {
    hide Rate;
    var rate := t.CostRate();
    var left := notional - CostOf(t, notional);
    assert left == notional * (1.0 - rate);
    if rate < 1.0 {
      assert left > 0.0;
      assert left / price > 0.0;
    } else if rate == 1.0 {
      assert left == 0.0;
    } else {
      assert notional * (1.0 - rate) < 0.0;
      assert left / price < 0.0;
    }
  }

  /** The cost model never refuses a notional that is not negative, and charges the rate's share. */
  lemma ChargeIsCostOf(t: Terms, notional: real, side: Side)
    requires notional >= 0.0 && t.stress >= 0.0
    ensures Charge(t.costs, notional, side, t.stress) == Ok(CostOf(t, notional))
  {
    ChargeIsProportional(t.costs, notional, side, t.stress);
    var rate := t.CostRate();
    assert Charge(t.costs, notional, side, t.stress).value == rate * notional;
    assert CostOf(t, notional) == rate * notional;
  }
}
