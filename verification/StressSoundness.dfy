/** When the comparison of a stressed with a plain run is sound: raising the cost rate changes no trade
    and raises no equity point. The conditions on the loss limit, the exposure limit and the rates are
    exact. */
module StressSoundness {
  import opened Prelude
  import opened Costs
  import opened Strategy
  import opened Market
  import opened SingleEngine
  import opened SingleTwoRuns

  /** The dearer run `y` fails as `x` does, or makes the same trades at the same times and prices and is
      never richer. */
  ghost predicate NeverHelps(x: Result<Report, RunError>, y: Result<Report, RunError>) {
    && (x.Err? <==> y.Err?)
    && (x.Err? ==> x.error == y.error)
    && (x.Ok? ==>
          && |x.value.trades| == |y.value.trades|
          && (forall k | 0 <= k < |x.value.trades| :: SameTrade(x.value.trades[k], y.value.trades[k]))
          && |x.value.equity| == |y.value.equity|
          && (forall k | 0 <= k < |x.value.equity| :: y.value.equity[k] <= x.value.equity[k]))
  }

  /** A run of a strategy with this risk: any cash, any bars, any rules. */
  ghost predicate SoundFor(risk: Risk, costs: Option<CostModel>, low: real, high: real) {
    forall cash: real, cells: seq<Cell>, symbol: string | cash > 0.0 && ValidCells(cells, symbol) ::
      NeverHelps(Outcome(Terms(risk, costs, low, cash), cells), Outcome(Terms(risk, costs, high, cash), cells))
  }

  /** A whole position fits the exposure limit. */
  predicate FitsExposure(risk: Risk) {
    risk.maxTotalExposurePct.None? || risk.positionSizePct <= risk.maxTotalExposurePct.value
  }

  /** The loss limit never acts, or blocks every entry of every day. */
  predicate QuietLimit(limit: Option<real>, action: LossAction) {
    limit.None? || action.NoAction? || limit.value <= TOLERANCE
  }

  lemma OutcomesShadow(base: Terms, dear: Terms, cells: seq<Cell>, symbol: string)
    requires Dearer(base, dear) && ValidCells(cells, symbol)
    ensures NeverHelps(Outcome(base, cells), Outcome(dear, cells))
  {
    hide Rate, After;
    DearerRunShadows(base, dear, cells, symbol, |cells|);
  }

  // ----- A loss limit within the tolerance

  /** An account that never traded. */
  ghost predicate Untouched(t: Terms, a: Account, n: nat) {
    && a.cash == t.initialCash && a.units == 0.0 && a.pending.NoOrder? && a.trades == []
    && (if n == 0 then a.day.None? else a.dayStart == t.initialCash)
    && a.equity == seq(n, _ => t.initialCash)
  }

  lemma TightBar(t: Terms, a: Account, cell: Cell, n: nat)
    requires t.Valid() && cell.bar.open > 0.0 && Untouched(t, a, n)
    requires t.risk.dailyLossLimitPct.Some? && t.risk.dailyLossLimitPct.value <= TOLERANCE
             && !t.risk.dailyLossAction.NoAction?
    ensures Step(t, a, cell).Ok? && Untouched(t, Step(t, a, cell).value, n + 1)
  {
    hide Rate, CostOf, UnitsBought, Stake, ExposureAllows, RiskExit, Value;
    assert forall price :: Worth(a.cash, 0.0, price) == a.cash by {
      FlatWorths(a.cash);
    }
    assert (t.initialCash - t.initialCash) / t.initialCash * 100.0 == 0.0;
    assert seq(n + 1, _ => t.initialCash) == seq(n, _ => t.initialCash) + [t.initialCash];
  }

  lemma FlatWorths(cash: real)
    ensures forall price :: Worth(cash, 0.0, price) == cash
  {
  }

  /** Under a limit within the tolerance every bar finds entries blocked, and nothing is ever traded. */
  lemma {:induction false} TightLimitIdles(t: Terms, cells: seq<Cell>, symbol: string, n: nat)
    requires t.Valid() && ValidCells(cells, symbol) && n <= |cells|
    requires t.risk.dailyLossLimitPct.Some? && t.risk.dailyLossLimitPct.value <= TOLERANCE
             && !t.risk.dailyLossAction.NoAction?
    ensures After(t, cells, n).Ok? && Untouched(t, After(t, cells, n).value, n)
  {
    hide Step, Untouched;
    if n == 0 {
      StartUntouched(t);
    } else {
      TightLimitIdles(t, cells, symbol, n - 1);
      TightBar(t, After(t, cells, n - 1).value, cells[n - 1], n - 1);
    }
  }

  lemma StartUntouched(t: Terms)
    ensures Untouched(t, Start(t), 0)
  {
  }

  // ----- Fills of a whole stake

  /** A strategy that stakes all its cash and has no exits of its own. */
  function AllIn(limit: Option<real>, action: LossAction): Risk {
    Risk(0.0, 0.0, 100.0, limit, action, None, None)
  }

  /** A bar of the one day and symbol used below. */
  function Quote(time: int, open: real, close: real): Bar {
    Bar(time, time, 0, "A", open, Max(open, close), if open < close then open else close, close, 0.0)
  }

  /** Buy at one, sell at `o` after a close at `c`, ask for another entry, and end at `z`. */
  function RoundTrip(c: real, o: real, z: real): seq<Cell> {
    [ Cell(Quote(0, 1.0, 1.0), Ok(true), Ok(false)),
      Cell(Quote(1, 1.0, c), Ok(false), Ok(true)),
      Cell(Quote(2, o, o), Ok(true), Ok(false)),
      Cell(Quote(3, o, z), Ok(false), Ok(false)) ]
  }

  lemma RoundTripValid(c: real, o: real, z: real)
    requires c > 0.0 && o > 0.0 && z > 0.0
    ensures ValidCells(RoundTrip(c, o, z), "A")
  {
  }

  /** The position that a stake buys, and the cash that selling a position brings. */
  function Position(t: Terms, stake: real, price: real): real
    requires price > 0.0
  {
    UnitsBought(stake, CostOf(t, stake), price)
  }

  function Proceeds(t: Terms, units: real, price: real): real {
    Value(units, price) - CostOf(t, Value(units, price))
  }

  /** The purchase at an open of the day. */
  lemma Buys(t: Terms, a: Account, bar: Bar)
    requires bar.open > 0.0 && a.pending.EntryOrder? && a.units == 0.0 && a.day == Some(bar.day) && !a.blocked
             && !a.stopped
    requires !LossBreached(t.risk, a.dayStart, a.cash) && ExposureAllows(t.risk, Stake(t, a.cash), a.cash, 0.0)
    ensures AtOpen(t, a, bar)
         == a.(cash := a.cash - Stake(t, a.cash), units := Position(t, Stake(t, a.cash), bar.open),
             entryPrice := bar.open, pending := NoOrder,
               trades := a.trades + [MakeTrade(bar, Buy, Position(t, Stake(t, a.cash), bar.open),
                   CostOf(t, Stake(t, a.cash)))])
  {
    hide Rate, CostOf, UnitsBought, Stake, LossBreached, ExposureAllows;
    assert Worth(a.cash, 0.0, bar.open) == a.cash && Value(0.0, bar.open) == 0.0;
  }

  /** The sale at an open of the day. */
  lemma Sells(t: Terms, a: Account, bar: Bar)
    requires bar.open > 0.0 && a.pending.ExitOrder? && a.units > 0.0 && a.day == Some(bar.day)
    ensures AtOpen(t, a, bar)
         == a.(cash := a.cash + Proceeds(t, a.units, bar.open), units := 0.0, entryPrice := 0.0, pending := NoOrder,
               blocked := a.blocked || LossBreached(t.risk, a.dayStart, Worth(a.cash, a.units, bar.open)),
               trades := a.trades + [MakeTrade(bar, Sell, a.units, CostOf(t, Value(a.units, bar.open)))])
  {
    hide Rate, CostOf, Value, Worth, UnitsBought, Stake, LossBreached, ExposureAllows;
  }

  /** An open of the day with nothing to do. */
  lemma Waits(t: Terms, a: Account, bar: Bar)
    requires bar.open > 0.0 && a.pending.NoOrder? && a.day == Some(bar.day)
    ensures AtOpen(t, a, bar) == a.(blocked := a.blocked || LossBreached(t.risk, a.dayStart,
            Worth(a.cash, a.units, bar.open)))
  {
    hide Rate, CostOf, Value, Worth, UnitsBought, Stake, LossBreached, ExposureAllows;
  }

  /** An entry that the block, the stop or the exposure limit refuses. */
  lemma Refused(t: Terms, a: Account, bar: Bar)
    requires bar.open > 0.0 && a.pending.EntryOrder? && a.units == 0.0 && a.day == Some(bar.day)
    requires a.blocked || a.stopped || !ExposureAllows(t.risk, Stake(t, a.cash), a.cash, 0.0)
    ensures AtOpen(t, a, bar) == a.(pending := NoOrder, blocked := a.blocked
            || LossBreached(t.risk, a.dayStart, a.cash))
  {
    hide Rate, CostOf, UnitsBought, Stake, LossBreached, ExposureAllows;
    assert Worth(a.cash, 0.0, bar.open) == a.cash && Value(0.0, bar.open) == 0.0;
  }

  /** The close of a bar, for a strategy without exits of its own. */
  lemma Closes(t: Terms, a: Account, cell: Cell)
    requires cell.bar.open > 0.0 && t.risk.stopLossPct == 0.0 && t.risk.takeProfitPct == 0.0 && cell.exit.Ok?
             && cell.entry.Ok?
    ensures var f := AtOpen(t, a, cell.bar);
            var order := if f.units > 0.0 then (if cell.exit.value then ExitOrder else f.pending)
                         else if !f.blocked && !f.stopped && cell.entry.value then EntryOrder else f.pending;
            Step(t, a, cell) == Ok(MarkClose(t, f.(pending := order), cell.bar))
  {
    hide Rate, AtOpen, MarkClose;
  }

  /** The close that does not reach the loss limit. */
  lemma ClosesCalm(t: Terms, a: Account, bar: Bar)
    requires !LossBreached(t.risk, a.dayStart, Worth(a.cash, a.units, bar.close))
    ensures MarkClose(t, a, bar) == a.(equity := a.equity + [Worth(a.cash, a.units, bar.close)])
  {
    hide Worth, LossBreached;
  }

  /** The first bar of a round trip. */
  lemma TripStarts(t: Terms, c: real, o: real, z: real)
    requires t.Valid() && c > 0.0 && o > 0.0 && z > 0.0
    requires t.risk.dailyLossLimitPct.Some? ==> t.risk.dailyLossLimitPct.value > TOLERANCE
    ensures After(t, RoundTrip(c, o, z), 1)
         == Ok(Account(t.initialCash, 0.0, 0.0, EntryOrder, Some(0), t.initialCash, false, false, [], [t.initialCash]))
  {
    hide Step, Rate;
    var cells := RoundTrip(c, o, z);
    assert After(t, cells, 0) == Ok(Start(t));
    assert After(t, cells, 1) == Step(t, Start(t), cells[0]);
    FirstStep(t, cells[0]);
  }

  /** What a run does with a round trip whose first close does not reach the loss limit: it sells, and
      the second entry is placed; whether it fills is up to the exposure limit. */
  lemma CalmTrip(t: Terms, c: real, o: real, z: real, units: real, cash: real)
    requires t.Valid() && c > 0.0 && o > 0.0 && z > 0.0
    requires t.risk.stopLossPct == 0.0 && t.risk.takeProfitPct == 0.0
    requires t.risk.dailyLossLimitPct.Some? ==> t.risk.dailyLossLimitPct.value > TOLERANCE
    requires ExposureAllows(t.risk, Stake(t, t.initialCash), t.initialCash, 0.0)
    requires units == Position(t, Stake(t, t.initialCash), 1.0) > 0.0
    requires var left := t.initialCash - Stake(t, t.initialCash);
             && cash == left + Proceeds(t, units, o)
             && !LossBreached(t.risk, t.initialCash, Worth(left, units, c))
             && !LossBreached(t.risk, t.initialCash, Worth(left, units, o))
             && !LossBreached(t.risk, t.initialCash, cash)
    ensures After(t, RoundTrip(c, o, z), 3).Ok?
    ensures var a := After(t, RoundTrip(c, o, z), 3).value;
            && a.cash == cash && a.units == 0.0 && a.pending.EntryOrder? && a.day == Some(0)
                && a.dayStart == t.initialCash
            && !a.blocked && !a.stopped && |a.trades| == 2 && |a.equity| == 3
  {
    hide Rate, Step, AtOpen, MarkClose, Worth, Stake, Position, Proceeds, LossBreached, ExposureAllows;
    var cells := RoundTrip(c, o, z);
    TripStarts(t, c, o, z);
    NoLossAtStart(t);
    var one := After(t, cells, 1).value;
    Buys(t, one, cells[1].bar);
    Closes(t, one, cells[1]);
    assert After(t, cells, 2) == Step(t, one, cells[1]);
    ClosesCalm(t, AtOpen(t, one, cells[1].bar).(pending := ExitOrder), cells[1].bar);
    var two := After(t, cells, 2).value;
    Sells(t, two, cells[2].bar);
    Closes(t, two, cells[2]);
    assert After(t, cells, 3) == Step(t, two, cells[2]);
    FlatWorths(cash);
    ClosesCalm(t, AtOpen(t, two, cells[2].bar).(pending := EntryOrder), cells[2].bar);
  }

  lemma NoLossAtStart(t: Terms)
    requires t.Valid() && (t.risk.dailyLossLimitPct.Some? ==> t.risk.dailyLossLimitPct.value > TOLERANCE)
    ensures !LossBreached(t.risk, t.initialCash, t.initialCash)
  {
  }

  /** A dearer run whose first close reaches the loss limit: it sells, is blocked for the day, and keeps
      its cash. */
  lemma BlockedTrip(t: Terms, c: real, o: real, z: real, units: real, cash: real)
    requires t.Valid() && c > 0.0 && o > 0.0 && z > 0.0
    requires t.risk == AllIn(t.risk.dailyLossLimitPct, t.risk.dailyLossAction)
    requires t.risk.dailyLossLimitPct.Some? && t.risk.dailyLossLimitPct.value > TOLERANCE
    requires units == Position(t, t.initialCash, 1.0) > 0.0 && cash == Proceeds(t, units, o)
    requires LossBreached(t.risk, t.initialCash, Worth(0.0, units, c))
    ensures After(t, RoundTrip(c, o, z), 4).Ok?
    ensures var a := After(t, RoundTrip(c, o, z), 4).value;
            |a.trades| == 2 && |a.equity| == 4 && a.equity[3] == cash
  {
    hide Rate, Step, AtOpen, Worth, Stake, Position, Proceeds, LossBreached;
    var cells := RoundTrip(c, o, z);
    TripStarts(t, c, o, z);
    NoLossAtStart(t);
    WholeStake(t, t.initialCash);
    var one := After(t, cells, 1).value;
    Buys(t, one, cells[1].bar);
    Closes(t, one, cells[1]);
    assert After(t, cells, 2) == Step(t, one, cells[1]);
    var two := After(t, cells, 2).value;
    assert two.blocked && two.pending.ExitOrder? && two.units == units && two.cash == 0.0 && |two.trades| == 1
           && |two.equity| == 2;
    Sells(t, two, cells[2].bar);
    Closes(t, two, cells[2]);
    assert After(t, cells, 3) == Step(t, two, cells[2]);
    FlatWorths(cash);
    var three := After(t, cells, 3).value;
    assert three.blocked && three.pending.NoOrder? && three.units == 0.0 && three.cash == cash && |three.trades| == 2
           && |three.equity| == 3;
    Waits(t, three, cells[3].bar);
    Closes(t, three, cells[3]);
    assert After(t, cells, 4) == Step(t, three, cells[3]);
  }

  lemma WholeStake(t: Terms, cash: real)
    requires t.risk.positionSizePct == 100.0 && t.risk.maxTotalExposurePct.None?
    ensures Stake(t, cash) == cash && ExposureAllows(t.risk, cash, cash, 0.0)
  {
  }

  /** The last bar of a round trip whose second entry fills. */
  lemma TripEnds(t: Terms, c: real, o: real, z: real, a: Account)
    requires t.Valid() && c > 0.0 && o > 0.0 && z > 0.0
    requires t.risk.stopLossPct == 0.0 && t.risk.takeProfitPct == 0.0
    requires After(t, RoundTrip(c, o, z), 3) == Ok(a)
    requires a.units == 0.0 && a.pending.EntryOrder? && a.day == Some(0) && !a.blocked && !a.stopped
    requires !LossBreached(t.risk, a.dayStart, a.cash) && ExposureAllows(t.risk, Stake(t, a.cash), a.cash, 0.0)
    ensures After(t, RoundTrip(c, o, z), 4).Ok?
    ensures var b := After(t, RoundTrip(c, o, z), 4).value;
            && |b.trades| == |a.trades| + 1 && |b.equity| == |a.equity| + 1
            && b.equity[|a.equity|] == Worth(a.cash - Stake(t, a.cash), Position(t, Stake(t, a.cash), o), z)
  {
    hide Rate, Step, AtOpen, Worth, Stake, Position, Proceeds, LossBreached, ExposureAllows;
    var cells := RoundTrip(c, o, z);
    Buys(t, a, cells[3].bar);
    Closes(t, a, cells[3]);
    assert After(t, cells, 4) == Step(t, a, cells[3]);
  }

  // ----- What is left of a stake

  /** With all amounts spelt out. */
  lemma Amounts(t: Terms, stake: real, price: real, units: real)
    requires stake > 0.0 && price > 0.0 && t.CostRate() < 1.0
    ensures Position(t, stake, price) == stake * (1.0 - t.CostRate()) / price > 0.0
    ensures Proceeds(t, units, price) == units * price * (1.0 - t.CostRate())
  {
    hide Rate;
    var kept := 1.0 - t.CostRate();
    ProductPositive(stake, kept);
    assert CostOf(t, stake) == t.CostRate() * stake;
    assert stake - t.CostRate() * stake == stake * kept;
    QuotientPositive(stake * kept, price);
    var v := Value(units, price);
    assert v - t.CostRate() * v == v * kept;
  }

  lemma QuotientPositive(a: real, b: real)
    requires a > 0.0 && b > 0.0
    ensures a / b > 0.0
  {
  }

  /** The loss limit is reached when the day's start of one has lost it. */
  lemma LossOfOne(risk: Risk, x: real)
    requires risk.dailyLossLimitPct.Some? && !risk.dailyLossAction.NoAction?
    ensures LossBreached(risk, 1.0, x) <==> x <= LossFloor(risk.dailyLossLimitPct.value)
  {
  }

  lemma Quotient(a: real, b: real)
    requires b > 0.0
    ensures b * (a / b) == a
  {
  }

  /** The prices at which a run that keeps the share `q` of each trade stays above `theta`, and one that
      keeps less, `p`, does not; the second price recovers the first run's costs. */
  lemma SplittingPrices(q: real, p: real, theta: real)
    requires 0.0 < p < q && 0.0 < theta < 1.0
    ensures theta / p > 0.0 && p * (theta / p) == theta < q * (theta / p)
    ensures var o := 1.0 / q + 1.0 / (q * q); o > 0.0 && q * o > 1.0 && q * o * q == q + 1.0
  {
    QuotientPositive(theta, p);
    Quotient(theta, p);
    ProductPositive(q - p, theta / p);
    assert q * (theta / p) - p * (theta / p) == (q - p) * (theta / p);
    ProductPositive(q, q);
    QuotientPositive(1.0, q);
    QuotientPositive(1.0, q * q);
    Quotient(1.0, q);
    Quotient(1.0, q * q);
    var a, b := 1.0 / q, 1.0 / (q * q);
    ProductPositive(q, b);
    Recovers(q, a, b);
  }

  lemma Recovers(q: real, a: real, b: real)
    requires q * a == 1.0 && q * q * b == 1.0
    ensures q * (a + b) == 1.0 + q * b && q * (a + b) * q == q + 1.0
  {
    var x := q * b;
    assert q * (a + b) == q * a + x;
    assert x * q == q * q * b;
    assert (1.0 + x) * q == q + x * q;
  }

  /** The worth of a day that starts with one at which the loss limit is reached. */
  function LossFloor(limit: real): real {
    1.0 - (limit - TOLERANCE) / 100.0
  }

  /** The plain run of a round trip with all of one: it sells, and buys again. */
  lemma PlainTrip(t: Terms, limit: real, action: LossAction, c: real, o: real, z: real, units: real, cash: real)
    requires t.Valid() && t.risk == AllIn(Some(limit), action) && t.initialCash == 1.0
    requires TOLERANCE < limit && !action.NoAction? && c > 0.0 && o > 0.0 && z > 0.0
    requires units == Position(t, 1.0, 1.0) > 0.0 && cash == Proceeds(t, units, o)
    requires LossFloor(limit) < Worth(0.0, units, c) && LossFloor(limit) < Worth(0.0, units, o)
             && LossFloor(limit) < cash
    ensures After(t, RoundTrip(c, o, z), 4).Ok?
    ensures var a := After(t, RoundTrip(c, o, z), 4).value;
            |a.trades| == 3 && |a.equity| == 4 && a.equity[3] == Worth(0.0, Position(t, cash, o), z)
  {
    hide Rate, After, RoundTrip, Stake, LossBreached, ExposureAllows, Worth, Position, Proceeds, LossFloor;
    WholeStake(t, 1.0);
    LossOfOne(t.risk, Worth(0.0, units, c));
    LossOfOne(t.risk, Worth(0.0, units, o));
    LossOfOne(t.risk, cash);
    CalmTrip(t, c, o, z, units, cash);
    RoundTripValid(c, o, z);
    FourBars(c, o, z);
    var a := After(t, RoundTrip(c, o, z), 3).value;
    WholeStake(t, a.cash);
    TripEnds(t, c, o, z, a);
  }

  /** With a limit above the tolerance, whatever the action on it, and any two cost rates below one, there
      is a run in which the stressed account trades less and ends richer. */
  lemma LossLimitCanRewardStress(costs: Option<CostModel>, low: real, high: real, limit: real, action: LossAction)
    returns (c: real, o: real, z: real)
    requires 0.0 <= low && 0.0 <= high && Rate(costs, low) < Rate(costs, high) < 1.0
    requires TOLERANCE < limit <= 100.0 && !action.NoAction?
    ensures c > 0.0 && o > 0.0 && z > 0.0 && ValidCells(RoundTrip(c, o, z), "A")
    ensures var risk, cells := AllIn(Some(limit), action), RoundTrip(c, o, z);
            var x, y := Outcome(Terms(risk, costs, low, 1.0), cells), Outcome(Terms(risk, costs, high, 1.0), cells);
            && risk.Valid() && x.Ok? && y.Ok?
            && |x.value.trades| == 3 && |y.value.trades| == 2
            && |x.value.equity| == |y.value.equity| == 4 && x.value.equity[3] < y.value.equity[3]
  {
    hide Rate, After, RoundTrip, Stake, LossBreached, ExposureAllows, Worth, Position, Proceeds;
    var risk := AllIn(Some(limit), action);
    var x, y := Terms(risk, costs, low, 1.0), Terms(risk, costs, high, 1.0);
    var q, p := 1.0 - x.CostRate(), 1.0 - y.CostRate();
    var units, cash, less, kept;
    c, o, z, units, cash := TripAmounts(x, y, limit);
    RoundTripValid(c, o, z);
    FourBars(c, o, z);
    PlainTrip(x, limit, action, c, o, z, units, cash);
    less, kept := Position(y, 1.0, 1.0), Proceeds(y, Position(y, 1.0, 1.0), o);
    LossOfOne(risk, Worth(0.0, less, c));
    BlockedTrip(y, c, o, z, less, kept);
  }

  /** The prices of such a trip, what the plain run holds at first, and the cash it sells that for. */
  lemma TripAmounts(x: Terms, y: Terms, limit: real) returns (c: real, o: real, z: real, units: real, cash: real)
    requires x.risk == y.risk && x.risk.positionSizePct == 100.0 && x.risk.maxTotalExposurePct.None?
    requires x.CostRate() < y.CostRate() < 1.0 && TOLERANCE < limit <= 100.0
    ensures c > 0.0 && o > 0.0 && z > 0.0
    ensures units == Position(x, 1.0, 1.0) > 0.0 && cash == Proceeds(x, units, o)
    ensures LossFloor(limit) < Worth(0.0, units, c) && LossFloor(limit) < Worth(0.0, units, o)
            && LossFloor(limit) < cash
    ensures var less := Position(y, 1.0, 1.0);
            && less > 0.0 && Worth(0.0, less, c) <= LossFloor(limit)
            && Worth(0.0, Position(x, cash, o), z) < Proceeds(y, less, o)
  {
    hide Rate, Stake, Worth, Position, Proceeds;
    var q, p := 1.0 - x.CostRate(), 1.0 - y.CostRate();
    SplittingPrices(q, p, LossFloor(limit));
    c, o := LossFloor(limit) / p, 1.0 / q + 1.0 / (q * q);
    StakesOfOne(x, c, o);
    StakesOfOne(y, c, o);
    z := LastPrice(x, y, q, p, c, o);
    units, cash := q, q * o * q;
  }

  lemma FourBars(c: real, o: real, z: real)
    ensures |RoundTrip(c, o, z)| == 4
  {
  }

  /** The amounts of a round trip with all of one. */
  lemma StakesOfOne(t: Terms, c: real, o: real)
    requires t.risk.positionSizePct == 100.0 && t.risk.maxTotalExposurePct.None? && t.CostRate() < 1.0 && o > 0.0
    ensures var q := 1.0 - t.CostRate();
            && Stake(t, 1.0) == 1.0 && Position(t, 1.0, 1.0) == q && Proceeds(t, q, o) == q * o * q
            && Worth(0.0, q, c) == q * c && Worth(0.0, q, o) == q * o
            && ExposureAllows(t.risk, 1.0, 1.0, 0.0)
  {
    hide Rate;
    WholeStake(t, 1.0);
    Amounts(t, 1.0, 1.0, 1.0 - t.CostRate());
    Amounts(t, 1.0, o, 1.0 - t.CostRate());
  }

  /** A last price at which the position of the plain run is worth less than the cash of the other. */
  lemma LastPrice(x: Terms, y: Terms, q: real, p: real, c: real, o: real) returns (z: real)
    requires x.CostRate() < 1.0 && q == 1.0 - x.CostRate() && p > 0.0 && o > 0.0
    ensures z > 0.0
    ensures Worth(0.0, Position(x, q * o * q, o), z) < p * o * p
  {
    hide Rate, Position;
    ProductPositive(p, o);
    ProductPositive(p * o, p);
    ProductPositive(q, o);
    ProductPositive(q * o, q);
    var stake, half := q * o * q, p * o * p / 2.0;
    Amounts(x, stake, o, 0.0);
    var units := Position(x, stake, o);
    QuotientPositive(half, units);
    Quotient(half, units);
    z := half / units;
  }

  // ----- Soundness, exactly

  /** With positions inside the exposure limit and cost rates below one: the stressed comparison is sound
      for every run of every strategy with this loss limit and action if and only if the limit is off,
      has no action, or lies within the tolerance. */
  lemma StressSoundIff(costs: Option<CostModel>, low: real, high: real, limit: Option<real>, action: LossAction)
    requires 0.0 <= low && 0.0 <= high && Rate(costs, low) < Rate(costs, high) < 1.0
    requires limit.Some? ==> 0.0 <= limit.value <= 100.0
    ensures (forall risk: Risk | risk.Valid() && FitsExposure(risk) && risk.dailyLossLimitPct == limit
            && risk.dailyLossAction == action ::
               SoundFor(risk, costs, low, high))
            <==> QuietLimit(limit, action)
  {
    hide Rate, Outcome, NeverHelps, RoundTrip;
    if QuietLimit(limit, action) {
      forall risk: Risk | risk.Valid() && FitsExposure(risk) && risk.dailyLossLimitPct == limit
          && risk.dailyLossAction == action
        ensures SoundFor(risk, costs, low, high)
      {
        QuietSound(risk, costs, low, high);
      }
    } else {
      var c, o, z := LossLimitCanRewardStress(costs, low, high, limit.value, action);
      var risk, cells := AllIn(limit, action), RoundTrip(c, o, z);
      Differ(Outcome(Terms(risk, costs, low, 1.0), cells), Outcome(Terms(risk, costs, high, 1.0), cells));
      assert !SoundFor(risk, costs, low, high);
    }
  }

  lemma Differ(x: Result<Report, RunError>, y: Result<Report, RunError>)
    requires x.Ok? && y.Ok? && |x.value.trades| != |y.value.trades|
    ensures !NeverHelps(x, y)
  {
  }

  lemma QuietSound(risk: Risk, costs: Option<CostModel>, low: real, high: real)
    requires 0.0 <= low && 0.0 <= high && Rate(costs, low) <= Rate(costs, high) < 1.0
    requires risk.Valid() && FitsExposure(risk) && QuietLimit(risk.dailyLossLimitPct, risk.dailyLossAction)
    ensures SoundFor(risk, costs, low, high)
  {
    hide Rate, After, NeverHelps;
    forall cash: real, cells: seq<Cell>, symbol: string | cash > 0.0 && ValidCells(cells, symbol)
      ensures NeverHelps(Outcome(Terms(risk, costs, low, cash), cells), Outcome(Terms(risk, costs, high, cash), cells))
    {
      var x, y := Terms(risk, costs, low, cash), Terms(risk, costs, high, cash);
      if risk.dailyLossLimitPct.None? || risk.dailyLossAction.NoAction? {
        OutcomesShadow(x, y, cells, symbol);
      } else {
        TightLimitIdles(x, cells, symbol, |cells|);
        TightLimitIdles(y, cells, symbol, |cells|);
        SameReports(Outcome(x, cells), Outcome(y, cells));
      }
    }
  }

  lemma SameReports(x: Result<Report, RunError>, y: Result<Report, RunError>)
    requires x.Ok? && y.Ok? && x.value.trades == y.value.trades && x.value.equity == y.value.equity
    ensures NeverHelps(x, y)
  {
  }

  /** Raising the stress multiplier, under these conditions, keeps the time, side and price of every trade,
      never raises a point of the equity curve, and so never raises the total return: what the comparison
      of the stressed with the base run relies on. */
  lemma StressNeverHelps(base: Terms, high: real, cells: seq<Cell>, symbol: string)
    requires base.Valid() && base.stress < high && base.(stress := high).CostRate() < 1.0
    requires base.costs.Some? && base.costs.value.spreadBps + base.costs.value.slippageBps >= 0.0
    requires FitsExposure(base.risk) && QuietLimit(base.risk.dailyLossLimitPct, base.risk.dailyLossAction)
    requires ValidCells(cells, symbol)
    ensures var x, y := Outcome(base, cells), Outcome(base.(stress := high), cells);
            && NeverHelps(x, y)
            && (x.Ok? && cells != [] ==>
                  && |x.value.equity| == |y.value.equity| == |cells|
                  && x.value.equity[0] == y.value.equity[0] == base.initialCash
                  && TotalReturn(y.value.equity) <= TotalReturn(x.value.equity))
  {
    hide Rate, Step;
    StressRaisesRate(base.costs.value, base.stress, high);
    QuietSound(base.risk, base.costs, base.stress, high);
    var dear := base.(stress := high);
    assert dear == Terms(base.risk, base.costs, high, base.initialCash);
    assert base == Terms(base.risk, base.costs, base.stress, base.initialCash);
    var x, y := Outcome(base, cells), Outcome(dear, cells);
    assert NeverHelps(x, y);
    if x.Ok? && cells != [] {
      History(base, cells, 0, |cells|);
      FirstPoint(base, cells);
      FirstPoint(dear, cells);
      var n := |cells|;
      assert (x.value.equity[n - 1] - y.value.equity[n - 1]) / base.initialCash >= 0.0;
    }
  }

  // ----- The exposure limit, exactly

  /** A flat account may stake its share exactly up to some cash. */
  lemma AllowedIff(t: Terms, cash: real)
    requires t.risk.maxTotalExposurePct.Some?
    ensures ExposureAllows(t.risk, Stake(t, cash), cash, 0.0)
            <==> cash * (t.risk.positionSizePct - t.risk.maxTotalExposurePct.value) <= 100.0 * TOLERANCE
  {
    var size, limit := t.risk.positionSizePct, t.risk.maxTotalExposurePct.value;
    assert cash * (size - limit) == cash * size - cash * limit;
  }

  /** A share over the exposure limit, as large as the tolerance lets it be. */
  function Oversized(size: real, limit: real): Risk {
    Risk(0.0, 0.0, size, None, NoAction, None, Some(limit))
  }

  /** What a run with these settings has after the sale of a round trip that starts with all the limit
      allows. */
  lemma OversizedTrip(t: Terms, size: real, limit: real, o: real)
    requires t.Valid() && t.risk == Oversized(size, limit) && limit < size && o > 0.0 && t.CostRate() < 1.0
    requires t.initialCash * (size - limit) == 100.0 * TOLERANCE
    ensures var cells := RoundTrip(1.0, o, 1.0);
            && |cells| == 4 && ValidCells(cells, "A") && After(t, cells, 4).Ok?
            && var stake, kept := Stake(t, t.initialCash), 1.0 - t.CostRate();
               var cash := t.initialCash - stake + stake * kept * o * kept;
               |After(t, cells, 4).value.trades| == if cash * (size - limit) <= 100.0 * TOLERANCE then 3 else 2
  {
    hide Rate, After, RoundTrip, Stake, Worth, Position, Proceeds, ExposureAllows;
    var cells := RoundTrip(1.0, o, 1.0);
    RoundTripValid(1.0, o, 1.0);
    FourBars(1.0, o, 1.0);
    AllowedIff(t, t.initialCash);
    StakeBounds(t, t.initialCash);
    var stake, kept := Stake(t, t.initialCash), 1.0 - t.CostRate();
    Amounts(t, stake, 1.0, 0.0);
    var units := Position(t, stake, 1.0);
    Amounts(t, stake, 1.0, units);
    var cash := t.initialCash - stake + Proceeds(t, units, o);
    SaleOf(t, stake, kept, units, o);
    CalmTrip(t, 1.0, o, 1.0, units, cash);
    var a := After(t, cells, 3).value;
    AllowedIff(t, cash);
    if ExposureAllows(t.risk, Stake(t, cash), cash, 0.0) {
      TripEnds(t, 1.0, o, 1.0, a);
    } else {
      TripRefused(t, 1.0, o, 1.0, a);
    }
  }

  lemma SaleOf(t: Terms, stake: real, kept: real, units: real, o: real)
    requires stake > 0.0 && o > 0.0 && kept == 1.0 - t.CostRate() > 0.0 && units == stake * kept / 1.0
    ensures Proceeds(t, units, o) == stake * kept * o * kept
  {
    hide Rate;
    Amounts(t, stake, o, units);
  }

  /** The last bar of a round trip whose second entry the exposure limit refuses. */
  lemma TripRefused(t: Terms, c: real, o: real, z: real, a: Account)
    requires t.Valid() && c > 0.0 && o > 0.0 && z > 0.0
    requires t.risk.stopLossPct == 0.0 && t.risk.takeProfitPct == 0.0 && t.risk.dailyLossLimitPct.None?
    requires After(t, RoundTrip(c, o, z), 3) == Ok(a)
    requires a.units == 0.0 && a.pending.EntryOrder? && a.day == Some(0) && !a.blocked && !a.stopped
    requires !ExposureAllows(t.risk, Stake(t, a.cash), a.cash, 0.0)
    ensures After(t, RoundTrip(c, o, z), 4).Ok?
    ensures |After(t, RoundTrip(c, o, z), 4).value.trades| == |a.trades|
  {
    hide Rate, Step, AtOpen, Worth, Stake, ExposureAllows;
    var cells := RoundTrip(c, o, z);
    Refused(t, a, cells[3].bar);
    Closes(t, a, cells[3]);
    assert After(t, cells, 4) == Step(t, a, cells[3]);
  }

  /** A position over the exposure limit: the two runs start with all that the tolerance lets them
      stake, and sell where the dearer one is even. It may buy again and the cheaper one may not. */
  lemma ExposureLimitCanRefuseBase(costs: Option<CostModel>, low: real, high: real, size: real, limit: real)
    returns (cash: real, o: real)
    requires 0.0 <= low && 0.0 <= high && Rate(costs, low) < Rate(costs, high) < 1.0
    requires 0.0 < limit < size <= 100.0
    ensures cash > 0.0 && o > 0.0 && ValidCells(RoundTrip(1.0, o, 1.0), "A")
    ensures var risk, cells := Oversized(size, limit), RoundTrip(1.0, o, 1.0);
            var x, y := Outcome(Terms(risk, costs, low, cash), cells), Outcome(Terms(risk, costs, high, cash), cells);
            x.Ok? && y.Ok? && |x.value.trades| == 2 && |y.value.trades| == 3
  {
    hide Rate, After, RoundTrip, Stake;
    QuotientPositive(100.0 * TOLERANCE, size - limit);
    Quotient(100.0 * TOLERANCE, size - limit);
    cash := 100.0 * TOLERANCE / (size - limit);
    var risk := Oversized(size, limit);
    var x, y := Terms(risk, costs, low, cash), Terms(risk, costs, high, cash);
    var stake := Stake(x, cash);
    assert Stake(y, cash) == stake by {
      SameStake(x, y, cash);
    }
    StakeBounds(x, cash);
    o := EvenPrice(1.0 - x.CostRate(), 1.0 - y.CostRate(), stake, cash, size - limit);
    OversizedTrip(x, size, limit, o);
    OversizedTrip(y, size, limit, o);
  }

  lemma SameStake(x: Terms, y: Terms, cash: real)
    requires x.risk == y.risk
    ensures Stake(x, cash) == Stake(y, cash)
  {
  }

  /** The price at which a run that keeps the share `p` of each trade sells without loss or gain; one that
      keeps more gains. */
  lemma EvenPrice(q: real, p: real, stake: real, cash: real, over: real) returns (o: real)
    requires 0.0 < p < q && stake > 0.0 && over > 0.0
    ensures o > 0.0 && stake * p * o * p == stake < stake * q * o * q
    ensures (cash - stake + stake * p * o * p) * over == cash * over < (cash - stake + stake * q * o * q) * over
  {
    ProductPositive(p, p);
    QuotientPositive(1.0, p * p);
    Quotient(1.0, p * p);
    o := 1.0 / (p * p);
    assert p * o * p == 1.0;
    Gains(q, p, o);
    var gain := q * o * q - 1.0;
    ProductPositive(stake, gain);
    assert stake * q * o * q == stake * (1.0 + gain);
    assert stake * p * o * p == stake * (p * o * p);
    ProductPositive(stake * gain, over);
    var more := stake * q * o * q;
    assert (cash - stake + more) * over == cash * over + (more - stake) * over;
  }

  lemma Gains(q: real, p: real, o: real)
    requires 0.0 < p < q && o > 0.0 && p * o * p == 1.0
    ensures q * o * q > 1.0
  {
    ProductPositive(q - p, o);
    var a, b := q * o, p * o;
    assert (q - p) * o == a - b > 0.0;
    LessTimes(b, a, q);
    LessTimes(b, a, p);
    var small, middle, large := b * p, a * p, a * q;
    assert small < middle == b * q < large;
    assert small == 1.0 && large == q * o * q;
    assert 1.0 < large;
  }

  lemma LessTimes(b: real, a: real, factor: real)
    requires b < a && factor > 0.0
    ensures b * factor < a * factor
  {
    ProductPositive(a - b, factor);
  }

  /** Without a loss limit and at cost rates below one: the stressed comparison is sound for every run of
      every strategy with this position size and exposure limit if and only if the position fits. */
  lemma ExposureIff(costs: Option<CostModel>, low: real, high: real, size: real, exposure: Option<real>)
    requires 0.0 <= low && 0.0 <= high && Rate(costs, low) < Rate(costs, high) < 1.0
    requires 0.0 < size <= 100.0 && (exposure.Some? ==> 0.0 < exposure.value <= 100.0)
    ensures (forall risk: Risk | risk.Valid() && risk.dailyLossLimitPct.None? && risk.positionSizePct == size
            && risk.maxTotalExposurePct == exposure ::
               SoundFor(risk, costs, low, high))
            <==> exposure.None? || size <= exposure.value
  {
    hide Rate, Outcome, NeverHelps, RoundTrip;
    if exposure.None? || size <= exposure.value {
      forall risk: Risk | risk.Valid() && risk.dailyLossLimitPct.None? && risk.positionSizePct == size
          && risk.maxTotalExposurePct == exposure
        ensures SoundFor(risk, costs, low, high)
      {
        QuietSound(risk, costs, low, high);
      }
    } else {
      var cash, o := ExposureLimitCanRefuseBase(costs, low, high, size, exposure.value);
      var risk, cells := Oversized(size, exposure.value), RoundTrip(1.0, o, 1.0);
      Differ(Outcome(Terms(risk, costs, low, cash), cells), Outcome(Terms(risk, costs, high, cash), cells));
      assert !SoundFor(risk, costs, low, high);
    }
  }

  // ----- The cost rates, exactly

  /** Two accounts that differ in the costs of their trades only, when no buy ever brings a unit. */
  ghost predicate Twins(a: Account, b: Account) {
    && a.units == 0.0 && b == a.(trades := b.trades)
    && |a.trades| == |b.trades| && (forall k | 0 <= k < |a.trades| :: SameTrade(a.trades[k], b.trades[k]))
  }

  lemma TwinStep(x: Terms, y: Terms, a: Account, b: Account, cell: Cell)
    requires x.Valid() && y.Valid() && x.risk == y.risk && x.CostRate() >= 1.0 && y.CostRate() >= 1.0
    requires cell.bar.Valid() && Twins(a, b) && a.cash >= 0.0
    ensures var p, q := Step(x, a, cell), Step(y, b, cell);
            && (p.Err? <==> q.Err?)
            && (p.Err? ==> p.error == q.error)
            && (p.Ok? ==> Twins(p.value, q.value) && p.value.cash >= 0.0)
  {
    hide Rate, OpenDay, Fill, LossBreached, Worth, RiskExit;
    TwinOpen(x, y, a, b, cell.bar);
  }

  lemma TwinOpen(x: Terms, y: Terms, a: Account, b: Account, bar: Bar)
    requires x.Valid() && y.Valid() && x.risk == y.risk && x.CostRate() >= 1.0 && y.CostRate() >= 1.0
    requires bar.Valid() && Twins(a, b) && a.cash >= 0.0
    ensures Twins(AtOpen(x, a, bar), AtOpen(y, b, bar)) && AtOpen(x, a, bar).cash >= 0.0
  {
    hide Rate, CostOf, UnitsBought, Stake, LossBreached, ExposureAllows, Worth;
    StakeBounds(x, a.cash);
    SameStake(x, y, a.cash);
    NothingBought(x, Stake(x, a.cash), bar.open);
    NothingBought(y, Stake(y, a.cash), bar.open);
  }

  lemma NothingBought(t: Terms, stake: real, price: real)
    requires t.CostRate() >= 1.0 && stake >= 0.0 && price > 0.0
    ensures UnitsBought(stake, CostOf(t, stake), price) == 0.0
  {
    hide Rate;
    if stake > 0.0 {
      UnitsBoughtSign(t, stake, price);
    }
  }

  lemma {:induction false} TwinRuns(x: Terms, y: Terms, cells: seq<Cell>, symbol: string, n: nat)
    requires x.Valid() && y.Valid() && x.risk == y.risk && x.CostRate() >= 1.0 && y.CostRate() >= 1.0
    requires x.initialCash == y.initialCash && ValidCells(cells, symbol) && n <= |cells|
    ensures var p, q := After(x, cells, n), After(y, cells, n);
            && (p.Err? <==> q.Err?)
            && (p.Err? ==> p.error == q.error)
            && (p.Ok? ==> Twins(p.value, q.value) && p.value.cash >= 0.0)
  {
    hide Rate, Step;
    if n > 0 {
      TwinRuns(x, y, cells, symbol, n - 1);
      var p, q := After(x, cells, n - 1), After(y, cells, n - 1);
      if p.Ok? {
        TwinStep(x, y, p.value, q.value, cells[n - 1]);
      }
    }
  }

  /** An entry is asked for at the first two of three bars that stand still. */
  function TwoEntries(): seq<Cell> {
    [ Cell(Quote(0, 1.0, 1.0), Ok(true), Ok(false)),
      Cell(Quote(1, 1.0, 1.0), Ok(true), Ok(false)),
      Cell(Quote(2, 1.0, 1.0), Ok(false), Ok(false)) ]
  }

  lemma TwoEntriesStart(t: Terms)
    requires t.Valid() && t.risk.dailyLossLimitPct.None?
    ensures After(t, TwoEntries(), 1)
         == Ok(Account(t.initialCash, 0.0, 0.0, EntryOrder, Some(0), t.initialCash, false, false, [], [t.initialCash]))
  {
    hide Step, Rate;
    var cells := TwoEntries();
    assert After(t, cells, 0) == Ok(Start(t));
    assert After(t, cells, 1) == Step(t, Start(t), cells[0]);
    FirstStep(t, cells[0]);
  }

  /** A run at a rate below one buys once: while it holds units no entry rule is asked. At a rate of one
      or more it holds nothing, and buys again. */
  lemma TwoEntriesTrades(t: Terms)
    requires t.Valid() && t.risk == AllIn(None, NoAction)
    ensures After(t, TwoEntries(), 3).Ok?
    ensures |After(t, TwoEntries(), 3).value.trades| == if t.CostRate() < 1.0 then 1 else 2
  {
    hide Rate, Step, AtOpen, Worth, Stake, Position;
    var cells := TwoEntries();
    TwoEntriesStart(t);
    var one := After(t, cells, 1).value;
    WholeStake(t, one.cash);
    PositionSign(t, one.cash);
    Buys(t, one, cells[1].bar);
    Closes(t, one, cells[1]);
    assert After(t, cells, 2) == Step(t, one, cells[1]);
    var two := After(t, cells, 2).value;
    assert After(t, cells, 3) == Step(t, two, cells[2]);
    Closes(t, two, cells[2]);
    if t.CostRate() < 1.0 {
      Waits(t, two, cells[2].bar);
    } else {
      WholeStake(t, two.cash);
      Buys(t, two, cells[2].bar);
    }
  }

  /** Without a loss limit and with positions inside the exposure limit: the stressed comparison is sound
      for every run of every strategy if and only if both rates are below one or neither is. */
  lemma RateIff(costs: Option<CostModel>, low: real, high: real)
    requires 0.0 <= low && 0.0 <= high && Rate(costs, low) < Rate(costs, high)
    ensures (forall risk: Risk | risk.Valid() && FitsExposure(risk) && risk.dailyLossLimitPct.None? ::
            SoundFor(risk, costs, low, high))
            <==> Rate(costs, high) < 1.0 || Rate(costs, low) >= 1.0
  {
    hide Rate, After, NeverHelps, TwoEntries;
    if Rate(costs, high) < 1.0 || Rate(costs, low) >= 1.0 {
      forall risk: Risk | risk.Valid() && FitsExposure(risk) && risk.dailyLossLimitPct.None?
        ensures SoundFor(risk, costs, low, high)
      {
        if Rate(costs, high) < 1.0 {
          QuietSound(risk, costs, low, high);
        } else {
          RuinSound(risk, costs, low, high);
        }
      }
    } else {
      var risk, cells := AllIn(None, NoAction), TwoEntries();
      var x, y := Terms(risk, costs, low, 1.0), Terms(risk, costs, high, 1.0);
      TwoEntriesValid();
      TwoEntriesTrades(x);
      TwoEntriesTrades(y);
      Differ(Outcome(x, cells), Outcome(y, cells));
      assert !SoundFor(risk, costs, low, high);
    }
  }

  lemma PositionSign(t: Terms, stake: real)
    requires stake > 0.0
    ensures if t.CostRate() < 1.0 then Position(t, stake, 1.0) > 0.0 else Position(t, stake, 1.0) == 0.0
  {
    hide Rate;
    UnitsBoughtSign(t, stake, 1.0);
  }

  lemma TwoEntriesValid()
    ensures |TwoEntries()| == 3 && ValidCells(TwoEntries(), "A")
  {
  }

  /** When costs take every notional whole, a higher stress changes nothing. */
  lemma RuinSound(risk: Risk, costs: Option<CostModel>, low: real, high: real)
    requires 0.0 <= low && 0.0 <= high && 1.0 <= Rate(costs, low) && 1.0 <= Rate(costs, high) && risk.Valid()
    ensures SoundFor(risk, costs, low, high)
  {
    hide Rate, After;
    forall cash: real, cells: seq<Cell>, symbol: string | cash > 0.0 && ValidCells(cells, symbol)
      ensures NeverHelps(Outcome(Terms(risk, costs, low, cash), cells), Outcome(Terms(risk, costs, high, cash), cells))
    {
      TwinRuns(Terms(risk, costs, low, cash), Terms(risk, costs, high, cash), cells, symbol, |cells|);
    }
  }
}
