/** The comparison of a stressed with a plain run over many symbols. Every entry stakes the same allotment,
    so that dearer costs alone can leave too little cash for one: the comparison is sound only where costs
    take every notional whole. */
module MultiStress {
  import opened Prelude
  import opened Costs
  import opened Strategy
  import opened Market
  import opened MultiEngine
  import opened LoneSymbol
  import SS = StressSoundness
  import SingleTwoRuns
  import MultiLimits

  /** The dearer run `y` fails as `x` does, or makes the same trades at the same times and prices and is
      never richer. */
  ghost predicate NeverHelps(x: Result<Desk, RuleError>, y: Result<Desk, RuleError>) {
    && (x.Err? <==> y.Err?)
    && (x.Err? ==> x.error == y.error)
    && (x.Ok? ==>
          && SameTrades(x.value.trades, y.value.trades)
          && |x.value.equity| == |y.value.equity|
          && forall k | 0 <= k < |x.value.equity| :: y.value.equity[k] <= x.value.equity[k])
  }

  ghost predicate SameTrades(x: seq<Trade>, y: seq<Trade>) {
    |x| == |y| && forall k | 0 <= k < |x| :: SingleTwoRuns.SameTrade(x[k], y[k])
  }

  function Whole(t: Terms, firstCloses: seq<real>, tape: seq<Tick>, symbols: seq<string>): Result<Desk, RuleError>
    requires ValidTape(tape, symbols) && |firstCloses| == |symbols|
  {
    After(t, firstCloses, tape, symbols, |tape|)
  }

  /** Every run of a strategy with this risk over these symbols: any cash, any bars, any rules. */
  ghost predicate SoundFor(risk: Risk, costs: Option<CostModel>, low: real, high: real, symbols: seq<string>) {
    forall cash: real, firstCloses: seq<real>, tape: seq<Tick> |
      cash > 0.0 && |firstCloses| == |symbols| && ValidTape(tape, symbols) ::
      NeverHelps(Whole(Terms(risk, costs, low, cash), firstCloses, tape, symbols),
                 Whole(Terms(risk, costs, high, cash), firstCloses, tape, symbols))
  }

  // ----- Costs that take every notional whole

  /** Two desks without units, that differ in the costs of their trades only. */
  ghost predicate Twins(a: Desk, b: Desk) {
    && b == a.(trades := b.trades) && SameTrades(a.trades, b.trades)
    && forall k | 0 <= k < |a.slots| :: a.slots[k].units == 0.0
  }

  lemma BuyOneTwins(x: Terms, y: Terms, a: Desk, b: Desk, tick: Tick, k: nat)
    requires x.Valid() && x.risk == y.risk && x.initialCash == y.initialCash && x.CostRate() >= 1.0
             && y.CostRate() >= 1.0
    requires Twins(a, b) && k < |tick| == |a.slots| && (tick[k].Some? ==> tick[k].value.bar.open > 0.0)
    ensures Twins(BuyOne(x, a, tick, k), BuyOne(y, b, tick, k))
  {
    hide Rate, CostOf, UnitsBought, Allotment, Exposure, Holding, ExposureAllows;
    if tick[k].Some? {
      var stake, open := Allotment(x, |a.slots|), tick[k].value.bar.open;
      SameAllotment(x, y, |a.slots|);
      SS.NothingBought(x, stake, open);
      SS.NothingBought(y, stake, open);
    }
  }

  lemma SameAllotment(x: Terms, y: Terms, n: nat)
    requires n > 0 && x.Valid() && x.risk == y.risk && x.initialCash == y.initialCash
    ensures Allotment(x, n) == Allotment(y, n) > 0.0
  {
    MultiLimits.AllotmentPositive(x, n);
  }

  lemma {:induction false} SellAllTwins(t: Terms, a: Desk, b: Desk, tick: Tick, n: nat)
    requires Twins(a, b) && n <= |tick| == |a.slots|
    ensures SellAll(t, a, tick, n) == a && SellAll(t, b, tick, n) == b
  {
    if n > 0 {
      SellAllTwins(t, a, b, tick, n - 1);
    }
  }

  lemma {:induction false} BuyAllTwins(x: Terms, y: Terms, a: Desk, b: Desk, tick: Tick, n: nat)
    requires x.Valid() && x.risk == y.risk && x.initialCash == y.initialCash && x.CostRate() >= 1.0
             && y.CostRate() >= 1.0
    requires Twins(a, b) && n <= |tick| == |a.slots| == |b.slots|
    requires forall k | 0 <= k < |tick| && tick[k].Some? :: tick[k].value.bar.open > 0.0
    ensures Twins(BuyAll(x, a, tick, n), BuyAll(y, b, tick, n))
  {
    hide BuyOne, Rate, Twins;
    if n > 0 {
      BuyAllTwins(x, y, a, b, tick, n - 1);
      BuyOneTwins(x, y, BuyAll(x, a, tick, n - 1), BuyAll(y, b, tick, n - 1), tick, n - 1);
    }
  }

  lemma {:induction false} DecideAllTwins(x: Terms, y: Terms, a: Desk, b: Desk, tick: Tick, n: nat)
    requires x.risk == y.risk && Twins(a, b) && n <= |tick| == |a.slots|
    ensures var p, q := DecideAll(x, a, tick, n), DecideAll(y, b, tick, n);
            match (p, q)
            case (Ok(e), Ok(f)) => Twins(e, f)
            case (Err(e), Err(f)) => e == f
            case _ => false
  {
    hide RiskExit;
    if n > 0 {
      DecideAllTwins(x, y, a, b, tick, n - 1);
    }
  }

  lemma StepTwins(x: Terms, y: Terms, a: Desk, b: Desk, tick: Tick, symbols: seq<string>)
    requires x.Valid() && x.risk == y.risk && x.initialCash == y.initialCash && x.CostRate() >= 1.0
             && y.CostRate() >= 1.0
    requires ValidTick(tick, symbols) && |a.slots| == |symbols| && Twins(a, b)
    ensures var p, q := Step(x, a, tick), Step(y, b, tick);
            match (p, q)
            case (Ok(e), Ok(f)) => Twins(e, f)
            case (Err(e), Err(f)) => e == f
            case _ => false
  {
    hide Rate, SellAll, BuyAll, DecideAll, LossBreached, Exposure, CloseValue;
    var o, p := OpenTick(x, a, tick), OpenTick(y, b, tick);
    SellAllTwins(x, o, p, tick, |tick|);
    SellAllTwins(y, o, p, tick, |tick|);
    BuyAllTwins(x, y, o, p, tick, |tick|);
    DecideAllTwins(x, y, AtOpen(x, a, tick), AtOpen(y, b, tick), tick, |tick|);
  }

  lemma {:induction false} TwinRuns(x: Terms, y: Terms, firstCloses: seq<real>, tape: seq<Tick>, symbols: seq<string>,
                                    n: nat)
    requires x.Valid() && x.risk == y.risk && x.initialCash == y.initialCash && x.CostRate() >= 1.0
             && y.CostRate() >= 1.0
    requires ValidTape(tape, symbols) && |firstCloses| == |symbols| && n <= |tape|
    ensures var p, q := After(x, firstCloses, tape, symbols, n), After(y, firstCloses, tape, symbols, n);
            match (p, q)
            case (Ok(e), Ok(f)) => Twins(e, f)
            case (Err(e), Err(f)) => e == f
            case _ => false
  {
    hide Rate, Step;
    if n > 0 {
      TwinRuns(x, y, firstCloses, tape, symbols, n - 1);
      var p, q := After(x, firstCloses, tape, symbols, n - 1), After(y, firstCloses, tape, symbols, n - 1);
      if p.Ok? {
        StepTwins(x, y, p.value, q.value, tape[n - 1], symbols);
      }
    }
  }

  /** When costs take every notional whole, a higher stress changes nothing, under any risk settings. */
  lemma RuinSound(risk: Risk, costs: Option<CostModel>, low: real, high: real, symbols: seq<string>)
    requires 0.0 <= low && 1.0 <= Rate(costs, low) && 1.0 <= Rate(costs, high) && risk.Valid()
    ensures SoundFor(risk, costs, low, high, symbols)
  {
    hide Rate, After;
    forall cash: real, firstCloses: seq<real>, tape: seq<Tick> |
      cash > 0.0 && |firstCloses| == |symbols| && ValidTape(tape, symbols)
      ensures NeverHelps(Whole(Terms(risk, costs, low, cash), firstCloses, tape, symbols),
                         Whole(Terms(risk, costs, high, cash), firstCloses, tape, symbols))
    {
      TwinRuns(Terms(risk, costs, low, cash), Terms(risk, costs, high, cash), firstCloses, tape, symbols, |tape|);
    }
  }

  // ----- A strategy that trades one symbol over and over

  /** A bar that stands still. */
  function Quote(time: int, symbol: string, price: real): Bar {
    Bar(time, time, 0, symbol, price, price, price, price, 0.0)
  }

  /** The first symbol is bought at one in the odd ticks and sold at `o` in the even ones; the other symbols
      have a bar in the first tick only. */
  function CycleTick(symbols: seq<string>, o: real, m: nat): (r: Tick)
    ensures |r| == |symbols|
  {
    seq(|symbols|, l requires 0 <= l < |symbols| =>
      if l == 0 then Some(Cell(Quote(m, symbols[l], if m % 2 == 0 && m > 0 then o else 1.0), Ok(m % 2 == 0),
          Ok(m % 2 == 1)))
      else if m == 0 then Some(Cell(Quote(m, symbols[l], 1.0), Ok(false), Ok(false)))
      else None)
  }

  function CycleTape(symbols: seq<string>, o: real, n: nat): (r: seq<Tick>)
    ensures |r| == n
  {
    seq(n, m requires 0 <= m < n => CycleTick(symbols, o, m))
  }

  lemma CycleValid(symbols: seq<string>, o: real, n: nat)
    requires |symbols| > 0 && o > 0.0 && forall s | s in symbols :: s != ""
    ensures ValidTape(CycleTape(symbols, o, n), symbols)
  {
    forall m | 0 <= m < n
      ensures ValidTick(CycleTick(symbols, o, m), symbols)
    {
      assert CycleTick(symbols, o, m)[0].Some?;
      assert forall l | 0 <= l < |symbols| :: symbols[l] in symbols;
    }
  }

  /** What one trip through the first symbol costs. */
  function TripLoss(t: Terms, symbols: nat, o: real): real
    requires symbols > 0
  {
    var stake := Allotment(t, symbols);
    stake - SS.Proceeds(t, SS.Position(t, stake, 1.0), o)
  }

  function Left(t: Terms, symbols: nat, o: real, b: nat): real
    requires symbols > 0
  {
    t.initialCash - (b as real) * TripLoss(t, symbols, o)
  }

  predicate Affords(t: Terms, symbols: nat, o: real, b: nat)
    requires symbols > 0
  {
    Left(t, symbols, o, b) + TOLERANCE >= Allotment(t, symbols)
  }

  /** After an even tick and `b` trips: nothing is held, and the entry is ordered. */
  ghost predicate Rests(t: Terms, d: Desk, symbols: nat, o: real, b: nat)
    requires |d.slots| == symbols > 0
  {
    && Alone(d, 0) && d.slots[0].units == 0.0 && d.slots[0].pending.EntryOrder?
    && d.cash == Left(t, symbols, o, b) && |d.trades| == 2 * b
  }

  /** After an odd tick: the symbol is held and its exit ordered. */
  ghost predicate Holds(t: Terms, d: Desk, symbols: nat, o: real, b: nat)
    requires |d.slots| == symbols > 0
  {
    && Alone(d, 0) && d.slots[0].units == SS.Position(t, Allotment(t, symbols), 1.0) > 0.0
        && d.slots[0].pending.ExitOrder?
    && d.cash == Left(t, symbols, o, b) - Allotment(t, symbols) && |d.trades| == 2 * b + 1
  }

  /** After an odd tick without a purchase. */
  ghost predicate Passes(t: Terms, d: Desk, symbols: nat, o: real, b: nat)
    requires |d.slots| == symbols > 0
  {
    && Alone(d, 0) && d.slots[0].units == 0.0 && d.slots[0].pending.NoOrder?
    && d.cash == Left(t, symbols, o, b) && |d.trades| == 2 * b
  }

  ghost predicate Cycling(t: Terms, symbols: seq<string>, o: real) {
    t.Valid() && NoLimits(t.risk) && |symbols| > 0 && o > 0.0 && forall s | s in symbols :: s != ""
  }

  lemma CycleTicks(symbols: seq<string>, o: real, m: nat)
    requires |symbols| > 0 && o > 0.0 && forall s | s in symbols :: s != ""
    ensures var tick := CycleTick(symbols, o, m);
            && ValidTick(tick, symbols) && Silent(tick, 0) && tick[0].Some?
            && tick[0].value.entry == Ok(m % 2 == 0) && tick[0].value.exit == Ok(m % 2 == 1)
            && tick[0].value.bar.open == if m % 2 == 0 && m > 0 then o else 1.0
  {
    CycleValid(symbols, o, m + 1);
    assert CycleTape(symbols, o, m + 1)[m] == CycleTick(symbols, o, m);
  }

  lemma FirstTick(t: Terms, firstCloses: seq<real>, symbols: seq<string>, o: real)
    requires Cycling(t, symbols, o) && |firstCloses| == |symbols| && ValidTick(CycleTick(symbols, o, 0), symbols)
    ensures var e := Step(t, Start(t, firstCloses), CycleTick(symbols, o, 0));
            e.Ok? && Rests(t, e.value, |symbols|, o, 0)
  {
    hide Step, TripLoss;
    CycleTicks(symbols, o, 0);
    LoneWaits(t, Start(t, firstCloses), CycleTick(symbols, o, 0), symbols, 0);
  }

  lemma OddTick(t: Terms, d: Desk, symbols: seq<string>, o: real, b: nat, m: nat)
    requires Cycling(t, symbols, o) && t.CostRate() < 1.0 && m % 2 == 1 && ValidTick(CycleTick(symbols, o, m), symbols)
    requires |d.slots| == |symbols| && Rests(t, d, |symbols|, o, b)
    ensures var e := Step(t, d, CycleTick(symbols, o, m));
            && e.Ok?
            && if Affords(t, |symbols|, o, b) then Holds(t, e.value, |symbols|, o, b)
                else Passes(t, e.value, |symbols|, o, b)
  {
    hide Step, Rate, Allotment, UnitsBought, CostOf, Left, CycleTick, Alone, Silent;
    CycleTicks(symbols, o, m);
    var tick, stake := CycleTick(symbols, o, m), Allotment(t, |symbols|);
    MultiLimits.AllotmentPositive(t, |symbols|);
    if Affords(t, |symbols|, o, b) {
      LoneBuys(t, d, tick, symbols, 0);
      SS.PositionSign(t, stake);
    } else {
      LoneLapses(t, d, tick, symbols, 0);
    }
  }

  lemma EvenTick(t: Terms, d: Desk, symbols: seq<string>, o: real, b: nat, m: nat)
    requires Cycling(t, symbols, o) && m % 2 == 0 && m > 0 && ValidTick(CycleTick(symbols, o, m), symbols)
    requires |d.slots| == |symbols| && (Holds(t, d, |symbols|, o, b) || Passes(t, d, |symbols|, o, b))
    ensures var e := Step(t, d, CycleTick(symbols, o, m));
            && e.Ok?
            && Rests(t, e.value, |symbols|, o, if Holds(t, d, |symbols|, o, b) then b + 1 else b)
  {
    hide Step, Rate, Allotment, CostOf, Value, CycleTick, Alone, Silent, SS.Position;
    CycleTicks(symbols, o, m);
    var tick := CycleTick(symbols, o, m);
    if Holds(t, d, |symbols|, o, b) {
      LoneSells(t, d, tick, symbols, 0);
      NextLeft(t, |symbols|, o, b);
    } else {
      LoneWaits(t, d, tick, symbols, 0);
    }
  }

  lemma NextLeft(t: Terms, symbols: nat, o: real, b: nat)
    requires symbols > 0
    ensures Left(t, symbols, o, b + 1) == Left(t, symbols, o, b) - TripLoss(t, symbols, o)
  {
    hide TripLoss;
    var loss := TripLoss(t, symbols, o);
    assert ((b + 1) as real) * loss == (b as real) * loss + loss;
  }

  /** After `2 * j + 1` ticks the run has made at most `j` trips, and just `j` if it could afford each. */
  lemma {:induction false} CycleRun(t: Terms, firstCloses: seq<real>, symbols: seq<string>, o: real, n: nat, j: nat)
    returns (b: nat)
    requires Cycling(t, symbols, o) && t.CostRate() < 1.0 && |firstCloses| == |symbols| && 2 * j + 1 <= n
    requires ValidTape(CycleTape(symbols, o, n), symbols)
    ensures After(t, firstCloses, CycleTape(symbols, o, n), symbols, 2 * j + 1).Ok?
    ensures Rests(t, After(t, firstCloses, CycleTape(symbols, o, n), symbols, 2 * j + 1).value, |symbols|, o, b)
    ensures b <= j && ((forall i | 0 <= i < j :: Affords(t, |symbols|, o, i)) ==> b == j)
  {
    hide Step, Rate, Rests, Holds, Passes, Affords, CycleTick, ValidTick;
    var tape := CycleTape(symbols, o, n);
    if j == 0 {
      assert tape[0] == CycleTick(symbols, o, 0);
      FirstTick(t, firstCloses, symbols, o);
      AfterNext(t, firstCloses, tape, symbols, 0);
      b := 0;
    } else {
      b := CycleRun(t, firstCloses, symbols, o, n, j - 1);
      var d := After(t, firstCloses, tape, symbols, 2 * j - 1).value;
      assert tape[2 * j - 1] == CycleTick(symbols, o, 2 * j - 1) && tape[2 * j] == CycleTick(symbols, o, 2 * j);
      OddTick(t, d, symbols, o, b, 2 * j - 1);
      AfterNext(t, firstCloses, tape, symbols, 2 * j - 1);
      var e := After(t, firstCloses, tape, symbols, 2 * j).value;
      EvenTick(t, e, symbols, o, b, 2 * j);
      AfterNext(t, firstCloses, tape, symbols, 2 * j);
      HoldsOrPasses(t, e, |symbols|, o, b);
      b := if Holds(t, e, |symbols|, o, b) then b + 1 else b;
    }
  }

  lemma AfterNext(t: Terms, firstCloses: seq<real>, tape: seq<Tick>, symbols: seq<string>, n: nat)
    requires ValidTape(tape, symbols) && |firstCloses| == |symbols| && n < |tape|
             && After(t, firstCloses, tape, symbols, n).Ok?
    ensures After(t, firstCloses, tape, symbols, n + 1) == Step(t, After(t, firstCloses, tape, symbols, n).value,
            tape[n])
    ensures After(t, firstCloses, tape, symbols, 0) == Ok(Start(t, firstCloses))
  {
    hide Step;
  }

  lemma HoldsOrPasses(t: Terms, d: Desk, symbols: nat, o: real, b: nat)
    requires |d.slots| == symbols > 0
    ensures !(Holds(t, d, symbols, o, b) && Passes(t, d, symbols, o, b))
  {
  }

  /** The run over `2 * j + 2` ticks ends with one more purchase if it can afford it. */
  lemma CycleEnds(t: Terms, firstCloses: seq<real>, symbols: seq<string>, o: real, j: nat) returns (b: nat)
    requires Cycling(t, symbols, o) && t.CostRate() < 1.0 && |firstCloses| == |symbols|
    requires ValidTape(CycleTape(symbols, o, 2 * j + 2), symbols)
    ensures var end := Whole(t, firstCloses, CycleTape(symbols, o, 2 * j + 2), symbols);
            end.Ok? && |end.value.trades| == 2 * b + if Affords(t, |symbols|, o, b) then 1 else 0
    ensures b <= j && ((forall i | 0 <= i < j :: Affords(t, |symbols|, o, i)) ==> b == j)
  {
    hide Step, Rate, Affords, CycleTick, ValidTick, Alone, Left, Allotment;
    var n := 2 * j + 2;
    var tape := CycleTape(symbols, o, n);
    b := CycleRun(t, firstCloses, symbols, o, n, j);
    var d := After(t, firstCloses, tape, symbols, 2 * j + 1).value;
    assert tape[2 * j + 1] == CycleTick(symbols, o, 2 * j + 1);
    OddTick(t, d, symbols, o, b, 2 * j + 1);
    AfterNext(t, firstCloses, tape, symbols, 2 * j + 1);
  }

  // ----- Cash that the plain run just has, and the dearer one has not

  /** The share of the cash that is the allotment, once over. */
  function Times(symbols: nat, size: real): real
    requires size > 0.0
  {
    100.0 * (symbols as real) / size
  }

  lemma AllotmentOf(t: Terms, symbols: nat, stake: real)
    requires symbols > 0 && t.risk.positionSizePct > 0.0 && t.initialCash
             == stake * Times(symbols, t.risk.positionSizePct)
    ensures Allotment(t, symbols) == stake
  {
    var n, size, k := symbols as real, t.risk.positionSizePct, Times(symbols, t.risk.positionSizePct);
    assert k * size == 100.0 * n by {
      SS.Quotient(100.0 * n, size);
    }
    assert stake * k * size == stake * (100.0 * n) by {
      Regroup(stake, k, size);
    }
    assert t.initialCash / n * size == t.initialCash * size / n;
    assert t.initialCash * size == 100.0 * stake * n;
    assert 100.0 * stake * n / n == 100.0 * stake by {
      Cancel(100.0 * stake, n);
    }
  }

  lemma Regroup(a: real, b: real, c: real)
    ensures a * b * c == a * (b * c)
  {
  }

  lemma Cancel(a: real, n: real)
    requires n > 0.0
    ensures a * n / n == a
  {
  }

  /** The cash is the allotment twice over, or more, as soon as there are two symbols. */
  lemma TimesAtLeast(symbols: nat, size: real)
    requires symbols >= 2 && 0.0 < size <= 100.0
    ensures Times(symbols, size) >= 2.0
  {
    var n := symbols as real;
    SS.Quotient(100.0 * n, size);
    var k := Times(symbols, size);
    if k < 2.0 {
      SS.LessTimes(k, 2.0, size);
    }
  }

  /** The loss of a trip of a run that keeps the share `kept` of every trade. */
  lemma TripLossOf(t: Terms, symbols: nat, o: real, stake: real, kept: real)
    requires symbols > 0 && o > 0.0 && stake > 0.0 && Allotment(t, symbols) == stake && kept == 1.0 - t.CostRate() > 0.0
    ensures TripLoss(t, symbols, o) == stake - stake * (kept * o * kept)
  {
    hide Rate;
    SS.Amounts(t, stake, 1.0, 0.0);
    var units := SS.Position(t, stake, 1.0);
    assert units == stake * kept by {
      Divided(stake * kept);
    }
    SS.Amounts(t, stake, o, units);
    assert units * o * kept == stake * (kept * o * kept);
  }

  lemma Divided(a: real)
    ensures a / 1.0 == a
  {
  }

  /** How many trips there are, which part of an allotment comes back from each trip of the plain run and of
      the dearer one, the price that makes it so, and the allotment. */
  lemma Drain(k: real, q: real, p: real) returns (trips: nat, back: real, less: real, o: real, stake: real)
    requires k >= 2.0 && 0.0 < p < q
    ensures trips >= 1 && (trips as real) * (1.0 - back) == k - 1.0
    ensures o > 0.0 && back == q * o * q && less == p * o * p && less < back < 1.0
    ensures stake > 0.0 && stake * (back - less) == 2.0 * TOLERANCE
  {
    trips := k.Floor + 1;
    var m := trips as real;
    assert m > k - 1.0 > 0.0;
    SS.Quotient(k - 1.0, m);
    var part := (k - 1.0) / m;
    SS.QuotientPositive(k - 1.0, m);
    assert part < 1.0 by {
      if part >= 1.0 {
        ProductNotNegative(m, part - 1.0);
      }
    }
    back := 1.0 - part;
    ProductPositive(q, q);
    SS.QuotientPositive(back, q * q);
    SS.Quotient(back, q * q);
    o := back / (q * q);
    assert q * o * q == back by {
      Around(q, o);
    }
    less := p * o * p;
    assert less < back by {
      Narrower(q, p, o);
    }
    SS.QuotientPositive(2.0 * TOLERANCE, back - less);
    SS.Quotient(2.0 * TOLERANCE, back - less);
    stake := 2.0 * TOLERANCE / (back - less);
  }

  lemma Around(q: real, o: real)
    ensures q * o * q == q * q * o
  {
  }

  lemma Narrower(q: real, p: real, o: real)
    requires 0.0 < p < q && o > 0.0
    ensures p * o * p < q * o * q
  {
    SS.LessTimes(p, q, o);
    SS.LessTimes(p * o, q * o, p);
    SS.LessTimes(p, q, q * o);
    assert q * o * p == p * (q * o) && q * (q * o) == q * o * q;
  }

  /** With these numbers the plain run can afford every entry, and the dearer one not the last. */
  lemma DrainAffords(t: Terms, symbols: nat, size: real, o: real, stake: real, trips: nat, back: real, kept: real,
                     i: nat)
    requires symbols >= 2 && t.Valid() && t.risk.positionSizePct == size && stake > 0.0 && o > 0.0
    requires t.initialCash == stake * Times(symbols, size) && kept == 1.0 - t.CostRate() > 0.0
    requires kept * o * kept == back && (trips as real) * (1.0 - back) <= Times(symbols, size) - 1.0 && back < 1.0
             && i <= trips
    ensures Affords(t, symbols, o, i)
  {
    hide Rate, TripLoss, Times, Allotment;
    AllotmentOf(t, symbols, stake);
    TripLossOf(t, symbols, o, stake, kept);
    var loss, k := TripLoss(t, symbols, o), Times(symbols, size);
    assert loss == stake * (1.0 - back);
    assert (i as real) * (1.0 - back) <= (trips as real) * (1.0 - back) by {
      ProductNotNegative((trips - i) as real, 1.0 - back);
      assert ((trips - i) as real) * (1.0 - back) == (trips as real) * (1.0 - back) - (i as real) * (1.0 - back);
    }
    var spent := (i as real) * (1.0 - back);
    ProductNotNegative(stake, k - 1.0 - spent);
    assert stake * (k - 1.0 - spent) == stake * k - stake - stake * spent;
    assert (i as real) * loss == stake * spent;
  }

  lemma DrainRefuses(t: Terms, symbols: nat, size: real, o: real, stake: real, trips: nat, back: real, less: real,
                     kept: real)
    requires symbols >= 2 && t.Valid() && t.risk.positionSizePct == size && stake > 0.0 && o > 0.0 && trips >= 1
    requires t.initialCash == stake * Times(symbols, size) && kept == 1.0 - t.CostRate() > 0.0
    requires kept * o * kept == less && (trips as real) * (1.0 - back) == Times(symbols, size) - 1.0
    requires stake * (back - less) == 2.0 * TOLERANCE
    ensures !Affords(t, symbols, o, trips)
  {
    hide Rate, TripLoss, Times, Allotment;
    AllotmentOf(t, symbols, stake);
    TripLossOf(t, symbols, o, stake, kept);
    var loss, k, m := TripLoss(t, symbols, o), Times(symbols, size), trips as real;
    assert loss == stake * (1.0 - back) + 2.0 * TOLERANCE;
    assert m * loss == m * (stake * (1.0 - back)) + m * (2.0 * TOLERANCE);
    assert m * (stake * (1.0 - back)) == stake * (m * (1.0 - back));
    assert stake * (k - 1.0) == stake * k - stake;
    ProductNotNegative(m - 1.0, 2.0 * TOLERANCE);
  }

  function OpenRisk(size: real): Risk {
    Risk(0.0, 0.0, size, None, NoAction, None, None)
  }

  /** At any two rates below one and at any position size: a run of a strategy without limits in which the
      dearer account is refused an entry that the other one makes. */
  lemma AllotmentCanRefuseDear(costs: Option<CostModel>, low: real, high: real, size: real, symbols: seq<string>)
    returns (cash: real, closes: seq<real>, tape: seq<Tick>)
    requires 0.0 <= low && 0.0 <= high && Rate(costs, low) < Rate(costs, high) < 1.0
    requires 0.0 < size <= 100.0 && |symbols| >= 2 && forall s | s in symbols :: s != ""
    ensures cash > 0.0 && |closes| == |symbols| && ValidTape(tape, symbols)
    ensures var x, y := Whole(Terms(OpenRisk(size), costs, low, cash), closes, tape, symbols),
                        Whole(Terms(OpenRisk(size), costs, high, cash), closes, tape, symbols);
            x.Ok? && y.Ok? && |y.value.trades| < |x.value.trades|
  {
    hide Rate, Whole, CycleTape, ValidTick, Affords, Times;
    TimesAtLeast(|symbols|, size);
    var risk, k, q, p := OpenRisk(size), Times(|symbols|, size), 1.0 - Rate(costs, low), 1.0 - Rate(costs, high);
    var trips, back, less, o, stake := Drain(k, q, p);
    ProductPositive(stake, k);
    cash, closes := stake * k, seq(|symbols|, _ => 1.0);
    var x, y := Terms(risk, costs, low, cash), Terms(risk, costs, high, cash);
    tape := CycleTape(symbols, o, 2 * trips + 2);
    CycleValid(symbols, o, 2 * trips + 2);
    forall i: nat | i <= trips
      ensures Affords(x, |symbols|, o, i)
    {
      DrainAffords(x, |symbols|, size, o, stake, trips, back, q, i);
    }
    DrainRefuses(y, |symbols|, size, o, stake, trips, back, less, p);
    var a := CycleEnds(x, closes, symbols, o, trips);
    var b := CycleEnds(y, closes, symbols, o, trips);
  }

  /** Where the stressed costs alone take a notional whole: the plain run makes a trip while the other one buys
      nothing, which it cannot sell. */
  lemma RuinedTrip(costs: Option<CostModel>, low: real, high: real, size: real, symbols: seq<string>)
    returns (cash: real, closes: seq<real>, tape: seq<Tick>)
    requires 0.0 <= low && 0.0 <= high && Rate(costs, low) < 1.0 <= Rate(costs, high)
    requires 0.0 < size <= 100.0 && |symbols| > 0 && forall s | s in symbols :: s != ""
    ensures cash > 0.0 && |closes| == |symbols| && ValidTape(tape, symbols)
    ensures var x, y := Whole(Terms(OpenRisk(size), costs, low, cash), closes, tape, symbols),
                        Whole(Terms(OpenRisk(size), costs, high, cash), closes, tape, symbols);
            x.Ok? && y.Ok? && |x.value.trades| == 2 && |y.value.trades| == 1
  {
    hide Rate, CycleTick, ValidTick, Affords, Allotment;
    cash, closes, tape := 1.0, seq(|symbols|, _ => 1.0), CycleTape(symbols, 1.0, 3);
    var x, y := Terms(OpenRisk(size), costs, low, 1.0), Terms(OpenRisk(size), costs, high, 1.0);
    CycleValid(symbols, 1.0, 3);
    FirstAfforded(x, |symbols|, 1.0);
    var b := CycleRun(x, closes, symbols, 1.0, 3, 1);
    RuinedRun(y, closes, symbols);
  }

  lemma FirstAfforded(t: Terms, symbols: nat, o: real)
    requires symbols > 0 && t.Valid()
    ensures Affords(t, symbols, o, 0) && Allotment(t, symbols) <= t.initialCash
  {
    hide TripLoss;
    var n, size := symbols as real, t.risk.positionSizePct;
    var each := t.initialCash / n;
    assert each * n == t.initialCash && each > 0.0;
    ProductNotNegative(each, n - 1.0);
    ProductNotNegative(each, 100.0 - size);
    assert each * size <= each * 100.0;
    assert (0 as real) * TripLoss(t, symbols, o) == 0.0;
  }

  lemma RuinedRun(t: Terms, closes: seq<real>, symbols: seq<string>)
    requires Cycling(t, symbols, 1.0) && t.CostRate() >= 1.0 && |closes| == |symbols|
    requires ValidTape(CycleTape(symbols, 1.0, 3), symbols)
    ensures var end := Whole(t, closes, CycleTape(symbols, 1.0, 3), symbols); end.Ok? && |end.value.trades| == 1
  {
    hide Step, Rate, CycleTick, ValidTick, Alone, Silent, Left, Allotment, UnitsBought, CostOf;
    var tape, stake := CycleTape(symbols, 1.0, 3), Allotment(t, |symbols|);
    assert tape[0] == CycleTick(symbols, 1.0, 0) && tape[1] == CycleTick(symbols, 1.0, 1)
           && tape[2] == CycleTick(symbols, 1.0, 2);
    FirstTick(t, closes, symbols, 1.0);
    AfterNext(t, closes, tape, symbols, 0);
    var d := After(t, closes, tape, symbols, 1).value;
    CycleTicks(symbols, 1.0, 1);
    FirstAfforded(t, |symbols|, 1.0);
    MultiLimits.AllotmentPositive(t, |symbols|);
    SS.NothingBought(t, stake, 1.0);
    LoneBuys(t, d, tape[1], symbols, 0);
    AfterNext(t, closes, tape, symbols, 1);
    var e := After(t, closes, tape, symbols, 2).value;
    CycleTicks(symbols, 1.0, 2);
    LoneWaits(t, e, tape[2], symbols, 0);
    AfterNext(t, closes, tape, symbols, 2);
  }

  // ----- Soundness, exactly

  /** With two symbols or more, and at any position size: the stressed comparison is sound for every run of
      every strategy without limits if and only if already the lower rate takes every notional whole. */
  lemma MultiStressIff(costs: Option<CostModel>, low: real, high: real, size: real, symbols: seq<string>)
    requires 0.0 <= low && 0.0 <= high && Rate(costs, low) < Rate(costs, high)
    requires 0.0 < size <= 100.0 && |symbols| >= 2 && forall s | s in symbols :: s != ""
    ensures (forall risk: Risk | risk.Valid() && risk.positionSizePct == size && NoLimits(risk) ::
               SoundFor(risk, costs, low, high, symbols))
            <==> Rate(costs, low) >= 1.0
  {
    hide Rate, Whole, CycleTape, ValidTick, NeverHelps;
    if Rate(costs, low) >= 1.0 {
      forall risk: Risk | risk.Valid() && risk.positionSizePct == size && NoLimits(risk)
        ensures SoundFor(risk, costs, low, high, symbols)
      {
        RuinSound(risk, costs, low, high, symbols);
      }
    } else {
      var cash, closes, tape;
      if Rate(costs, high) < 1.0 {
        cash, closes, tape := AllotmentCanRefuseDear(costs, low, high, size, symbols);
      } else {
        cash, closes, tape := RuinedTrip(costs, low, high, size, symbols);
      }
      var risk := OpenRisk(size);
      Differ(Whole(Terms(risk, costs, low, cash), closes, tape, symbols),
          Whole(Terms(risk, costs, high, cash), closes, tape, symbols));
      assert !SoundFor(risk, costs, low, high, symbols);
    }
  }

  lemma Differ(x: Result<Desk, RuleError>, y: Result<Desk, RuleError>)
    requires x.Ok? && y.Ok? && |x.value.trades| != |y.value.trades|
    ensures !NeverHelps(x, y)
  {
  }
}
