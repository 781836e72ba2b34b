/** When the report of a many-symbol run can be matched: the final sort of the trades by text keeps the books
    of every run over some bars exactly when the texts of each symbol's bars never go back from its second
    bar on. */
module SortSoundness {
  import opened Prelude
  import opened Costs
  import opened Strategy
  import opened Market
  import opened Ledger
  import opened MultiEngine
  import opened MultiConservation
  import opened TradeOrder
  import opened LoneSymbol

  /** The same bars, under rules of any kind. */
  ghost predicate SameBars(a: seq<Tick>, b: seq<Tick>) {
    && |a| == |b|
    && forall i | 0 <= i < |a| :: |a[i]| == |b[i]| && forall k | 0 <= k < |a[i]| :: SameBar(a[i][k], b[i][k])
  }

  predicate SameBar(a: Option<Cell>, b: Option<Cell>) {
    (a.Some? <==> b.Some?) && (a.Some? ==> a.value.bar == b.value.bar)
  }

  lemma SameBarsTexts(a: seq<Tick>, b: seq<Tick>, symbols: seq<string>)
    requires SameBars(b, a) && ValidTape(a, symbols) && ValidTape(b, symbols) && TextsOrdered(a, symbols)
    ensures TextsOrdered(b, symbols)
  {
    forall h, i, j, k | 0 <= h < i < j < |b| && 0 <= k < |symbols| && b[h][k].Some? && b[i][k].Some? && b[j][k].Some?
      ensures b[i][k].value.bar.stamp <= b[j][k].value.bar.stamp
    {
      assert SameBar(b[h][k], a[h][k]) && SameBar(b[i][k], a[i][k]) && SameBar(b[j][k], a[j][k]);
    }
  }

  // ----- A strategy that makes one trip

  /** Symbol `k` is entered at tick `i`, on the signal of its bar before, and left at tick `j`, on the
      signal of its bar before. */
  datatype Trip = Trip(k: nat, p: nat, i: nat, q: nat, j: nat)
  {
    ghost predicate Fits(tape: seq<Tick>, symbols: seq<string>)
      requires ValidTape(tape, symbols)
    {
      && k < |symbols| && p < i <= q < j < |tape|
      && tape[p][k].Some? && tape[i][k].Some? && tape[q][k].Some? && tape[j][k].Some?
      && (forall m | p < m < i || q < m < j :: tape[m][k].None?)
    }
  }

  function TripCell(cell: Option<Cell>, enter: bool, leave: bool): Option<Cell> {
    if cell.None? then None else Some(Cell(cell.value.bar, Ok(enter), Ok(leave)))
  }

  function TripTick(tick: Tick, trip: Trip, m: nat): (r: Tick)
    ensures |r| == |tick|
  {
    seq(|tick|, l requires 0 <= l < |tick| => TripCell(tick[l], l == trip.k && m == trip.p, l == trip.k && m == trip.q))
  }

  /** The bars of the tape, under the rules of the trip. */
  function TripTape(tape: seq<Tick>, trip: Trip): (r: seq<Tick>)
    ensures |r| == |tape|
  {
    seq(|tape|, m requires 0 <= m < |tape| => TripTick(tape[m], trip, m))
  }

  lemma TripTapeValid(tape: seq<Tick>, symbols: seq<string>, trip: Trip)
    requires ValidTape(tape, symbols)
    ensures ValidTape(TripTape(tape, trip), symbols) && SameBars(TripTape(tape, trip), tape)
  {
    forall m | 0 <= m < |tape|
      ensures ValidTick(TripTick(tape[m], trip, m), symbols)
    {
      var l :| 0 <= l < |tape[m]| && tape[m][l].Some?;
      assert TripTick(tape[m], trip, m)[l].Some?;
    }
  }

  /** All cash is shared among the symbols, and nothing else limits a position. */
  const OPEN_RISK := Risk(0.0, 0.0, 100.0, None, NoAction, None, None)

  lemma ShareOfCash(t: Terms, symbols: nat)
    requires symbols > 0 && t.initialCash == symbols as real && t.risk.positionSizePct == 100.0
    ensures Allotment(t, symbols) == 1.0
  {
  }

  ghost predicate TradeOf(trade: Trade, side: Side, bar: Bar) {
    trade.side == side && trade.stamp == bar.stamp && trade.symbol == bar.symbol
  }

  // ----- The run of the trip

  /** Where the trip stands after `n` ticks. */
  ghost predicate Stands(t: Terms, d: Desk, tape: seq<Tick>, symbols: seq<string>, trip: Trip, n: nat)
    requires ValidTape(tape, symbols) && trip.Fits(tape, symbols) && |d.slots| == |symbols|
  {
    var slot := d.slots[trip.k];
    && Alone(d, trip.k)
    && (n <= trip.i ==>
          && d.cash == t.initialCash && d.trades == [] && slot.units == 0.0
          && slot.pending == if n <= trip.p then NoOrder else EntryOrder)
    && (trip.i < n <= trip.j ==>
          && |d.trades| == 1 && TradeOf(d.trades[0], Buy, tape[trip.i][trip.k].value.bar) && slot.units > 0.0
          && slot.pending == if n <= trip.q then NoOrder else ExitOrder)
    && (trip.j < n ==>
          && |d.trades| == 2 && TradeOf(d.trades[0], Buy, tape[trip.i][trip.k].value.bar)
          && TradeOf(d.trades[1], Sell, tape[trip.j][trip.k].value.bar) && slot.units == 0.0 && slot.pending.NoOrder?)
  }

  lemma TripSilent(tick: Tick, trip: Trip, m: nat)
    ensures Silent(TripTick(tick, trip, m), trip.k)
  {
  }

  lemma TripStep(t: Terms, d: Desk, tape: seq<Tick>, symbols: seq<string>, trip: Trip, n: nat)
    requires ValidTape(tape, symbols) && trip.Fits(tape, symbols) && |d.slots| == |symbols| && n < |tape|
    requires ValidTick(TripTick(tape[n], trip, n), symbols)
    requires t.risk == OPEN_RISK && t.CostRate() < 1.0 && t.initialCash == |symbols| as real
    requires Stands(t, d, tape, symbols, trip, n)
    ensures var e := Step(t, d, TripTick(tape[n], trip, n)); e.Ok? && Stands(t, e.value, tape, symbols, trip, n + 1)
  {
    hide Step, Rate, Alone, UnitsBought, CostOf, Allotment, Value, Silent;
    var tick, k := TripTick(tape[n], trip, n), trip.k;
    TripSilent(tape[n], trip, n);
    if n == trip.i {
      ShareOfCash(t, |symbols|);
      LoneBuys(t, d, tick, symbols, k);
      UnitsBoughtSign(t, 1.0, tick[k].value.bar.open);
    } else if n == trip.j {
      LoneSells(t, d, tick, symbols, k);
    } else {
      LoneWaits(t, d, tick, symbols, k);
    }
  }

  lemma {:induction false} TripRun(t: Terms, firstCloses: seq<real>, tape: seq<Tick>, symbols: seq<string>, trip: Trip,
                                   n: nat)
    requires ValidTape(tape, symbols) && trip.Fits(tape, symbols) && |firstCloses| == |symbols| && n <= |tape|
    requires ValidTape(TripTape(tape, trip), symbols)
    requires t.risk == OPEN_RISK && t.CostRate() < 1.0 && t.initialCash == |symbols| as real
    ensures After(t, firstCloses, TripTape(tape, trip), symbols, n).Ok?
    ensures Stands(t, After(t, firstCloses, TripTape(tape, trip), symbols, n).value, tape, symbols, trip, n)
  {
    hide Step, Rate, Stands, TripTick, ValidTick;
    if n == 0 {
      TripBegins(t, firstCloses, tape, symbols, trip);
    } else {
      TripRun(t, firstCloses, tape, symbols, trip, n - 1);
      assert TripTape(tape, trip)[n - 1] == TripTick(tape[n - 1], trip, n - 1);
      TripStep(t, After(t, firstCloses, TripTape(tape, trip), symbols, n - 1).value, tape, symbols, trip, n - 1);
    }
  }

  lemma TripBegins(t: Terms, firstCloses: seq<real>, tape: seq<Tick>, symbols: seq<string>, trip: Trip)
    requires ValidTape(tape, symbols) && trip.Fits(tape, symbols) && |firstCloses| == |symbols|
    ensures Stands(t, Start(t, firstCloses), tape, symbols, trip, 0)
  {
  }

  /** The last bar of a symbol before a tick. */
  lemma {:induction false} LastBefore(tape: seq<Tick>, symbols: seq<string>, k: nat, h: nat, n: nat) returns (p: nat)
    requires ValidTape(tape, symbols) && k < |symbols| && h < n <= |tape| && tape[h][k].Some?
    ensures h <= p < n && tape[p][k].Some? && forall m | p < m < n :: tape[m][k].None?
    decreases n
  {
    if tape[n - 1][k].Some? {
      p := n - 1;
    } else {
      p := LastBefore(tape, symbols, k, h, n - 1);
    }
  }

  // ----- Soundness, exactly

  /** Where the texts of a symbol go back after its first bar, some strategy's report loses its profit: it
      bought at the later text and sold at the earlier one, and after the sort nothing matches. */
  lemma SortLosesProfit(t: Terms, firstCloses: seq<real>, tape: seq<Tick>, symbols: seq<string>, h: nat, i: nat, j: nat,
                        k: nat)
    returns (rules: seq<Tick>)
    requires ValidTape(tape, symbols) && |firstCloses| == |symbols| && h < i < j < |tape| && k < |symbols|
    requires tape[h][k].Some? && tape[i][k].Some? && tape[j][k].Some?
    requires tape[j][k].value.bar.stamp < tape[i][k].value.bar.stamp
    requires t.risk == OPEN_RISK && t.CostRate() < 1.0 && t.initialCash == |symbols| as real
    ensures SameBars(rules, tape) && ValidTape(rules, symbols) && After(t, firstCloses, rules, symbols, |rules|).Ok?
    ensures var trades := After(t, firstCloses, rules, symbols, |rules|).value.trades;
            && |trades| == 2
            && |Replay(trades).pnls| == 1 && Replay(trades).Lots(symbols[k]) == []
            && Replay(Sort(trades)).pnls == [] && Replay(Sort(trades)).Lots(symbols[k]) == [trades[0]]
  {
    var trip := TripThrough(tape, symbols, h, i, j, k);
    hide Rate, After, Replay, Sort, SameBars, Stands, TripTape, ValidTick;
    rules := TripTape(tape, trip);
    TripTapeValid(tape, symbols, trip);
    TripRun(t, firstCloses, tape, symbols, trip, |tape|);
    TripEnds(t, After(t, firstCloses, rules, symbols, |rules|).value, tape, symbols, trip);
  }

  lemma TripThrough(tape: seq<Tick>, symbols: seq<string>, h: nat, i: nat, j: nat, k: nat) returns (trip: Trip)
    requires ValidTape(tape, symbols) && h < i < j < |tape| && k < |symbols|
    requires tape[h][k].Some? && tape[i][k].Some? && tape[j][k].Some?
    ensures trip.Fits(tape, symbols) && trip.k == k && trip.i == i && trip.j == j
  {
    hide ValidTick;
    var p := LastBefore(tape, symbols, k, h, i);
    var q := LastBefore(tape, symbols, k, i, j);
    trip := Trip(k, p, i, q, j);
  }

  /** What is left of a finished trip that was bought at the later text. */
  lemma TripEnds(t: Terms, d: Desk, tape: seq<Tick>, symbols: seq<string>, trip: Trip)
    requires ValidTape(tape, symbols) && trip.Fits(tape, symbols) && |d.slots| == |symbols|
    requires Stands(t, d, tape, symbols, trip, |tape|)
    requires tape[trip.j][trip.k].value.bar.stamp < tape[trip.i][trip.k].value.bar.stamp
    ensures |d.trades| == 2
    ensures |Replay(d.trades).pnls| == 1 && Replay(d.trades).Lots(symbols[trip.k]) == []
    ensures Replay(Sort(d.trades)).pnls == [] && Replay(Sort(d.trades)).Lots(symbols[trip.k]) == [d.trades[0]]
  {
    hide Replay, Sort, Alone;
    assert d.trades == [d.trades[0], d.trades[1]];
    EarlySaleIsLost(d.trades[0], d.trades[1]);
  }

  /** First-in-first-out matching after the sort leaves the same open lots and the same total profit. */
  ghost predicate KeepsBooks(trades: seq<Trade>) {
    SameBooks(Replay(Sort(trades)), Replay(trades))
  }

  /** A run over these bars, if it completes, keeps its books under the sort. */
  ghost predicate SortSound(t: Terms, firstCloses: seq<real>, rules: seq<Tick>, symbols: seq<string>)
    requires ValidTape(rules, symbols) && |firstCloses| == |symbols|
  {
    var run := After(t, firstCloses, rules, symbols, |rules|);
    run.Ok? ==> KeepsBooks(run.value.trades)
  }

  /** The sort keeps the books of any run whose texts never go back. */
  lemma OrderedIsSound(t: Terms, firstCloses: seq<real>, rules: seq<Tick>, symbols: seq<string>)
    requires ValidTape(rules, symbols) && |firstCloses| == |symbols| && Distinct(symbols)
             && TextsOrdered(rules, symbols)
    ensures SortSound(t, firstCloses, rules, symbols)
  {
    hide Rate, Sort, Step, Replay;
    var run := After(t, firstCloses, rules, symbols, |rules|);
    if run.Ok? {
      RunInOrder(t, firstCloses, rules, symbols, |rules|);
      SortKeepsBooks(run.value.trades);
    }
  }

  lemma LostLotsDiffer(trades: seq<Trade>, symbol: string)
    requires Replay(trades).Lots(symbol) != Replay(Sort(trades)).Lots(symbol)
    ensures !KeepsBooks(trades)
  {
  }

  /** At a cost rate below one, the sort keeps the books of every run of every strategy over these bars if
      and only if, from each symbol's second bar on, the texts of its bars never go back. */
  lemma SortSoundIff(costs: Option<CostModel>, stress: real, firstCloses: seq<real>, tape: seq<Tick>,
                     symbols: seq<string>)
    requires stress >= 0.0 && Rate(costs, stress) < 1.0
    requires ValidTape(tape, symbols) && |symbols| > 0 && |firstCloses| == |symbols| && Distinct(symbols)
    ensures (forall risk: Risk, cash: real, rules: seq<Tick> |
               risk.Valid() && cash > 0.0 && SameBars(rules, tape) && ValidTape(rules, symbols) ::
               SortSound(Terms(risk, costs, stress, cash), firstCloses, rules, symbols))
            <==> TextsOrdered(tape, symbols)
  {
    hide Rate, SortSound, SameBars, ValidTick;
    if TextsOrdered(tape, symbols) {
      hide TextsOrdered;
      forall risk: Risk, cash: real, rules: seq<Tick> | risk.Valid() && cash > 0.0 && SameBars(rules, tape)
          && ValidTape(rules, symbols)
        ensures SortSound(Terms(risk, costs, stress, cash), firstCloses, rules, symbols)
      {
        SameBarsTexts(tape, rules, symbols);
        OrderedIsSound(Terms(risk, costs, stress, cash), firstCloses, rules, symbols);
      }
    } else {
      var t := Terms(OPEN_RISK, costs, stress, |symbols| as real);
      var rules := SomeSortUnsound(t, firstCloses, tape, symbols);
    }
  }

  lemma SomeSortUnsound(t: Terms, firstCloses: seq<real>, tape: seq<Tick>, symbols: seq<string>)
    returns (rules: seq<Tick>)
    requires ValidTape(tape, symbols) && |firstCloses| == |symbols| && !TextsOrdered(tape, symbols)
    requires t.risk == OPEN_RISK && t.CostRate() < 1.0 && t.initialCash == |symbols| as real
    ensures SameBars(rules, tape) && ValidTape(rules, symbols) && !SortSound(t, firstCloses, rules, symbols)
  {
    var h, i, j, k :| 0 <= h < i < j < |tape| && 0 <= k < |symbols| && tape[h][k].Some? && tape[i][k].Some?
        && tape[j][k].Some?
                      && tape[j][k].value.bar.stamp < tape[i][k].value.bar.stamp;
    hide Rate, Sort, Replay, After, KeepsBooks, SameBars, TextsOrdered, ValidTick;
    rules := SortLosesProfit(t, firstCloses, tape, symbols, h, i, j, k);
    LostLotsDiffer(After(t, firstCloses, rules, symbols, |rules|).value.trades, symbols[k]);
  }
}
