/** The imperative many-symbol run: `_SymbolState` objects updated in place, tied to the fold of
    `MultiEngine`; and the ticks that the bars of the symbols make. */
module MultiRun {
  import opened Prelude
  import opened Costs
  import opened Strategy
  import opened Market
  import opened MultiEngine
  import opened MultiLimits
  import TradeOrder
  import SingleEngine

  // ----- From the bars of each symbol to ticks

  /** The bars of one symbol with their rules. */
  datatype Listing = Listing(symbol: string, cells: seq<Cell>)

  ghost predicate ValidListing(x: Listing) {
    && x.cells != []
    && (forall i | 0 <= i < |x.cells| :: x.cells[i].bar.Valid() && x.cells[i].bar.symbol == x.symbol)
    && (forall i, j | 0 <= i < j < |x.cells| :: x.cells[i].bar.time < x.cells[j].bar.time)
  }

  ghost predicate ValidListings(xs: seq<Listing>) {
    && |xs| > 0
    && (forall k | 0 <= k < |xs| :: ValidListing(xs[k]))
    && (forall i, j | 0 <= i < j < |xs| :: xs[i].symbol != xs[j].symbol)
  }

  function Symbols(xs: seq<Listing>): (r: seq<string>)
    ensures |r| == |xs|
  {
    seq(|xs|, k requires 0 <= k < |xs| => xs[k].symbol)
  }

  function FirstCloses(xs: seq<Listing>): (r: seq<real>)
    requires forall k | 0 <= k < |xs| :: xs[k].cells != []
    ensures |r| == |xs|
  {
    seq(|xs|, k requires 0 <= k < |xs| => xs[k].cells[0].bar.close)
  }

  /** The cell of a symbol at an instant. */
  function CellAt(cells: seq<Cell>, time: int): Option<Cell> {
    if cells == [] then None
    else if cells[|cells| - 1].bar.time == time then Some(cells[|cells| - 1])
    else CellAt(cells[..|cells| - 1], time)
  }

  function TickAt(xs: seq<Listing>, time: int): (r: Tick)
    ensures |r| == |xs|
  {
    seq(|xs|, k requires 0 <= k < |xs| => CellAt(xs[k].cells, time))
  }

  /** Insertion into an increasing sequence without repetition. */
  function InsertTime(times: seq<int>, time: int): seq<int> {
    if times == [] || times[|times| - 1] < time then times + [time]
    else if times[|times| - 1] == time then times
    else InsertTime(times[..|times| - 1], time) + [times[|times| - 1]]
  }

  function AddTimes(times: seq<int>, cells: seq<Cell>): seq<int> {
    if cells == [] then times
    else InsertTime(AddTimes(times, cells[..|cells| - 1]), cells[|cells| - 1].bar.time)
  }

  /** All instants at which some symbol has a bar, in order. */
  function Timeline(xs: seq<Listing>): seq<int> {
    if xs == [] then [] else AddTimes(Timeline(xs[..|xs| - 1]), xs[|xs| - 1].cells)
  }

  ghost predicate Increasing(times: seq<int>) {
    forall i, j | 0 <= i < j < |times| :: times[i] < times[j]
  }

  lemma {:induction false} InsertTimeIncreasing(times: seq<int>, time: int)
    requires Increasing(times)
    ensures Increasing(InsertTime(times, time))
    ensures forall x :: x in InsertTime(times, time) <==> x in times || x == time
  {
    if times != [] {
      var front, last := times[..|times| - 1], times[|times| - 1];
      assert times == front + [last];
      if time < last {
        InsertTimeIncreasing(front, time);
        var inserted := InsertTime(front, time);
        forall i | 0 <= i < |inserted|
          ensures inserted[i] < last
        {
          assert inserted[i] in inserted;
          if inserted[i] != time {
            var j :| 0 <= j < |front| && front[j] == inserted[i];
            assert times[j] < times[|times| - 1];
          }
        }
      }
    }
  }

  lemma {:induction false} CellAtFinds(cells: seq<Cell>, time: int)
    ensures CellAt(cells, time).Some? <==> exists i | 0 <= i < |cells| :: cells[i].bar.time == time
    ensures CellAt(cells, time).Some? ==> exists i | 0 <= i < |cells| ::
            cells[i].bar.time == time && CellAt(cells, time).value == cells[i]
  {
    if cells != [] {
      CellAtFinds(cells[..|cells| - 1], time);
    }
  }

  lemma {:induction false} AddTimesMeaning(times: seq<int>, cells: seq<Cell>)
    requires Increasing(times)
    ensures Increasing(AddTimes(times, cells))
    ensures forall x :: x in AddTimes(times, cells) <==> x in times || CellAt(cells, x).Some?
  {
    if cells != [] {
      AddTimesMeaning(times, cells[..|cells| - 1]);
      InsertTimeIncreasing(AddTimes(times, cells[..|cells| - 1]), cells[|cells| - 1].bar.time);
    }
  }

  /** The timeline increases, and holds an instant exactly when some symbol has a bar at it. */
  lemma {:induction false} TimelineMeaning(xs: seq<Listing>)
    ensures Increasing(Timeline(xs))
    ensures forall x :: x in Timeline(xs) <==> exists k | 0 <= k < |xs| :: CellAt(xs[k].cells, x).Some?
  {
    if xs != [] {
      var front, last := xs[..|xs| - 1], xs[|xs| - 1];
      TimelineMeaning(front);
      AddTimesMeaning(Timeline(front), last.cells);
      forall x
        ensures x in Timeline(xs) <==> exists k | 0 <= k < |xs| :: CellAt(xs[k].cells, x).Some?
      {
        if x in Timeline(front) {
          var k :| 0 <= k < |front| && CellAt(front[k].cells, x).Some?;
          assert CellAt(xs[k].cells, x).Some?;
        }
        if k :| 0 <= k < |xs| && CellAt(xs[k].cells, x).Some? {
          if k < |front| {
            assert CellAt(front[k].cells, x).Some?;
          }
        }
      }
    }
  }

  function Tape(xs: seq<Listing>): (r: seq<Tick>)
    ensures |r| == |Timeline(xs)|
  {
    var times := Timeline(xs);
    seq(|times|, i requires 0 <= i < |times| => TickAt(xs, times[i]))
  }

  lemma TapeValid(xs: seq<Listing>)
    requires ValidListings(xs)
    ensures ValidTape(Tape(xs), Symbols(xs))
  {
    TimelineMeaning(xs);
    forall i | 0 <= i < |Tape(xs)|
      ensures ValidTick(Tape(xs)[i], Symbols(xs))
    {
      var time, tick := Timeline(xs)[i], Tape(xs)[i];
      assert time in Timeline(xs);
      var j :| 0 <= j < |xs| && CellAt(xs[j].cells, time).Some?;
      assert tick[j].Some?;
      forall k | 0 <= k < |tick| && tick[k].Some?
        ensures tick[k].value.bar.Valid() && tick[k].value.bar.symbol == Symbols(xs)[k]
      {
        CellAtFinds(xs[k].cells, time);
        assert ValidListing(xs[k]);
      }
    }
  }

  /** From the second bar on, the ISO texts of a symbol's bars never go back. */
  ghost predicate ListingTexts(x: Listing) {
    forall i, j | 1 <= i < j < |x.cells| :: x.cells[i].bar.stamp <= x.cells[j].bar.stamp
  }

  /** The texts are in order on the tape exactly when they are in the bars of each symbol. */
  lemma TapeTexts(xs: seq<Listing>)
    requires ValidListings(xs)
    ensures ValidTape(Tape(xs), Symbols(xs))
    ensures TradeOrder.TextsOrdered(Tape(xs), Symbols(xs)) <==> forall k | 0 <= k < |xs| :: ListingTexts(xs[k])
  {
    TapeValid(xs);
    if forall k | 0 <= k < |xs| :: ListingTexts(xs[k]) {
      TapeTextsIf(xs);
    }
    if TradeOrder.TextsOrdered(Tape(xs), Symbols(xs)) {
      forall k | 0 <= k < |xs|
        ensures ListingTexts(xs[k])
      {
        TapeTextsOnlyIf(xs, k);
      }
    }
  }

  lemma TapeTextsIf(xs: seq<Listing>)
    requires ValidListings(xs) && ValidTape(Tape(xs), Symbols(xs)) && forall k | 0 <= k < |xs| :: ListingTexts(xs[k])
    ensures TradeOrder.TextsOrdered(Tape(xs), Symbols(xs))
  {
    hide ValidListing, ListingTexts;
    TimelineMeaning(xs);
    var tape: seq<Tick>, times := Tape(xs), Timeline(xs);
    forall h, i, j, k | 0 <= h < i < j < |tape| && 0 <= k < |xs| && tape[h][k].Some? && tape[i][k].Some?
        && tape[j][k].Some?
      ensures tape[i][k].value.bar.stamp <= tape[j][k].value.bar.stamp
    {
      TextsFollowTimes(xs[k], times[h], times[i], times[j]);
    }
  }

  lemma TapeTextsOnlyIf(xs: seq<Listing>, k: nat)
    requires ValidListings(xs) && k < |xs| && ValidTape(Tape(xs), Symbols(xs))
    requires TradeOrder.TextsOrdered(Tape(xs), Symbols(xs))
    ensures ListingTexts(xs[k])
  {
    hide Tape, Symbols, Timeline, ValidTick;
    assert ValidListing(xs[k]);
    var cells := xs[k].cells;
    forall i, j | 1 <= i < j < |cells|
      ensures cells[i].bar.stamp <= cells[j].bar.stamp
    {
      var h := TickOf(xs, k, 0);
      var l := TickOf(xs, k, i);
      var m := TickOf(xs, k, j);
      assert h < l < m;
    }
  }

  /** The tick of a bar. */
  lemma TickOf(xs: seq<Listing>, k: nat, i: nat) returns (n: nat)
    requires ValidListings(xs) && k < |xs| && i < |xs[k].cells|
    ensures n < |Tape(xs)| && Tape(xs)[n][k] == Some(xs[k].cells[i]) && Timeline(xs)[n] == xs[k].cells[i].bar.time
    ensures Increasing(Timeline(xs))
  {
    TimelineMeaning(xs);
    var time := xs[k].cells[i].bar.time;
    CellAtFinds(xs[k].cells, time);
    assert CellAt(xs[k].cells, time).Some?;
    assert time in Timeline(xs);
    n :| 0 <= n < |Timeline(xs)| && Timeline(xs)[n] == time;
    assert ValidListing(xs[k]);
  }

  lemma TextsFollowTimes(x: Listing, first: int, early: int, late: int)
    requires ValidListing(x) && ListingTexts(x) && first < early < late
    requires CellAt(x.cells, first).Some? && CellAt(x.cells, early).Some? && CellAt(x.cells, late).Some?
    ensures CellAt(x.cells, early).value.bar.stamp <= CellAt(x.cells, late).value.bar.stamp
  {
    CellAtFinds(x.cells, first);
    CellAtFinds(x.cells, early);
    CellAtFinds(x.cells, late);
  }

  // ----- The run

  /** What a run returns, as a function of the fold. */
  function Outcome(t: Terms, xs: seq<Listing>): Result<SingleEngine.Report, RunError>
    requires ValidListings(xs)
  {
    if t.initialCash <= 0.0 || t.stress < 0.0 then Err(InvalidRequest) else
    TapeValid(xs);
    var end := After(t, FirstCloses(xs), Tape(xs), Symbols(xs), |Tape(xs)|);
    if end.Err? then Err(RuleFailed(end.error))
    else Ok(SingleEngine.Report(end.value.equity, TradeOrder.Sort(end.value.trades)))
  }

  /** `_SymbolState`: the bars of a symbol, their index by instant, and the fields a run updates. */
  class SymbolState {
    const cells: seq<Cell>
    const indexByTime: map<int, nat>
    var units: real
    var entryPrice: real
    var pending: Order
    var lastClose: real

    constructor (x: Listing)
      requires ValidListing(x)
      ensures cells == x.cells && View() == Slot(0.0, 0.0, NoOrder, x.cells[0].bar.close)
      ensures forall time :: time in indexByTime <==> CellAt(x.cells, time).Some?
      ensures forall time | time in indexByTime ::
                indexByTime[time] < |x.cells| && CellAt(x.cells, time) == Some(x.cells[indexByTime[time]])
    {
      var index: map<int, nat> := map[];
      for i := 0 to |x.cells|
        invariant forall time :: time in index <==> CellAt(x.cells[..i], time).Some?
        invariant forall time | time in index ::
                  index[time] < i && CellAt(x.cells[..i], time) == Some(x.cells[index[time]])
      {
        assert x.cells[..i + 1][..i] == x.cells[..i];
        index := index[x.cells[i].bar.time := i];
      }
      assert x.cells[..|x.cells|] == x.cells;
      cells, indexByTime := x.cells, index;
      units, entryPrice, pending, lastClose := 0.0, 0.0, NoOrder, x.cells[0].bar.close;
    }

    function View(): Slot
      reads this
    {
      Slot(units, entryPrice, pending, lastClose)
    }
  }

  ghost predicate Separate(states: seq<SymbolState>) {
    forall i, j | 0 <= i < j < |states| :: states[i] != states[j]
  }

  /** The states hold the slots of the desk. */
  ghost predicate Holds(states: seq<SymbolState>, slots: seq<Slot>)
    reads set k | 0 <= k < |states| :: states[k]
  {
    |states| == |slots| && forall k | 0 <= k < |states| :: states[k].View() == slots[k]
  }

  /** The sum of the positions at their open marks. */
  method ExposureNow(states: seq<SymbolState>, tick: Tick, ghost slots: seq<Slot>) returns (exposure: real)
    requires |tick| == |states| && Holds(states, slots)
    ensures exposure == Exposure(slots, tick, |tick|)
  {
    exposure := 0.0;
    for k := 0 to |states|
      invariant exposure == Exposure(slots, tick, k)
    {
      var state := states[k];
      assert state.View() == slots[k];
      exposure := exposure + (if tick[k].Some? then Value(state.units, tick[k].value.bar.open)
          else Value(state.units, state.lastClose));
    }
  }

  method CloseValueNow(states: seq<SymbolState>, tick: Tick, ghost slots: seq<Slot>) returns (value: real)
    requires |tick| == |states| && Holds(states, slots)
    ensures value == CloseValue(slots, tick, |tick|)
  {
    value := 0.0;
    for k := 0 to |states|
      invariant value == CloseValue(slots, tick, k)
    {
      var state := states[k];
      assert state.View() == slots[k];
      value := value + (if tick[k].Some? then Value(state.units, tick[k].value.bar.close)
          else Value(state.units, state.lastClose));
    }
  }

  method HoldingNow(states: seq<SymbolState>, ghost slots: seq<Slot>) returns (count: nat)
    requires Holds(states, slots)
    ensures count == Holding(slots, |slots|)
  {
    count := 0;
    for k := 0 to |states|
      invariant count == Holding(slots, k)
    {
      assert states[k].View() == slots[k];
      if states[k].units > 0.0 {
        count := count + 1;
      }
    }
  }

  /** The first loop of a tick. */
  method SellLoop(t: Terms, states: seq<SymbolState>, tick: Tick, ghost symbols: seq<string>, cash0: real,
                  trades0: seq<Trade>, ghost d: Desk)
    returns (cash: real, trades: seq<Trade>)
    requires t.Valid() && ValidTick(tick, symbols) && |states| == |symbols| && Separate(states)
    requires Holds(states, d.slots) && cash0 == d.cash && trades0 == d.trades && WithinLimits(t, d)
    modifies states
    ensures var e := SellAll(t, d, tick, |tick|); Holds(states, e.slots) && cash == e.cash && trades == e.trades
  {
    hide Rate, CostOf, Value, Charge, WithinLimits;
    cash, trades := cash0, trades0;
    for k := 0 to |states|
      invariant var e := SellAll(t, d, tick, k); Holds(states, e.slots) && cash == e.cash && trades == e.trades
    {
      ghost var e := SellAll(t, d, tick, k);
      SellAllWithinLimits(t, d, tick, k, symbols);
      var state := states[k];
      assert state.View() == e.slots[k];
      if tick[k].Some? && state.pending.ExitOrder? && state.units > 0.0 {
        var bar := tick[k].value.bar;
        var notional := Value(state.units, bar.open);
        SaleCharge(t, e, k, bar.open);
        var cost := Charge(t.costs, notional, Sell, t.stress).value;
        cash := cash + (notional - cost);
        trades := trades + [MakeTrade(bar, Sell, state.units, cost)];
        state.units := 0.0;
        state.entryPrice := 0.0;
        state.pending := NoOrder;
      }
    }
  }

  lemma SaleCharge(t: Terms, d: Desk, k: nat, price: real)
    requires t.Valid() && WithinLimits(t, d) && k < |d.slots| && d.slots[k].units > 0.0 && price > 0.0
    ensures Charge(t.costs, Value(d.slots[k].units, price), Sell, t.stress)
            == Ok(CostOf(t, Value(d.slots[k].units, price)))
  {
    hide Rate, Charge, CostOf;
    SaleProceeds(t, d.slots[k].units, price);
    ChargeIsCostOf(t, Value(d.slots[k].units, price), Sell);
  }

  /** The second loop. */
  method BuyLoop(t: Terms, states: seq<SymbolState>, tick: Tick, ghost symbols: seq<string>, cash0: real,
                 trades0: seq<Trade>,
                 blocked: bool, stopped: bool, ghost d: Desk)
    returns (cash: real, trades: seq<Trade>)
    requires t.Valid() && ValidTick(tick, symbols) && |states| == |symbols| && Separate(states)
    requires Holds(states, d.slots) && cash0 == d.cash && trades0 == d.trades && blocked == d.blocked
             && stopped == d.stopped
    modifies states
    ensures var e := BuyAll(t, d, tick, |tick|); Holds(states, e.slots) && cash == e.cash && trades == e.trades
  {
    hide BuyOne;
    cash, trades := cash0, trades0;
    for k := 0 to |states|
      invariant var e := BuyAll(t, d, tick, k); Holds(states, e.slots) && cash == e.cash && trades == e.trades
    {
      BuyFrame(t, d, tick, k);
      cash, trades := BuyState(t, states, tick, symbols, k, cash, trades, blocked, stopped, BuyAll(t, d, tick, k));
    }
  }

  /** One entry, against what the ones before it left. */
  method BuyState(t: Terms, states: seq<SymbolState>, tick: Tick, ghost symbols: seq<string>, k: nat, cash0: real,
                  trades0: seq<Trade>,
                  blocked: bool, stopped: bool, ghost d: Desk)
    returns (cash: real, trades: seq<Trade>)
    requires t.Valid() && ValidTick(tick, symbols) && |states| == |symbols| && k < |states| && Separate(states)
    requires Holds(states, d.slots) && cash0 == d.cash && trades0 == d.trades && blocked == d.blocked
             && stopped == d.stopped
    modifies states[k]
    ensures var e := BuyOne(t, d, tick, k); Holds(states, e.slots) && cash == e.cash && trades == e.trades
  {
    hide Rate, CostOf, Value, Charge, UnitsBought, Allotment, Exposure, Holding, ExposureAllows;
    cash, trades := cash0, trades0;
    var state := states[k];
    assert state.View() == d.slots[k];
    if tick[k].Some? && state.pending.EntryOrder? && state.units <= 0.0 {
      var bar := tick[k].value.bar;
      var notional := Allotment(t, |states|);
      var exposure := ExposureNow(states, tick, d.slots);
      var concurrent := HoldingNow(states, d.slots);
      if && !blocked
         && !stopped
         && (t.risk.maxConcurrentPositions.None? || concurrent < t.risk.maxConcurrentPositions.value)
         && cash + TOLERANCE >= notional
         && ExposureAllows(t.risk, notional, cash + exposure, exposure)
      {
        AllotmentPositive(t, |states|);
        ChargeIsCostOf(t, notional, Buy);
        var cost := Charge(t.costs, notional, Buy, t.stress).value;
        state.units := UnitsBought(notional, cost, bar.open);
        cash := cash - notional;
        state.entryPrice := bar.open;
        trades := trades + [MakeTrade(bar, Buy, state.units, cost)];
      }
      state.pending := NoOrder;
    }
  }

  /** The third loop; an exception of a rule ends the run. */
  method DecideLoop(t: Terms, states: seq<SymbolState>, tick: Tick, blocked: bool, stopped: bool, ghost d: Desk)
    returns (error: Option<RuleError>)
    requires |tick| == |states| && Separate(states)
    requires Holds(states, d.slots) && blocked == d.blocked && stopped == d.stopped
    modifies states
    ensures match DecideAll(t, d, tick, |tick|)
            case Ok(e) => error.None? && Holds(states, e.slots)
            case Err(rule) => error == Some(rule)
  {
    hide RiskExit;
    for k := 0 to |states|
      invariant DecideAll(t, d, tick, k).Ok? && Holds(states, DecideAll(t, d, tick, k).value.slots)
    {
      DecideKeepsFlags(t, d, tick, k);
      ghost var e := DecideAll(t, d, tick, k).value;
      var state := states[k];
      assert state.View() == e.slots[k];
      if tick[k].Some? {
        var cell := tick[k].value;
        state.lastClose := cell.bar.close;
        if state.units > 0.0 {
          if cell.exit.Err? {
            FirstError(t, d, tick, k + 1);
            return Some(cell.exit.error);
          }
          if cell.exit.value || RiskExit(t.risk, state.entryPrice, cell.bar.close) {
            state.pending := ExitOrder;
          }
        } else if !blocked && !stopped {
          if cell.entry.Err? {
            FirstError(t, d, tick, k + 1);
            return Some(cell.entry.error);
          }
          if cell.entry.value {
            state.pending := EntryOrder;
          }
        }
      }
    }
    return None;
  }

  lemma DecideKeepsFlags(t: Terms, d: Desk, tick: Tick, n: nat)
    requires n <= |tick| == |d.slots| && DecideAll(t, d, tick, n).Ok?
    ensures var e := DecideAll(t, d, tick, n).value; e.blocked == d.blocked && e.stopped == d.stopped
  {
    hide DecideOne;
    DecideFrame(t, d, tick, n);
  }

  lemma {:induction false} FirstError(t: Terms, d: Desk, tick: Tick, n: nat)
    requires n <= |tick| == |d.slots| && DecideAll(t, d, tick, n).Err?
    ensures DecideAll(t, d, tick, |tick|) == DecideAll(t, d, tick, n)
    decreases |tick| - n
  {
    hide DecideOne;
    if n < |tick| {
      FirstError(t, d, tick, n + 1);
    }
  }

  /** The orders that a breach at the close places. */
  method ExitLoop(states: seq<SymbolState>, ghost slots: seq<Slot>)
    requires Holds(states, slots) && Separate(states)
    modifies states
    ensures Holds(states, OrderExits(slots))
  {
    for k := 0 to |states|
      invariant forall j | 0 <= j < |states| :: states[j].View() == if j < k then OrderExits(slots)[j] else slots[j]
    {
      assert states[k].View() == slots[k];
      if states[k].units > 0.0 {
        states[k].pending := ExitOrder;
      }
    }
  }

  /** The three loops of a tick. */
  method TradeTick(t: Terms, states: seq<SymbolState>, tick: Tick, ghost symbols: seq<string>, cash0: real,
                   trades0: seq<Trade>,
                   blocked: bool, stopped: bool, ghost o: Desk)
    returns (cash: real, trades: seq<Trade>, error: Option<RuleError>)
    requires t.Valid() && ValidTick(tick, symbols) && |states| == |symbols| && Separate(states)
    requires Holds(states, o.slots) && cash0 == o.cash && trades0 == o.trades && blocked == o.blocked
             && stopped == o.stopped
    requires WithinLimits(t, o)
    modifies states
    ensures var b := BuyAll(t, SellAll(t, o, tick, |tick|), tick, |tick|);
            && b == o.(cash := cash, slots := b.slots, trades := trades)
            && match DecideAll(t, b, tick, |tick|)
               case Ok(g) => error.None? && Holds(states, g.slots) && g == b.(slots := g.slots)
               case Err(rule) => error == Some(rule)
  {
    hide Rate, SellAll, BuyAll, DecideAll, WithinLimits;
    ghost var s := SellAll(t, o, tick, |tick|);
    SellFrame(t, o, tick, |tick|);
    cash, trades := SellLoop(t, states, tick, symbols, cash0, trades0, o);
    ghost var b := BuyAll(t, s, tick, |tick|);
    BuyFrame(t, s, tick, |tick|);
    cash, trades := BuyLoop(t, states, tick, symbols, cash, trades, blocked, stopped, s);
    error := DecideLoop(t, states, tick, blocked, stopped, b);
    if error.None? {
      DecideFrame(t, b, tick, |tick|);
    }
  }

  /** The mark at the close, and the exits that a breach orders. */
  method CloseTick(t: Terms, states: seq<SymbolState>, tick: Tick, cash: real, dayStart: real, ghost d: Desk)
    returns (marked: real, breached: bool)
    requires |tick| == |states| && Separate(states) && Holds(states, d.slots) && cash == d.cash
             && dayStart == d.dayStart
    modifies states
    ensures Holds(states, MarkTick(t, d, tick).slots)
    ensures marked == d.cash + CloseValue(d.slots, tick, |tick|) && breached == LossBreached(t.risk, d.dayStart, marked)
  {
    hide LossBreached, CloseValue;
    var closeValue := CloseValueNow(states, tick, d.slots);
    marked := cash + closeValue;
    breached := LossBreached(t.risk, dayStart, marked);
    if breached && t.risk.dailyLossAction in {Reduce, Stop} {
      ExitLoop(states, d.slots);
    }
  }

  method NewStates(xs: seq<Listing>) returns (states: seq<SymbolState>)
    requires ValidListings(xs)
    ensures |states| == |xs| && Separate(states) && fresh(states)
    ensures forall k | 0 <= k < |xs| ::
              Describes(states[k], xs[k]) && states[k].View() == Slot(0.0, 0.0, NoOrder, xs[k].cells[0].bar.close)
  {
    states := [];
    for k := 0 to |xs|
      invariant |states| == k && Separate(states) && fresh(states)
      invariant forall j | 0 <= j < k ::
                  Describes(states[j], xs[j]) && states[j].View() == Slot(0.0, 0.0, NoOrder, xs[j].cells[0].bar.close)
    {
      assert ValidListing(xs[k]);
      var state := new SymbolState(xs[k]);
      states := states + [state];
    }
  }

  /** The local variables of the run, beside the states. */
  datatype Locals = Locals(
    cash: real, day: Option<int>, dayStart: real, blocked: bool, stopped: bool, trades: seq<Trade>, equity: seq<real>)

  function LocalsOf(d: Desk): Locals {
    Locals(d.cash, d.day, d.dayStart, d.blocked, d.stopped, d.trades, d.equity)
  }

  /** The body of the loop over the timestamps. */
  method RunTick(t: Terms, states: seq<SymbolState>, tick: Tick, ghost symbols: seq<string>, now: Locals, ghost d: Desk)
    returns (r: Result<Locals, RuleError>)
    requires t.Valid() && ValidTick(tick, symbols) && |states| == |symbols| && Separate(states)
    requires Holds(states, d.slots) && now == LocalsOf(d) && WithinLimits(t, d)
    modifies states
    ensures match Step(t, d, tick)
            case Ok(e) => r == Ok(LocalsOf(e)) && Holds(states, e.slots)
            case Err(rule) => r == Err(rule)
  {
    hide Rate, Step, OpenTick, SellAll, BuyAll, DecideAll, MarkTick, LossBreached, Exposure, WithinLimits;
    var cash, currentDay, dayStart, blocked, stopped := now.cash, now.day, now.dayStart, now.blocked, now.stopped;
    var day := FirstDay(tick);
    var exposure := ExposureNow(states, tick, d.slots);
    OpenTickFields(t, d, tick);
    if Some(day) != currentDay {
      currentDay := Some(day);
      dayStart := cash + exposure;
      blocked := false;
    }
    if LossBreached(t.risk, dayStart, cash + exposure) {
      blocked := true;
    }
    ghost var o := OpenTick(t, d, tick);
    OpenTickWithinLimits(t, d, tick);
    ghost var b := BuyAll(t, SellAll(t, o, tick, |tick|), tick, |tick|);
    var trades, error;
    cash, trades, error := TradeTick(t, states, tick, symbols, cash, now.trades, blocked, stopped, o);
    StepParts(t, d, tick);
    if error.Some? {
      return Err(error.value);
    }
    ghost var g := DecideAll(t, b, tick, |tick|).value;
    var marked, breached := CloseTick(t, states, tick, cash, dayStart, g);
    MarkTickFields(t, g, tick);
    return Ok(Locals(
      cash, currentDay, dayStart, blocked || breached, stopped || (breached && t.risk.dailyLossAction.Stop?),
      trades, now.equity + [marked]));
  }

  lemma StartHolds(t: Terms, xs: seq<Listing>, states: seq<SymbolState>)
    requires ValidListings(xs) && |states| == |xs|
    requires forall k | 0 <= k < |xs| :: states[k].View() == Slot(0.0, 0.0, NoOrder, xs[k].cells[0].bar.close)
    ensures Holds(states, Start(t, FirstCloses(xs)).slots)
  {
  }

  lemma TapeAt(xs: seq<Listing>, i: nat)
    requires i < |Timeline(xs)|
    ensures Tape(xs)[i] == TickAt(xs, Timeline(xs)[i])
  {
  }

  lemma StartAfter(t: Terms, closes: seq<real>, tape: seq<Tick>, symbols: seq<string>)
    requires ValidTape(tape, symbols) && |closes| == |symbols|
    ensures After(t, closes, tape, symbols, 0) == Ok(Start(t, closes))
  {
  }

  lemma StepAfter(t: Terms, closes: seq<real>, tape: seq<Tick>, symbols: seq<string>, i: nat)
    requires t.Valid() && ValidTape(tape, symbols) && |closes| == |symbols| && i < |tape|
             && After(t, closes, tape, symbols, i).Ok?
    ensures ValidTick(tape[i], symbols) && WithinLimits(t, After(t, closes, tape, symbols, i).value)
    ensures After(t, closes, tape, symbols, i + 1) == Step(t, After(t, closes, tape, symbols, i).value, tape[i])
  {
    hide Step, WithinLimits, Rate;
    RunWithinLimits(t, closes, tape, symbols, i);
  }

  /** The loop of `_run_multi_symbol_strategy`, from the listings to the sorted report. */
  method Run(t: Terms, xs: seq<Listing>) returns (r: Result<SingleEngine.Report, RunError>)
    requires t.risk.Valid() && ValidListings(xs)
    ensures r == Outcome(t, xs)
    ensures r == Err(InvalidRequest) <==> t.initialCash <= 0.0 || t.stress < 0.0
  {
    hide Rate, Step, After, TradeOrder.Sort, WithinLimits, Tape, Timeline, TickAt, Symbols, FirstCloses, Describes;
    if t.initialCash <= 0.0 || t.stress < 0.0 {
      return Err(InvalidRequest);
    }
    TapeValid(xs);
    ghost var symbols, tape, closes := Symbols(xs), Tape(xs), FirstCloses(xs);
    var states := NewStates(xs);
    var times := Timeline(xs);
    var now := Locals(t.initialCash, None, t.initialCash, false, false, [], []);
    ghost var d := Start(t, closes);
    StartHolds(t, xs, states);
    StartAfter(t, closes, tape, symbols);
    for i := 0 to |times|
      invariant After(t, closes, tape, symbols, i) == Ok(d)
      invariant Holds(states, d.slots) && now == LocalsOf(d)
    {
      var tick := CurrentBars(states, times[i], xs);
      TapeAt(xs, i);
      StepAfter(t, closes, tape, symbols, i);
      var next := RunTick(t, states, tick, symbols, now, d);
      if next.Err? {
        EarlyError(t, closes, tape, symbols, i + 1);
        return Err(RuleFailed(next.error));
      }
      now := next.value;
      d := Step(t, d, tick).value;
    }
    return Ok(SingleEngine.Report(now.equity, TradeOrder.Sort(now.trades)));
  }

  /** The constants of a state are those of its listing. */
  ghost predicate Describes(state: SymbolState, x: Listing) {
    && state.cells == x.cells
    && (forall time :: time in state.indexByTime <==> CellAt(x.cells, time).Some?)
    && (forall time | time in state.indexByTime ::
          state.indexByTime[time] < |x.cells| && CellAt(x.cells, time) == Some(x.cells[state.indexByTime[time]]))
  }

  method CurrentBars(states: seq<SymbolState>, time: int, ghost xs: seq<Listing>) returns (tick: Tick)
    requires |states| == |xs| && forall k | 0 <= k < |xs| :: Describes(states[k], xs[k])
    ensures tick == TickAt(xs, time)
  {
    tick := [];
    for k := 0 to |states|
      invariant |tick| == k && forall j | 0 <= j < k :: tick[j] == CellAt(xs[j].cells, time)
    {
      var state := states[k];
      assert Describes(state, xs[k]);
      tick := tick + [if time in state.indexByTime then Some(state.cells[state.indexByTime[time]]) else None];
    }
  }

  method FirstDay(tick: Tick) returns (day: int)
    requires exists k | 0 <= k < |tick| :: tick[k].Some?
    ensures day == DayOf(tick)
  {
    var k := 0;
    while tick[k].None?
      invariant k < |tick| && exists j | 0 <= j < |tick[k..]| :: tick[k..][j].Some?
      invariant DayOf(tick[k..]) == DayOf(tick)
      decreases |tick| - k
    {
      var j :| 0 <= j < |tick[k..]| && tick[k..][j].Some?;
      assert tick[k + 1..][j - 1].Some?;
      assert tick[k..][1..] == tick[k + 1..];
      k := k + 1;
    }
    day := tick[k].value.bar.day;
  }

  lemma OpenTickFields(t: Terms, d: Desk, tick: Tick)
    requires |tick| == |d.slots| && exists k | 0 <= k < |tick| :: tick[k].Some?
    ensures var equity := d.cash + Exposure(d.slots, tick, |tick|);
            var newDay := d.day != Some(DayOf(tick));
            var dayStart := if newDay then equity else d.dayStart;
            OpenTick(t, d, tick) == Desk(
              d.cash, d.slots, Some(DayOf(tick)), dayStart,
              (!newDay && d.blocked) || LossBreached(t.risk, dayStart, equity), d.stopped, d.trades, d.equity)
  {
    hide LossBreached, Exposure;
  }

  lemma StepParts(t: Terms, d: Desk, tick: Tick)
    requires |tick| == |d.slots| && exists k | 0 <= k < |tick| :: tick[k].Some?
    requires forall k | 0 <= k < |tick| && tick[k].Some? :: tick[k].value.bar.open > 0.0
    ensures var b := BuyAll(t, SellAll(t, OpenTick(t, d, tick), tick, |tick|), tick, |tick|);
            var g := DecideAll(t, b, tick, |tick|);
            Step(t, d, tick) == if g.Err? then g else Ok(MarkTick(t, g.value, tick))
  {
    hide OpenTick, SellAll, BuyAll, DecideAll, MarkTick;
  }

  lemma MarkTickFields(t: Terms, d: Desk, tick: Tick)
    requires |tick| == |d.slots|
    ensures var marked := d.cash + CloseValue(d.slots, tick, |tick|);
            var breached := LossBreached(t.risk, d.dayStart, marked);
            MarkTick(t, d, tick) == Desk(
              d.cash,
              if breached && t.risk.dailyLossAction in {Reduce, Stop} then OrderExits(d.slots) else d.slots,
              d.day, d.dayStart, d.blocked || breached,
              d.stopped || (breached && t.risk.dailyLossAction.Stop?), d.trades, d.equity + [marked])
  {
    hide LossBreached, CloseValue;
  }

  lemma {:induction false} EarlyError(t: Terms, firstCloses: seq<real>, tape: seq<Tick>, symbols: seq<string>, n: nat)
    requires ValidTape(tape, symbols) && |firstCloses| == |symbols| && n <= |tape|
    requires After(t, firstCloses, tape, symbols, n).Err?
    ensures After(t, firstCloses, tape, symbols, |tape|) == After(t, firstCloses, tape, symbols, n)
    decreases |tape| - n
  {
    hide Step;
    if n < |tape| {
      EarlyError(t, firstCloses, tape, symbols, n + 1);
    }
  }
}
