/** The many-symbol run of core/backtest/engine.py as a fold over ticks: one tick a timestamp, holding
    for each symbol its cell at that timestamp, if it has one. */
module MultiEngine {
  import opened Prelude
  import opened Costs
  import opened Strategy
  import opened Market

  type Tick = seq<Option<Cell>>

  /** The fields of a `_SymbolState` that a run changes. */
  datatype Slot = Slot(units: real, entryPrice: real, pending: Order, lastClose: real)

  /** The local variables of the run after some ticks. */
  datatype Desk = Desk(
    cash: real,
    slots: seq<Slot>,
    day: Option<int>,
    dayStart: real,
    blocked: bool,
    stopped: bool,
    trades: seq<Trade>,
    equity: seq<real>)

  /** The cash that every symbol may stake a share of, fixed for the run. */
  function Allotment(t: Terms, symbols: nat): real
    requires symbols > 0
  {
    t.initialCash / (symbols as real) * t.risk.positionSizePct / 100.0
  }

  function OpenMark(slot: Slot, cell: Option<Cell>): real {
    if cell.Some? then cell.value.bar.open else slot.lastClose
  }

  function CloseMark(slot: Slot, cell: Option<Cell>): real {
    if cell.Some? then cell.value.bar.close else slot.lastClose
  }

  /** What the first `n` positions are worth at the open, or at the last close of an absent symbol. */
  function Exposure(slots: seq<Slot>, tick: Tick, n: nat): real
    requires n <= |slots| == |tick|
  {
    if n == 0 then 0.0
    else Exposure(slots, tick, n - 1) + Value(slots[n - 1].units, OpenMark(slots[n - 1], tick[n - 1]))
  }

  function CloseValue(slots: seq<Slot>, tick: Tick, n: nat): real
    requires n <= |slots| == |tick|
  {
    if n == 0 then 0.0
    else CloseValue(slots, tick, n - 1) + Value(slots[n - 1].units, CloseMark(slots[n - 1], tick[n - 1]))
  }

  /** How many of the first `n` symbols hold units. */
  function Holding(slots: seq<Slot>, n: nat): nat
    requires n <= |slots|
  {
    if n == 0 then 0 else Holding(slots, n - 1) + if slots[n - 1].units > 0.0 then 1 else 0
  }

  /** The day of a tick is that of its first present symbol. */
  function DayOf(tick: Tick): int
    requires exists k | 0 <= k < |tick| :: tick[k].Some?
  {
    if tick[0].Some? then tick[0].value.bar.day else
    assert exists k | 0 <= k < |tick[1..]| :: tick[1..][k].Some? by {
      var k :| 0 <= k < |tick| && tick[k].Some?;
      assert tick[1..][k - 1].Some?;
    }
    DayOf(tick[1..])
  }

  function OpenTick(t: Terms, d: Desk, tick: Tick): Desk
    requires |tick| == |d.slots| && exists k | 0 <= k < |tick| :: tick[k].Some?
  {
    var equityAtOpen := d.cash + Exposure(d.slots, tick, |tick|);
    var newDay := d.day != Some(DayOf(tick));
    var dayStart := if newDay then equityAtOpen else d.dayStart;
    d.(day := Some(DayOf(tick)),
       dayStart := dayStart,
       blocked := (!newDay && d.blocked) || LossBreached(t.risk, dayStart, equityAtOpen))
  }

  predicate Sells(d: Desk, tick: Tick, k: nat)
    requires k < |tick| == |d.slots|
  {
    tick[k].Some? && d.slots[k].pending.ExitOrder? && d.slots[k].units > 0.0
  }

  function SellOne(t: Terms, d: Desk, tick: Tick, k: nat): Desk
    requires k < |tick| == |d.slots|
  {
    if !Sells(d, tick, k) then d else
    var slot, bar := d.slots[k], tick[k].value.bar;
    var notional := Value(slot.units, bar.open);
    var cost := CostOf(t, notional);
    d.(cash := d.cash + (notional - cost),
       slots := d.slots[k := slot.(units := 0.0, entryPrice := 0.0, pending := NoOrder)],
       trades := d.trades + [MakeTrade(bar, Sell, slot.units, cost)])
  }

  /** The first loop of a tick: exits, in the order of the symbols. */
  function SellAll(t: Terms, d: Desk, tick: Tick, n: nat): (r: Desk)
    requires n <= |tick| == |d.slots|
    ensures |r.slots| == |d.slots|
  {
    if n == 0 then d else SellOne(t, SellAll(t, d, tick, n - 1), tick, n - 1)
  }

  /** An entry is due when the symbol is present, wants one and holds nothing. */
  predicate EntryDue(d: Desk, tick: Tick, k: nat)
    requires k < |tick| == |d.slots|
  {
    tick[k].Some? && d.slots[k].pending.EntryOrder? && d.slots[k].units <= 0.0
  }

  predicate EntryAllowed(t: Terms, d: Desk, tick: Tick)
    requires |tick| == |d.slots| > 0
  {
    var notional := Allotment(t, |d.slots|);
    var exposure := Exposure(d.slots, tick, |tick|);
    && !d.blocked
    && !d.stopped
    && (t.risk.maxConcurrentPositions.None? || Holding(d.slots, |d.slots|) < t.risk.maxConcurrentPositions.value)
    && d.cash + TOLERANCE >= notional
    && ExposureAllows(t.risk, notional, d.cash + exposure, exposure)
  }

  predicate ValidTick(tick: Tick, symbols: seq<string>) {
    && |tick| == |symbols| > 0
    && (exists k | 0 <= k < |tick| :: tick[k].Some?)
    && forall k | 0 <= k < |tick| && tick[k].Some? ::
        tick[k].value.bar.Valid() && tick[k].value.bar.symbol == symbols[k]
  }

  function BuyOne(t: Terms, d: Desk, tick: Tick, k: nat): Desk
    requires k < |tick| == |d.slots|
    requires tick[k].Some? ==> tick[k].value.bar.open > 0.0
  {
    if !EntryDue(d, tick, k) then d else
    var slot, bar := d.slots[k], tick[k].value.bar;
    if !EntryAllowed(t, d, tick) then d.(slots := d.slots[k := slot.(pending := NoOrder)]) else
    var notional := Allotment(t, |d.slots|);
    var cost := CostOf(t, notional);
    var bought := UnitsBought(notional, cost, bar.open);
    d.(cash := d.cash - notional,
       slots := d.slots[k := slot.(units := bought, entryPrice := bar.open, pending := NoOrder)],
       trades := d.trades + [MakeTrade(bar, Buy, bought, cost)])
  }

  /** The second loop: entries, in the order of the symbols, each seeing the ones before it. */
  function BuyAll(t: Terms, d: Desk, tick: Tick, n: nat): (r: Desk)
    requires n <= |tick| == |d.slots|
    requires forall k | 0 <= k < |tick| && tick[k].Some? :: tick[k].value.bar.open > 0.0
    ensures |r.slots| == |d.slots|
  {
    if n == 0 then d else BuyOne(t, BuyAll(t, d, tick, n - 1), tick, n - 1)
  }

  function DecideOne(t: Terms, d: Desk, tick: Tick, k: nat): Result<Desk, RuleError>
    requires k < |tick| == |d.slots|
  {
    if tick[k].None? then Ok(d) else
    var cell := tick[k].value;
    var slot := d.slots[k].(lastClose := cell.bar.close);
    if slot.units > 0.0 then
      if cell.exit.Err? then Err(cell.exit.error)
      else if cell.exit.value || RiskExit(t.risk, slot.entryPrice, cell.bar.close) then
        Ok(d.(slots := d.slots[k := slot.(pending := ExitOrder)]))
      else Ok(d.(slots := d.slots[k := slot]))
    else if d.blocked || d.stopped then Ok(d.(slots := d.slots[k := slot]))
    else if cell.entry.Err? then Err(cell.entry.error)
    else if cell.entry.value then Ok(d.(slots := d.slots[k := slot.(pending := EntryOrder)]))
    else Ok(d.(slots := d.slots[k := slot]))
  }

  /** The third loop: the rules of the symbols present, at their closes. */
  function DecideAll(t: Terms, d: Desk, tick: Tick, n: nat): (r: Result<Desk, RuleError>)
    requires n <= |tick| == |d.slots|
    ensures r.Ok? ==> |r.value.slots| == |d.slots|
  {
    if n == 0 then Ok(d) else
    var before := DecideAll(t, d, tick, n - 1);
    if before.Err? then before else DecideOne(t, before.value, tick, n - 1)
  }

  function OrderExits(slots: seq<Slot>): (r: seq<Slot>)
    ensures |r| == |slots|
  {
    seq(|slots|, k requires 0 <= k < |slots| =>
      if slots[k].units > 0.0 then slots[k].(pending := ExitOrder) else slots[k])
  }

  function MarkTick(t: Terms, d: Desk, tick: Tick): Desk
    requires |tick| == |d.slots|
  {
    var marked := d.cash + CloseValue(d.slots, tick, |tick|);
    if LossBreached(t.risk, d.dayStart, marked) then
      d.(blocked := true,
         slots := if t.risk.dailyLossAction in {Reduce, Stop} then OrderExits(d.slots) else d.slots,
         stopped := d.stopped || t.risk.dailyLossAction.Stop?,
         equity := d.equity + [marked])
    else
      d.(equity := d.equity + [marked])
  }

  /** The desk when a tick has opened and all orders of the symbols present have filled or lapsed. */
  function AtOpen(t: Terms, d: Desk, tick: Tick): (r: Desk)
    requires |tick| == |d.slots| && exists k | 0 <= k < |tick| :: tick[k].Some?
    requires forall k | 0 <= k < |tick| && tick[k].Some? :: tick[k].value.bar.open > 0.0
    ensures |r.slots| == |d.slots|
  {
    BuyAll(t, SellAll(t, OpenTick(t, d, tick), tick, |tick|), tick, |tick|)
  }

  function Step(t: Terms, d: Desk, tick: Tick): (r: Result<Desk, RuleError>)
    requires |tick| == |d.slots| && exists k | 0 <= k < |tick| :: tick[k].Some?
    requires forall k | 0 <= k < |tick| && tick[k].Some? :: tick[k].value.bar.open > 0.0
    ensures r.Ok? ==> |r.value.slots| == |d.slots|
  {
    var decided := DecideAll(t, AtOpen(t, d, tick), tick, |tick|);
    if decided.Err? then decided else Ok(MarkTick(t, decided.value, tick))
  }

  ghost predicate ValidTape(tape: seq<Tick>, symbols: seq<string>) {
    forall i | 0 <= i < |tape| :: ValidTick(tape[i], symbols)
  }

  /** `firstCloses` are the closes of the first bars, with which the run starts each last close. */
  function Start(t: Terms, firstCloses: seq<real>): (d: Desk)
    ensures |d.slots| == |firstCloses|
  {
    Desk(t.initialCash,
         seq(|firstCloses|, k requires 0 <= k < |firstCloses| => Slot(0.0, 0.0, NoOrder, firstCloses[k])),
         None, t.initialCash, false, false, [], [])
  }

  /** The desk after the first `n` ticks. */
  function After(t: Terms, firstCloses: seq<real>, tape: seq<Tick>, symbols: seq<string>,
                 n: nat): (r: Result<Desk, RuleError>)
    requires ValidTape(tape, symbols) && |firstCloses| == |symbols| && n <= |tape|
    ensures r.Ok? ==> |r.value.slots| == |symbols|
  {
    if n == 0 then Ok(Start(t, firstCloses)) else
    var before := After(t, firstCloses, tape, symbols, n - 1);
    if before.Err? then before else Step(t, before.value, tape[n - 1])
  }

  // ----- Frames: what each part of a tick leaves alone

  lemma {:induction false} DecideFrame(t: Terms, d: Desk, tick: Tick, n: nat)
    requires n <= |tick| == |d.slots| && DecideAll(t, d, tick, n).Ok?
    ensures var e := DecideAll(t, d, tick, n).value;
            && e == d.(slots := e.slots)
            && (forall k | 0 <= k < |d.slots| ::
                  && e.slots[k].units == d.slots[k].units
                  && e.slots[k].entryPrice == d.slots[k].entryPrice
                  && (k >= n || tick[k].None? ==> e.slots[k] == d.slots[k])
                  && (k < n && tick[k].Some? ==> e.slots[k].lastClose == tick[k].value.bar.close)
                  && (d.slots[k].units > 0.0 && d.slots[k].pending.ExitOrder? ==> e.slots[k].pending.ExitOrder?))
  {
    hide RiskExit;
    if n > 0 {
      DecideFrame(t, d, tick, n - 1);
    }
  }

  /** After the open, a tick moves no money: it moves the last closes of the symbols present, places
      orders, blocks or stops, and marks one equity point. */
  lemma StepFrame(t: Terms, d: Desk, tick: Tick)
    requires |tick| == |d.slots| && exists k | 0 <= k < |tick| :: tick[k].Some?
    requires forall k | 0 <= k < |tick| && tick[k].Some? :: tick[k].value.bar.open > 0.0
    requires Step(t, d, tick).Ok?
    ensures var f, e := AtOpen(t, d, tick), Step(t, d, tick).value;
            && e.cash == f.cash && e.trades == f.trades && e.day == f.day && e.dayStart == f.dayStart
            && (f.blocked ==> e.blocked) && (f.stopped ==> e.stopped)
            && (forall k | 0 <= k < |d.slots| ::
                  && e.slots[k].units == f.slots[k].units
                  && e.slots[k].entryPrice == f.slots[k].entryPrice
                  && e.slots[k].lastClose == CloseMark(f.slots[k], tick[k])
                  && (f.slots[k].units > 0.0 && f.slots[k].pending.ExitOrder? ==> e.slots[k].pending.ExitOrder?))
            && |e.equity| == |f.equity| + 1
            && e.equity == f.equity + [e.cash + CloseValue(e.slots, tick, |tick|)]
  {
    hide AtOpen, LossBreached;
    var f := AtOpen(t, d, tick);
    DecideFrame(t, f, tick, |tick|);
    var g := DecideAll(t, f, tick, |tick|).value;
    CloseValueOf(g.slots, OrderExits(g.slots), tick, |tick|);
  }

  lemma {:induction false} CloseValueOf(a: seq<Slot>, b: seq<Slot>, tick: Tick, n: nat)
    requires n <= |a| == |b| == |tick|
    requires forall k | 0 <= k < n :: a[k].units == b[k].units && CloseMark(a[k], tick[k]) == CloseMark(b[k], tick[k])
    ensures CloseValue(a, tick, n) == CloseValue(b, tick, n)
  {
    hide Value;
    if n > 0 {
      CloseValueOf(a, b, tick, n - 1);
    }
  }

  lemma {:induction false} SellFrame(t: Terms, d: Desk, tick: Tick, n: nat)
    requires n <= |tick| == |d.slots|
    ensures var e := SellAll(t, d, tick, n);
            && e == d.(cash := e.cash, slots := e.slots, trades := e.trades)
            && d.trades <= e.trades
            && (forall k | 0 <= k < |d.slots| ::
                  e.slots[k] == if k < n && Sells(d, tick, k) then Slot(0.0, 0.0, NoOrder, d.slots[k].lastClose)
                      else d.slots[k])
  {
    hide CostOf, Value;
    if n > 0 {
      SellFrame(t, d, tick, n - 1);
    }
  }

  lemma {:induction false} BuyFrame(t: Terms, d: Desk, tick: Tick, n: nat)
    requires n <= |tick| == |d.slots|
    requires forall k | 0 <= k < |tick| && tick[k].Some? :: tick[k].value.bar.open > 0.0
    ensures var e := BuyAll(t, d, tick, n);
            && e == d.(cash := e.cash, slots := e.slots, trades := e.trades)
            && d.trades <= e.trades
            && (forall k | 0 <= k < |d.slots| ::
                  && e.slots[k].lastClose == d.slots[k].lastClose
                  && (k >= n || !EntryDue(d, tick, k) ==> e.slots[k] == d.slots[k])
                  && (k < n && EntryDue(d, tick, k) ==> e.slots[k].pending.NoOrder?))
  {
    hide CostOf, Value, UnitsBought, Allotment, EntryAllowed;
    if n > 0 {
      BuyFrame(t, d, tick, n - 1);
    }
  }

  lemma AtOpenKeepsEquity(t: Terms, d: Desk, tick: Tick)
    requires |tick| == |d.slots| && exists k | 0 <= k < |tick| :: tick[k].Some?
    requires forall k | 0 <= k < |tick| && tick[k].Some? :: tick[k].value.bar.open > 0.0
    ensures AtOpen(t, d, tick).equity == d.equity && d.trades <= AtOpen(t, d, tick).trades
  {
    hide SellAll, BuyAll, LossBreached, Exposure;
    var o := OpenTick(t, d, tick);
    SellFrame(t, o, tick, |tick|);
    BuyFrame(t, SellAll(t, o, tick, |tick|), tick, |tick|);
  }

  /** Each tick adds one equity point; trades are only added. */
  lemma {:induction false} EquityLength(t: Terms, xs: seq<real>, a: seq<Tick>, symbols: seq<string>, n: nat)
    requires ValidTape(a, symbols) && |xs| == |symbols| && n <= |a| && After(t, xs, a, symbols, n).Ok?
    ensures |After(t, xs, a, symbols, n).value.equity| == n
  {
    hide Step, AtOpen;
    if n > 0 {
      EquityLength(t, xs, a, symbols, n - 1);
      StepFrame(t, After(t, xs, a, symbols, n - 1).value, a[n - 1]);
      AtOpenKeepsEquity(t, After(t, xs, a, symbols, n - 1).value, a[n - 1]);
    }
  }

  /** What a run has after `m` ticks is a prefix of what it has later. */
  lemma {:induction false} History(t: Terms, xs: seq<real>, a: seq<Tick>, symbols: seq<string>, m: nat, n: nat)
    requires ValidTape(a, symbols) && |xs| == |symbols| && m <= n <= |a| && After(t, xs, a, symbols, n).Ok?
    ensures After(t, xs, a, symbols, m).Ok?
    ensures var d, e := After(t, xs, a, symbols, m).value, After(t, xs, a, symbols, n).value;
            d.trades <= e.trades && d.equity <= e.equity
    decreases n
  {
    hide Step, AtOpen;
    if m < n {
      History(t, xs, a, symbols, m, n - 1);
      StepFrame(t, After(t, xs, a, symbols, n - 1).value, a[n - 1]);
      AtOpenKeepsEquity(t, After(t, xs, a, symbols, n - 1).value, a[n - 1]);
    }
  }
}
