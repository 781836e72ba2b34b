/** Every trade of a many-symbol run, said symbol by symbol from the rules, the bars and the trades before it. */
module MultiTrades {
  import opened Prelude
  import opened Costs
  import opened Strategy
  import opened Market
  import opened MultiEngine
  import opened MultiLimits

  // ----- When there is room for a position

  /** The symbols that hold units. */
  function Holders(slots: seq<Slot>): set<int> {
    set k | 0 <= k < |slots| && slots[k].units > 0.0
  }

  /** A desk may buy for one more symbol: entries are open, a place is free among the concurrent positions, the
      allotment is in the cash, and with it the positions stay inside their share of the equity at the opens. */
  predicate Room(t: Terms, d: Desk, tick: Tick)
    requires |tick| == |d.slots| > 0
  {
    var stake, held := Allotment(t, |tick|), Sum(OpenValues(d.slots, tick));
    && !d.blocked && !d.stopped
    && (t.risk.maxConcurrentPositions.None? || |Holders(d.slots)| < t.risk.maxConcurrentPositions.value)
    && stake <= d.cash + TOLERANCE
    && (t.risk.maxTotalExposurePct.None?
        || held + stake <= (d.cash + held) * t.risk.maxTotalExposurePct.value / 100.0 + TOLERANCE)
  }

  lemma {:induction false} HoldingCount(slots: seq<Slot>, n: nat)
    requires n <= |slots|
    ensures Holding(slots, n) == |Holders(slots[..n])|
  {
    if n == 0 {
      assert Holders(slots[..0]) == {};
    } else {
      HoldingCount(slots, n - 1);
      HoldersMore(slots[..n - 1], slots[n - 1]);
      assert slots[..n] == slots[..n - 1] + [slots[n - 1]];
    }
  }

  lemma HoldersMore(slots: seq<Slot>, slot: Slot)
    ensures |Holders(slots + [slot])| == |Holders(slots)| + if slot.units > 0.0 then 1 else 0
  {
    var all := slots + [slot];
    assert forall k | 0 <= k < |slots| :: all[k] == slots[k];
    assert all[|slots|] == slot && |slots| !in Holders(slots);
    assert Holders(all) == Holders(slots) + if slot.units > 0.0 then {|slots|} else {};
  }

  lemma RoomIff(t: Terms, d: Desk, tick: Tick)
    requires |tick| == |d.slots| > 0
    ensures EntryAllowed(t, d, tick) <==> Room(t, d, tick)
  {
    hide Allotment, Holding, Holders, Exposure, OpenValues, CloseValues, Sum;
    HoldingCount(d.slots, |d.slots|);
    assert d.slots[..|d.slots|] == d.slots;
    WorthSum(d.slots, tick);
  }

  // ----- One symbol at an open

  /** What a desk buys for symbol `k`, given its order. */
  function Purchase(t: Terms, d: Desk, tick: Tick, k: nat): seq<Trade>
    requires k < |tick| == |d.slots| && (tick[k].Some? ==> tick[k].value.bar.open > 0.0)
  {
    if EntryDue(d, tick, k) && EntryAllowed(t, d, tick) then
      var bar, cost := tick[k].value.bar, CostOf(t, Allotment(t, |tick|));
      [MakeTrade(bar, Buy, UnitsBought(Allotment(t, |tick|), cost, bar.open), cost)]
    else []
  }

  /** What the two loops of an open make of one slot, given the desk just before it may buy. */
  function Opened(t: Terms, slot: Slot, b: Desk, tick: Tick, k: nat): Slot
    requires k < |tick| == |b.slots| && (tick[k].Some? ==> tick[k].value.bar.open > 0.0)
  {
    if tick[k].None? then slot
    else if slot.pending.ExitOrder? && slot.units > 0.0 then Slot(0.0, 0.0, NoOrder, slot.lastClose)
    else if slot.pending.EntryOrder? && slot.units <= 0.0 then
      if EntryAllowed(t, b, tick) then
        var open, stake := tick[k].value.bar.open, Allotment(t, |tick|);
        Slot(UnitsBought(stake, CostOf(t, stake), open), open, NoOrder, slot.lastClose)
      else slot.(pending := NoOrder)
    else slot
  }

  ghost predicate CanOpen(tick: Tick, symbols: seq<string>) {
    ValidTick(tick, symbols) && forall i, j | 0 <= i < j < |symbols| :: symbols[i] != symbols[j]
  }

  lemma Purchased(t: Terms, d: Desk, tick: Tick, symbols: seq<string>, m: nat, k: nat)
    requires CanOpen(tick, symbols) && |d.slots| == |symbols| && m < |symbols| && k < |symbols|
    ensures var e := BuyOne(t, d, tick, m);
            && Only(e.trades, symbols[k])
               == Only(d.trades, symbols[k]) + (if m == k then Purchase(t, d, tick, k) else [])
            && (m != k ==> e.slots[k] == d.slots[k])
            && (m == k ==>
                  e.slots[k] == if EntryDue(d, tick, k) then Opened(t, d.slots[k], d, tick, k) else d.slots[k])
  {
    hide CostOf, UnitsBought, Allotment, EntryAllowed, Only, Value;
    assert m != k ==> symbols[if m < k then m else k] != symbols[if m < k then k else m];
    if EntryDue(d, tick, m) && EntryAllowed(t, d, tick) {
      var e := BuyOne(t, d, tick, m);
      OnlySnoc(d.trades, e.trades[|d.trades|], symbols[k]);
    }
  }

  lemma {:induction false} BuysOf(t: Terms, d: Desk, tick: Tick, symbols: seq<string>, n: nat, k: nat)
    requires CanOpen(tick, symbols) && |d.slots| == |symbols| && n <= |symbols| && k < |symbols|
    ensures var b, e := BuyAll(t, d, tick, k), BuyAll(t, d, tick, n);
            && b.slots[k] == d.slots[k]
            && Only(e.trades, symbols[k])
               == Only(d.trades, symbols[k]) + (if k < n then Purchase(t, b, tick, k) else [])
            && e.slots[k] == if k < n && EntryDue(d, tick, k) then Opened(t, d.slots[k], b, tick, k) else d.slots[k]
  {
    hide BuyOne, Only, Purchase, EntryAllowed, Opened;
    BuyFrame(t, d, tick, k);
    if n > 0 {
      BuysOf(t, d, tick, symbols, n - 1, k);
      Purchased(t, BuyAll(t, d, tick, n - 1), tick, symbols, n - 1, k);
    }
  }

  /** The trades and the slot of one symbol at an open. */
  lemma OpenOf(t: Terms, d: Desk, tick: Tick, symbols: seq<string>, k: nat)
    requires CanOpen(tick, symbols) && |d.slots| == |symbols| && k < |symbols|
    ensures var b, f := BeforeBuy(t, d, tick, k), AtOpen(t, d, tick);
            && |b.slots| == |tick| && |f.slots| == |tick|
            && f.slots[k] == Opened(t, d.slots[k], b, tick, k)
            && Only(f.trades, symbols[k]) == Only(d.trades, symbols[k])
                 + (if Sells(d, tick, k) then ClosingSale(t, d, tick, k)
                    else if EntryDue(d, tick, k) then Purchase(t, b, tick, k) else [])
            && (EntryDue(d, tick, k) ==> EntryDue(b, tick, k))
            && (tick[k].None? ==> Only(f.trades, symbols[k]) == Only(d.trades, symbols[k]))
  {
    hide SellAll, BuyAll, Only, EntryAllowed, UnitsBought, Allotment, CostOf, Value, MakeTrade, LossBreached, DayOf,
         Exposure;
    var o := OpenTick(t, d, tick);
    var s := SellAll(t, o, tick, |tick|);
    SellFrame(t, o, tick, |tick|);
    SalesOf(t, o, tick, symbols, |tick|, k);
    BuysOf(t, s, tick, symbols, |tick|, k);
  }

  // ----- One symbol at a close

  /** What the rules ask of one symbol: nothing of one without a bar. */
  function Decided(t: Terms, slot: Slot, open: bool, cell: Option<Cell>): Order {
    if cell.None? then slot.pending
    else if slot.units > 0.0 then
      if cell.value.exit == Ok(true) || RiskExit(t.risk, slot.entryPrice, cell.value.bar.close) then ExitOrder
      else slot.pending
    else if open && cell.value.entry == Ok(true) then EntryOrder
    else slot.pending
  }

  lemma {:induction false} DecidedAll(t: Terms, d: Desk, tick: Tick, n: nat, k: nat)
    requires k < n <= |tick| == |d.slots| && DecideAll(t, d, tick, n).Ok?
    ensures DecideAll(t, d, tick, n).value.slots[k].pending
         == Decided(t, d.slots[k], !d.blocked && !d.stopped, tick[k])
  {
    hide RiskExit;
    DecideFrame(t, d, tick, n - 1);
    if k < n - 1 {
      DecidedAll(t, d, tick, n - 1, k);
    }
  }

  /** A loss limit reached at the closes takes every position down, if its action says so. */
  predicate TakesDown(t: Terms, d: Desk, tick: Tick)
    requires |tick| == |d.slots|
  {
    && LossBreached(t.risk, d.dayStart, d.cash + Sum(CloseValues(d.slots, tick)))
    && t.risk.dailyLossAction in {Reduce, Stop}
  }

  /** What marking a tick makes of one slot. */
  lemma Marked(t: Terms, g: Desk, tick: Tick, k: nat)
    requires k < |tick| == |g.slots|
    ensures var e := MarkTick(t, g, tick);
            && |e.slots| == |tick|
            && e.slots[k] == g.slots[k].(
                 pending := if g.slots[k].units > 0.0 && TakesDown(t, e, tick) then ExitOrder else g.slots[k].pending)
  {
    hide LossBreached, CloseValue, CloseValues, OpenValues, Sum, Exposure;
    CloseValueOf(g.slots, OrderExits(g.slots), tick, |tick|);
    WorthSum(MarkTick(t, g, tick).slots, tick);
    WorthSum(g.slots, tick);
  }

  /** The order that a tick leaves for one symbol. */
  lemma OrderOf(t: Terms, d: Desk, tick: Tick, symbols: seq<string>, k: nat)
    requires CanOpen(tick, symbols) && |d.slots| == |symbols| && k < |symbols| && Step(t, d, tick).Ok?
    ensures var f, e := AtOpen(t, d, tick), Step(t, d, tick).value;
            && |f.slots| == |e.slots| == |tick|
            && e.slots[k] == f.slots[k].(
                 lastClose := if tick[k].Some? then tick[k].value.bar.close else f.slots[k].lastClose,
                 pending := if f.slots[k].units > 0.0 && TakesDown(t, e, tick) then ExitOrder
                            else Decided(t, f.slots[k], !OpenTick(t, d, tick).blocked && !d.stopped, tick[k]))
  {
    hide AtOpen, MarkTick, TakesDown, DayOf, Exposure, Decided, LossBreached;
    var f := AtOpen(t, d, tick);
    AtOpenFrame(t, d, tick);
    DecideFrame(t, f, tick, |tick|);
    DecidedAll(t, f, tick, |tick|, k);
    Marked(t, DecideAll(t, f, tick, |tick|).value, tick, k);
  }

  // ----- One symbol over a run

  /** The last tick before `n` in which symbol `k` has a bar. */
  function LastBar(tape: seq<Tick>, symbols: seq<string>, k: nat, n: nat): (p: Option<nat>)
    requires ValidTape(tape, symbols) && k < |symbols| && n <= |tape|
    ensures p.Some? ==> p.value < n && tape[p.value][k].Some?
    ensures forall i | 0 <= i < n && (p.Some? ==> p.value < i) :: tape[i][k].None?
  {
    if n == 0 then None else if tape[n - 1][k].Some? then Some(n - 1) else LastBar(tape, symbols, k, n - 1)
  }

  ghost predicate Runs(t: Terms, firstCloses: seq<real>, tape: seq<Tick>, symbols: seq<string>, n: nat) {
    && ValidTape(tape, symbols) && |firstCloses| == |symbols| && n <= |tape|
    && (forall i, j | 0 <= i < j < |symbols| :: symbols[i] != symbols[j])
    && After(t, firstCloses, tape, symbols, n).Ok?
    && forall j | 0 <= j <= n :: After(t, firstCloses, tape, symbols, j).Ok?
  }

  /** Between tick `p` and tick `n` a loss limit reached at some closes takes the positions down. */
  ghost predicate TakenDown(t: Terms, firstCloses: seq<real>, tape: seq<Tick>, symbols: seq<string>, p: nat, n: nat)
    requires Runs(t, firstCloses, tape, symbols, n) && p <= n
  {
    t.risk.dailyLossAction in {Reduce, Stop}
    && exists q | p <= q < n :: BreachAtClose(t, firstCloses, tape, symbols, q)
  }

  /** At tick `p`, its last before `n`, or since, symbol `k` is asked to leave: by its exit rule, by the stop loss
      or the take profit against the price of its purchase, or by a loss limit reached at closes. */
  ghost predicate LeaveAsked(t: Terms, firstCloses: seq<real>, tape: seq<Tick>, symbols: seq<string>, k: nat, p: nat,
                             n: nat, price: real)
    requires Runs(t, firstCloses, tape, symbols, n) && k < |symbols| && p < n && tape[p][k].Some?
  {
    || tape[p][k].value.exit == Ok(true)
    || RiskExit(t.risk, price, tape[p][k].value.bar.close)
    || TakenDown(t, firstCloses, tape, symbols, p, n)
  }

  /** At tick `p` symbol `k` is asked to enter: by its entry rule, on an open day of a run that is not stopped. */
  ghost predicate EnterAsked(t: Terms, firstCloses: seq<real>, tape: seq<Tick>, symbols: seq<string>, k: nat, p: nat)
    requires Runs(t, firstCloses, tape, symbols, p) && k < |symbols| && p < |tape| && tape[p][k].Some?
  {
    && tape[p][k].value.entry == Ok(true)
    && !DayOpen(t, firstCloses, tape, symbols, p).blocked
    && !After(t, firstCloses, tape, symbols, p).value.stopped
  }

  /** The last of these trades is a purchase of so many units at that price. */
  predicate EndsInPurchase(trades: seq<Trade>, units: real, price: real) {
    trades != [] && trades[|trades| - 1].side.Buy? && trades[|trades| - 1].quantity == units
    && trades[|trades| - 1].price == price > 0.0
  }

  /** The state of symbol `k` before tick `n`, from its trades, its last bar and what was asked since. */
  ghost predicate SlotKnown(t: Terms, firstCloses: seq<real>, tape: seq<Tick>, symbols: seq<string>, k: nat, n: nat)
    requires Runs(t, firstCloses, tape, symbols, n) && k < |symbols|
  {
    var d, p := After(t, firstCloses, tape, symbols, n).value, LastBar(tape, symbols, k, n);
    var slot := d.slots[k];
    && slot.units >= 0.0
    && (slot.units > 0.0 ==> p.Some? && EndsInPurchase(Only(d.trades, symbols[k]), slot.units, slot.entryPrice))
    && slot.lastClose == (if p.None? then firstCloses[k] else tape[p.value][k].value.bar.close)
    && slot.pending ==
         if p.None? then NoOrder
         else if slot.units > 0.0 then
           (if LeaveAsked(t, firstCloses, tape, symbols, k, p.value, n, slot.entryPrice) then ExitOrder else NoOrder)
         else
           (if EnterAsked(t, firstCloses, tape, symbols, k, p.value) then EntryOrder else NoOrder)
  }

  lemma RunsUntil(t: Terms, firstCloses: seq<real>, tape: seq<Tick>, symbols: seq<string>, p: nat, n: nat)
    requires Runs(t, firstCloses, tape, symbols, n) && p <= n
    ensures Runs(t, firstCloses, tape, symbols, p)
  {
  }

  lemma RunsParts(t: Terms, firstCloses: seq<real>, tape: seq<Tick>, symbols: seq<string>, n: nat)
    requires Runs(t, firstCloses, tape, symbols, n)
    ensures |firstCloses| == |symbols| && n <= |tape| && forall i | 0 <= i < n :: |tape[i]| == |symbols|
  {
  }

  lemma TakesDownIff(t: Terms, firstCloses: seq<real>, tape: seq<Tick>, symbols: seq<string>, n: nat)
    requires Runs(t, firstCloses, tape, symbols, n + 1) && n < |tape|
    ensures TakesDown(t, After(t, firstCloses, tape, symbols, n + 1).value, tape[n])
            <==> t.risk.dailyLossAction in {Reduce, Stop} && BreachAtClose(t, firstCloses, tape, symbols, n)
  {
    hide Step, LossBreached, FirstOfDay, CloseValues, OpenValues, Sum, DayOf;
    DayStartsAtOpen(t, firstCloses, tape, symbols, n);
  }

  /** A tick without a bar of the symbol. */
  lemma AbsentStep(t: Terms, firstCloses: seq<real>, tape: seq<Tick>, symbols: seq<string>, k: nat, n: nat)
    requires Runs(t, firstCloses, tape, symbols, n + 1) && k < |symbols| && n < |tape| && tape[n][k].None?
    requires Runs(t, firstCloses, tape, symbols, n) && SlotKnown(t, firstCloses, tape, symbols, k, n)
    ensures SlotKnown(t, firstCloses, tape, symbols, k, n + 1)
  {
    hide Step, AtOpen, BreachAtClose, BreachAtOpen, RiskExit, OpenTick, Only, TakesDown, EnterAsked, EndsInPurchase,
         BeforeBuy, DayOf;
    var d := After(t, firstCloses, tape, symbols, n).value;
    OpenOf(t, d, tape[n], symbols, k);
    OrderOf(t, d, tape[n], symbols, k);
    StepFrame(t, d, tape[n]);
    TakesDownIff(t, firstCloses, tape, symbols, n);
    var p := LastBar(tape, symbols, k, n);
    assert LastBar(tape, symbols, k, n + 1) == p;
    if p.Some? {
      TakenDownStep(t, firstCloses, tape, symbols, p.value, n);
    }
    hide Runs;
  }

  lemma TakenDownStep(t: Terms, firstCloses: seq<real>, tape: seq<Tick>, symbols: seq<string>, p: nat, n: nat)
    requires Runs(t, firstCloses, tape, symbols, n + 1) && p <= n < |tape|
    ensures Runs(t, firstCloses, tape, symbols, n)
    ensures TakenDown(t, firstCloses, tape, symbols, p, n + 1)
            <==> || TakenDown(t, firstCloses, tape, symbols, p, n)
                 || (t.risk.dailyLossAction in {Reduce, Stop} && BreachAtClose(t, firstCloses, tape, symbols, n))
  {
    hide BreachAtClose, Step;
  }

  /** A tick with one. */
  lemma PresentStep(t: Terms, firstCloses: seq<real>, tape: seq<Tick>, symbols: seq<string>, k: nat, n: nat)
    requires Runs(t, firstCloses, tape, symbols, n + 1) && k < |symbols| && n < |tape| && tape[n][k].Some?
    requires Runs(t, firstCloses, tape, symbols, n) && SlotKnown(t, firstCloses, tape, symbols, k, n)
    ensures SlotKnown(t, firstCloses, tape, symbols, k, n + 1)
  {
    hide Step, AtOpen, BreachAtClose, BreachAtOpen, RiskExit, OpenTick, Only, TakesDown, BeforeBuy, DayOf, CostOf,
         Allotment, EntryAllowed, Value;
    var d := After(t, firstCloses, tape, symbols, n).value;
    OpenOf(t, d, tape[n], symbols, k);
    OrderOf(t, d, tape[n], symbols, k);
    StepFrame(t, d, tape[n]);
    TakesDownIff(t, firstCloses, tape, symbols, n);
    TakenDownStep(t, firstCloses, tape, symbols, n, n);
    assert LastBar(tape, symbols, k, n + 1) == Some(n);
    assert !TakenDown(t, firstCloses, tape, symbols, n, n);
    BoughtNotNegative(Allotment(t, |symbols|), CostOf(t, Allotment(t, |symbols|)), tape[n][k].value.bar.open);
    hide UnitsBought;
    NothingMore(Only(d.trades, symbols[k]));
  }

  lemma BoughtNotNegative(notional: real, cost: real, price: real)
    requires price > 0.0
    ensures UnitsBought(notional, cost, price) >= 0.0
  {
  }

  lemma NothingMore(trades: seq<Trade>)
    ensures trades + [] == trades
  {
  }

  lemma {:induction false} AlwaysKnown(t: Terms, firstCloses: seq<real>, tape: seq<Tick>, symbols: seq<string>, k: nat,
                                       n: nat)
    requires Runs(t, firstCloses, tape, symbols, n) && k < |symbols|
    ensures SlotKnown(t, firstCloses, tape, symbols, k, n)
  {
    hide SlotKnown, Step, Runs;
    RunsParts(t, firstCloses, tape, symbols, n);
    if n == 0 {
      StartKnown(t, firstCloses, tape, symbols, k);
    } else {
      RunsUntil(t, firstCloses, tape, symbols, n - 1, n);
      AlwaysKnown(t, firstCloses, tape, symbols, k, n - 1);
      if tape[n - 1][k].Some? {
        PresentStep(t, firstCloses, tape, symbols, k, n - 1);
      } else {
        AbsentStep(t, firstCloses, tape, symbols, k, n - 1);
      }
    }
  }

  lemma StartKnown(t: Terms, firstCloses: seq<real>, tape: seq<Tick>, symbols: seq<string>, k: nat)
    requires Runs(t, firstCloses, tape, symbols, 0) && k < |symbols|
    ensures SlotKnown(t, firstCloses, tape, symbols, k, 0)
  {
  }

  /** The trades of each symbol at each tick, of any run. A symbol without a bar trades nothing. One that holds its
      last purchase sells all of it if it has been asked to leave since its last bar. One that holds nothing buys
      its allotment's worth if it was asked to enter at its last bar and there is room for it now, the symbols
      before it having bought. There are no other trades. */
  lemma TradesOfTick(t: Terms, firstCloses: seq<real>, tape: seq<Tick>, symbols: seq<string>, k: nat, n: nat)
    requires ValidTape(tape, symbols) && |firstCloses| == |symbols| && n < |tape| && k < |symbols|
    requires forall i, j | 0 <= i < j < |symbols| :: symbols[i] != symbols[j]
    requires After(t, firstCloses, tape, symbols, n + 1).Ok?
    ensures Runs(t, firstCloses, tape, symbols, n)
    ensures var d := After(t, firstCloses, tape, symbols, n).value;
            var e := After(t, firstCloses, tape, symbols, n + 1).value;
            var mine, p, tick := Only(d.trades, symbols[k]), LastBar(tape, symbols, k, n), tape[n];
            var units := d.slots[k].units;
            if tick[k].None? || p.None? then Only(e.trades, symbols[k]) == mine
            else if units > 0.0 then
              && mine != []
              && var bought := mine[|mine| - 1];
                 && bought.side.Buy? && bought.quantity == units
                 && Only(e.trades, symbols[k]) == mine +
                      if LeaveAsked(t, firstCloses, tape, symbols, k, p.value, n, bought.price)
                      then [MakeTrade(tick[k].value.bar, Sell, units, CostOf(t, Value(units, tick[k].value.bar.open)))]
                      else []
            else
              && Runs(t, firstCloses, tape, symbols, p.value)
              && Only(e.trades, symbols[k]) == mine +
                   if EnterAsked(t, firstCloses, tape, symbols, k, p.value) && Room(t, BeforeBuy(t, d, tick, k), tick)
                   then
                     var stake := Allotment(t, |symbols|);
                     [MakeTrade(tick[k].value.bar, Buy, UnitsBought(stake, CostOf(t, stake), tick[k].value.bar.open),
                                CostOf(t, stake))]
                   else []
  {
    hide Step, AtOpen, LeaveAsked, EnterAsked, OpenTick, Only, BeforeBuy, DayOf, CostOf, Allotment, EntryAllowed, Value,
         MakeTrade, UnitsBought, Room, BreachAtClose;
    AllOk(t, firstCloses, tape, symbols, n + 1);
    AlwaysKnown(t, firstCloses, tape, symbols, k, n);
    TickTrades(t, After(t, firstCloses, tape, symbols, n).value, tape[n], symbols, k);
  }

  /** The trades of a symbol at a tick, from its order. */
  lemma TickTrades(t: Terms, d: Desk, tick: Tick, symbols: seq<string>, k: nat)
    requires CanOpen(tick, symbols) && |d.slots| == |symbols| && k < |symbols| && Step(t, d, tick).Ok?
    ensures var slot, mine, e := d.slots[k], Only(d.trades, symbols[k]), Step(t, d, tick).value;
            Only(e.trades, symbols[k]) ==
              if tick[k].None? then mine
              else if slot.pending.ExitOrder? && slot.units > 0.0 then
                var notional := Value(slot.units, tick[k].value.bar.open);
                mine + [MakeTrade(tick[k].value.bar, Sell, slot.units, CostOf(t, notional))]
              else if slot.pending.EntryOrder? && slot.units <= 0.0 && Room(t, BeforeBuy(t, d, tick, k), tick) then
                var stake := Allotment(t, |symbols|);
                mine + [MakeTrade(tick[k].value.bar, Buy, UnitsBought(stake, CostOf(t, stake), tick[k].value.bar.open),
                                  CostOf(t, stake))]
              else mine
  {
    hide Step, AtOpen, Only, BeforeBuy, DayOf, CostOf, Allotment, EntryAllowed, Value, MakeTrade, UnitsBought, Room;
    OpenOf(t, d, tick, symbols, k);
    StepFrame(t, d, tick);
    RoomIff(t, BeforeBuy(t, d, tick, k), tick);
    NothingMore(Only(d.trades, symbols[k]));
  }
}
