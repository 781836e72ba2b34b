/** Conservation in a many-symbol run, up to the report: the accounting identity holds after every
    tick, and survives the sort of the trades by text. */
module MultiConservation {
  import opened Prelude
  import opened Costs
  import opened Market
  import opened Ledger
  import opened MultiEngine
  import opened MultiLimits

  /** What was paid for the open lots of the first `n` symbols. */
  function PaidAll(book: Book, symbols: seq<string>, n: nat): real
    requires n <= |symbols|
  {
    if n == 0 then 0.0 else PaidAll(book, symbols, n - 1) + Paid(book.Lots(symbols[n - 1]))
  }

  ghost predicate Distinct(symbols: seq<string>) {
    forall i, j | 0 <= i < j < |symbols| :: symbols[i] != symbols[j]
  }

  /** As for one symbol: the cash is what the closed trades made and the open lots took, and the open
      lots of each symbol back its units. */
  ghost predicate Balanced(t: Terms, d: Desk, symbols: seq<string>)
    requires |d.slots| == |symbols|
  {
    var book := Replay(d.trades);
    && d.cash == t.initialCash + Sum(book.pnls) - PaidAll(book, symbols, |symbols|)
    && forall k | 0 <= k < |symbols| :: Backs(book.Lots(symbols[k]), d.slots[k].units, t.CostRate())
  }

  /** Only the paid amount of one symbol changes when a trade of that symbol is posted. */
  lemma {:induction false} PaidAllPost(book: Book, trade: Trade, symbols: seq<string>, k: nat, n: nat)
    requires n <= |symbols| && k < |symbols| && Distinct(symbols) && trade.symbol == symbols[k]
    ensures PaidAll(book.Post(trade), symbols, n)
         == PaidAll(book, symbols, n)
            + (if k < n then Paid(book.Post(trade).Lots(symbols[k])) - Paid(book.Lots(symbols[k])) else 0.0)
  {
    hide Paid;
    if n > 0 {
      PaidAllPost(book, trade, symbols, k, n - 1);
      if n - 1 != k {
        assert book.Post(trade).Lots(symbols[n - 1]) == book.Lots(symbols[n - 1]);
      }
    }
  }

  lemma SellOneBalanced(t: Terms, d: Desk, tick: Tick, k: nat, symbols: seq<string>)
    requires ValidTick(tick, symbols) && |d.slots| == |symbols| && k < |symbols| && Distinct(symbols)
    requires Balanced(t, d, symbols)
    ensures Balanced(t, SellOne(t, d, tick, k), symbols)
  {
    hide Rate, CostOf, Value, PaidAll, Paid, Backs;
    if Sells(d, tick, k) {
      var book := Replay(d.trades);
      var e := SellOne(t, d, tick, k);
      var trade := e.trades[|d.trades|];
      ReplaySnoc(d.trades, trade);
      SellCloses(book, d.slots[k].units, t.CostRate(), trade);
      PaidAllPost(book, trade, symbols, k, |symbols|);
      assert Paid([]) == 0.0 && Backs([], 0.0, t.CostRate()) by {
        NoLots(t.CostRate());
      }
      forall j | 0 <= j < |symbols|
        ensures Backs(book.Post(trade).Lots(symbols[j]), e.slots[j].units, t.CostRate())
      {
        if j != k {
          assert book.Post(trade).Lots(symbols[j]) == book.Lots(symbols[j]);
        }
      }
    }
  }

  lemma NoLots(rate: real)
    ensures Paid([]) == 0.0 && Backs([], 0.0, rate)
  {
  }

  lemma BuyOneBalanced(t: Terms, d: Desk, tick: Tick, k: nat, symbols: seq<string>)
    requires t.Valid() && t.CostRate() <= 1.0
    requires ValidTick(tick, symbols) && |d.slots| == |symbols| && k < |symbols| && Distinct(symbols)
    requires Balanced(t, d, symbols)
    ensures Balanced(t, BuyOne(t, d, tick, k), symbols)
  {
    hide Rate, CostOf, Value, PaidAll, Paid, UnitsBought, Allotment, EntryAllowed;
    if EntryDue(d, tick, k) && EntryAllowed(t, d, tick) {
      var book := Replay(d.trades);
      var e := BuyOne(t, d, tick, k);
      var trade := e.trades[|d.trades|];
      var lots := book.Lots(symbols[k]);
      assert Backs(lots, d.slots[k].units, t.CostRate());
      ReplaySnoc(d.trades, trade);
      PaidByBuy(lots, trade);
      PaidAllPost(book, trade, symbols, k, |symbols|);
      AllotmentPositive(t, |symbols|);
      UnitsBoughtSign(t, Allotment(t, |symbols|), tick[k].value.bar.open);
      assert Replay(e.trades).Lots(symbols[k]) == lots + [trade];
      assert Backs(lots + [trade], trade.quantity, t.CostRate());
      forall j | 0 <= j < |symbols| && j != k
        ensures Backs(Replay(e.trades).Lots(symbols[j]), e.slots[j].units, t.CostRate())
      {
        assert Replay(e.trades).Lots(symbols[j]) == book.Lots(symbols[j]);
      }
    }
  }

  lemma {:induction false} SellAllBalanced(t: Terms, d: Desk, tick: Tick, n: nat, symbols: seq<string>)
    requires ValidTick(tick, symbols) && |d.slots| == |symbols| && n <= |symbols| && Distinct(symbols)
    requires Balanced(t, d, symbols)
    ensures Balanced(t, SellAll(t, d, tick, n), symbols)
  {
    hide Balanced, SellOne, Rate;
    if n > 0 {
      SellAllBalanced(t, d, tick, n - 1, symbols);
      SellOneBalanced(t, SellAll(t, d, tick, n - 1), tick, n - 1, symbols);
    }
  }

  lemma {:induction false} BuyAllBalanced(t: Terms, d: Desk, tick: Tick, n: nat, symbols: seq<string>)
    requires t.Valid() && t.CostRate() <= 1.0
    requires ValidTick(tick, symbols) && |d.slots| == |symbols| && n <= |symbols| && Distinct(symbols)
    requires Balanced(t, d, symbols)
    ensures Balanced(t, BuyAll(t, d, tick, n), symbols)
  {
    hide Balanced, BuyOne, Rate;
    if n > 0 {
      BuyAllBalanced(t, d, tick, n - 1, symbols);
      BuyOneBalanced(t, BuyAll(t, d, tick, n - 1), tick, n - 1, symbols);
    }
  }

  /** Balance depends on the cash, the trades and the units alone. */
  lemma BalancedFrame(t: Terms, d: Desk, e: Desk, symbols: seq<string>)
    requires |d.slots| == |e.slots| == |symbols| && Balanced(t, d, symbols)
    requires e.cash == d.cash && e.trades == d.trades
    requires forall k | 0 <= k < |symbols| :: e.slots[k].units == d.slots[k].units
    ensures Balanced(t, e, symbols)
  {
    hide Rate, Backs, PaidAll;
  }

  lemma {:induction false} AlwaysBalanced(t: Terms, firstCloses: seq<real>, tape: seq<Tick>, symbols: seq<string>,
                                          n: nat)
    requires t.Valid() && t.CostRate() <= 1.0 && Distinct(symbols)
    requires ValidTape(tape, symbols) && |firstCloses| == |symbols| && n <= |tape|
    requires After(t, firstCloses, tape, symbols, n).Ok?
    ensures Balanced(t, After(t, firstCloses, tape, symbols, n).value, symbols)
  {
    hide Step, Balanced, OpenTick, SellAll, BuyAll, Rate;
    if n == 0 {
      StartBalanced(t, firstCloses, symbols);
    } else {
      AlwaysBalanced(t, firstCloses, tape, symbols, n - 1);
      var tick, d := tape[n - 1], After(t, firstCloses, tape, symbols, n - 1).value;
      var o := OpenTick(t, d, tick);
      OpenTickFrame(t, d, tick);
      BalancedFrame(t, d, o, symbols);
      SellAllBalanced(t, o, tick, |tick|, symbols);
      BuyAllBalanced(t, SellAll(t, o, tick, |tick|), tick, |tick|, symbols);
      StepFrame(t, d, tick);
      BalancedFrame(t, AtOpen(t, d, tick), Step(t, d, tick).value, symbols);
    }
  }

  lemma OpenTickFrame(t: Terms, d: Desk, tick: Tick)
    requires |tick| == |d.slots| && exists k | 0 <= k < |tick| :: tick[k].Some?
    ensures var o := OpenTick(t, d, tick);
            o.cash == d.cash && o.trades == d.trades && o.slots == d.slots && o.stopped == d.stopped
                && o.equity == d.equity
  {
  }

  lemma StartBalanced(t: Terms, firstCloses: seq<real>, symbols: seq<string>)
    requires |firstCloses| == |symbols|
    ensures Balanced(t, Start(t, firstCloses), symbols)
  {
    hide Rate;
    NothingPaid(symbols, |symbols|);
  }

  lemma {:induction false} NothingPaid(symbols: seq<string>, n: nat)
    requires n <= |symbols|
    ensures PaidAll(Book(map[], []), symbols, n) == 0.0
  {
    if n > 0 {
      NothingPaid(symbols, n - 1);
    }
  }

  // ----- The accounting identity

  /** What the open lots of the first `n` symbols are worth over their price, marked at the last closes. */
  function OpenValues(book: Book, symbols: seq<string>, slots: seq<Slot>, n: nat): real
    requires n <= |symbols| == |slots|
  {
    if n == 0 then 0.0
    else OpenValues(book, symbols, slots, n - 1) + OpenValue(book.Lots(symbols[n - 1]), slots[n - 1].lastClose)
  }

  /** The last equity point is the initial cash, plus the profits of the closed trades, plus what the
      open lots of every symbol are worth over their price. */
  ghost predicate Conserved(t: Terms, d: Desk, trades: seq<Trade>, symbols: seq<string>)
    requires |d.slots| == |symbols|
  {
    var book := Replay(trades);
    && d.equity != []
    && d.equity[|d.equity| - 1] == t.initialCash + Sum(book.pnls) + OpenValues(book, symbols, d.slots, |symbols|)
  }

  lemma {:induction false} BackedValues(book: Book, symbols: seq<string>, slots: seq<Slot>, tick: Tick, rate: real,
                                        n: nat)
    requires n <= |symbols| == |slots| == |tick|
    requires forall k | 0 <= k < n :: Backs(book.Lots(symbols[k]), slots[k].units, rate)
    requires forall k | 0 <= k < n :: CloseMark(slots[k], tick[k]) == slots[k].lastClose
    ensures OpenValues(book, symbols, slots, n) == CloseValue(slots, tick, n) - PaidAll(book, symbols, n)
  {
    hide Value, Paid, OpenValue, Backs;
    if n > 0 {
      BackedValues(book, symbols, slots, tick, rate, n - 1);
      BackedValue(book.Lots(symbols[n - 1]), slots[n - 1].units, rate, slots[n - 1].lastClose);
    }
  }

  /** Whatever the rules and prices, the identity holds after every tick when the cost takes no more
      than the notional of a trade. */
  lemma RunConserves(t: Terms, firstCloses: seq<real>, tape: seq<Tick>, symbols: seq<string>, n: nat)
    requires t.Valid() && t.CostRate() <= 1.0 && Distinct(symbols)
    requires ValidTape(tape, symbols) && |firstCloses| == |symbols| && 0 < n <= |tape|
    requires After(t, firstCloses, tape, symbols, n).Ok?
    ensures var d := After(t, firstCloses, tape, symbols, n).value; Conserved(t, d, d.trades, symbols)
  {
    hide Step, AtOpen, Backs, Rate;
    AlwaysBalanced(t, firstCloses, tape, symbols, n);
    var before := After(t, firstCloses, tape, symbols, n - 1).value;
    var d := After(t, firstCloses, tape, symbols, n).value;
    StepFrame(t, before, tape[n - 1]);
    BackedValues(Replay(d.trades), symbols, d.slots, tape[n - 1], t.CostRate(), |symbols|);
  }
}
