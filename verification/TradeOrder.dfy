/** The sort of the trades that a many-symbol run ends with, and why the books survive it. */
module TradeOrder {
  import opened Prelude
  import opened Costs
  import opened Market
  import opened Ledger
  import opened MultiEngine
  import opened MultiConservation
  import opened LoneSymbol

  // ----- The sort

  predicate TextLess(a: string, b: string) {
    if b == [] then false
    else if a == [] then true
    else a[0] < b[0] || (a[0] == b[0] && TextLess(a[1..], b[1..]))
  }

  /** The key of the sort: the ISO text of the timestamp, the symbol, and "buy" before "sell". */
  predicate Before(a: Trade, b: Trade) {
    || a.stamp < b.stamp
    || (a.stamp == b.stamp && TextLess(a.symbol, b.symbol))
    || (a.stamp == b.stamp && a.symbol == b.symbol && a.side.Buy? && b.side.Sell?)
  }

  function Insert(sorted: seq<Trade>, trade: Trade): seq<Trade> {
    if sorted == [] || !Before(trade, sorted[|sorted| - 1]) then sorted + [trade]
    else Insert(sorted[..|sorted| - 1], trade) + [sorted[|sorted| - 1]]
  }

  /** Stable, as Python's sort is. */
  function Sort(trades: seq<Trade>): seq<Trade> {
    if trades == [] then [] else Insert(Sort(trades[..|trades| - 1]), trades[|trades| - 1])
  }

  ghost predicate Sorted(trades: seq<Trade>) {
    forall i, j | 0 <= i < j < |trades| :: !Before(trades[j], trades[i])
  }

  lemma {:induction false} TextLessOrder(a: string, b: string, c: string)
    ensures !(TextLess(a, b) && TextLess(b, a))
    ensures TextLess(a, b) && TextLess(b, c) ==> TextLess(a, c)
    ensures a == b || TextLess(a, b) || TextLess(b, a)
  {
    if a != [] && b != [] {
      TextLessOrder(a[1..], b[1..], if c == [] then [] else c[1..]);
      assert a == [a[0]] + a[1..] && b == [b[0]] + b[1..];
    }
  }

  lemma BeforeOrder(a: Trade, b: Trade, c: Trade)
    ensures Before(a, b) ==> !Before(b, a)
    ensures !Before(b, a) && !Before(c, b) ==> !Before(c, a)
  {
    TextLessOrder(a.symbol, b.symbol, c.symbol);
    TextLessOrder(b.symbol, c.symbol, a.symbol);
    TextLessOrder(c.symbol, a.symbol, b.symbol);
  }

  lemma {:induction false} InsertSorts(sorted: seq<Trade>, trade: Trade)
    requires Sorted(sorted)
    ensures Sorted(Insert(sorted, trade))
    ensures multiset(Insert(sorted, trade)) == multiset(sorted) + multiset{trade}
  {
    if sorted != [] {
      var front, last := sorted[..|sorted| - 1], sorted[|sorted| - 1];
      assert sorted == front + [last];
      if Before(trade, last) {
        InsertSorts(front, trade);
        var inserted := Insert(front, trade);
        forall x | x in inserted
          ensures !Before(last, x)
        {
          assert x in multiset(inserted);
          BeforeOrder(trade, last, x);
        }
      } else {
        forall i | 0 <= i < |sorted|
          ensures !Before(trade, sorted[i])
        {
          BeforeOrder(sorted[i], last, trade);
        }
      }
    }
  }

  /** The sort returns the same trades in the order of the key. */
  lemma {:induction false} SortSorts(trades: seq<Trade>)
    ensures Sorted(Sort(trades)) && multiset(Sort(trades)) == multiset(trades)
  {
    hide Sorted, Insert;
    if trades == [] {
      NothingSorted();
    } else {
      var front, last := trades[..|trades| - 1], trades[|trades| - 1];
      SortSorts(front);
      InsertSorts(Sort(front), last);
      assert trades == front + [last];
    }
  }

  lemma NothingSorted()
    ensures Sorted([])
  {
  }

  // ----- The books under the sort

  /** The same open lots, and profits with the same sum. */
  ghost predicate SameBooks(a: Book, b: Book) {
    a.lots == b.lots && Sum(a.pnls) == Sum(b.pnls)
  }

  lemma PostSum(book: Book, trade: Trade)
    ensures var queue := book.Lots(trade.symbol);
            Sum(book.Post(trade).pnls)
            == Sum(book.pnls) + (if trade.side.Sell? && queue != [] then Profit(queue[0], trade) else 0.0)
  {
    var queue := book.Lots(trade.symbol);
    if trade.side.Sell? && queue != [] {
      SumSnoc(book.pnls, Profit(queue[0], trade));
    }
  }

  lemma PostSame(a: Book, b: Book, trade: Trade)
    requires SameBooks(a, b)
    ensures SameBooks(a.Post(trade), b.Post(trade))
  {
    hide Sum, Profit;
    PostSum(a, trade);
    PostSum(b, trade);
  }

  /** Trades of different symbols may change places. */
  lemma PostSwap(book: Book, x: Trade, y: Trade)
    requires x.symbol != y.symbol
    ensures SameBooks(book.Post(x).Post(y), book.Post(y).Post(x))
  {
    hide Sum, Profit;
    PostSum(book, x);
    PostSum(book, y);
    PostSum(book.Post(x), y);
    PostSum(book.Post(y), x);
    assert book.Post(x).Lots(y.symbol) == book.Lots(y.symbol);
    assert book.Post(y).Lots(x.symbol) == book.Lots(x.symbol);
    SwapLots(book, x, y);
  }

  lemma SwapLots(book: Book, x: Trade, y: Trade)
    requires x.symbol != y.symbol
    ensures book.Post(x).Post(y).lots == book.Post(y).Post(x).lots
  {
    hide Profit;
    var a, b := book.Post(x).lots[x.symbol], book.Post(y).lots[y.symbol];
    assert book.Post(x).lots == book.lots[x.symbol := a];
    assert book.Post(y).lots == book.lots[y.symbol := b];
    assert book.Post(x).Post(y).lots == book.lots[x.symbol := a][y.symbol := b];
    assert book.Post(y).Post(x).lots == book.lots[y.symbol := b][x.symbol := a];
    assert book.lots[x.symbol := a][y.symbol := b] == book.lots[y.symbol := b][x.symbol := a];
  }

  /** A sale may change places with a later buy of its symbol when it closes an older lot. */
  lemma PostSwapLater(book: Book, sell: Trade, buy: Trade)
    requires sell.symbol == buy.symbol && sell.side.Sell? && buy.side.Buy? && book.Lots(sell.symbol) != []
    ensures book.Post(sell).Post(buy) == book.Post(buy).Post(sell)
  {
    hide Profit;
    var s, queue := sell.symbol, book.Lots(sell.symbol);
    assert (queue + [buy])[1..] == queue[1..] + [buy];
    assert book.lots[s := queue[1..]][s := queue[1..] + [buy]]
           == book.lots[s := queue + [buy]][s := queue[1..] + [buy]];
  }

  /** No trade of the symbol carries a later stamp. */
  ghost predicate NoneLater(trades: seq<Trade>, symbol: string, stamp: int) {
    forall trade | trade in trades && trade.symbol == symbol :: trade.stamp <= stamp
  }

  /** The stamps of each symbol never decrease. */
  ghost predicate NeverBack(trades: seq<Trade>) {
    forall i, j | 0 <= i < j < |trades| && trades[i].symbol == trades[j].symbol :: trades[i].stamp <= trades[j].stamp
  }

  /** A sale has a lot to close. */
  predicate HasLot(book: Book, trade: Trade) {
    trade.side.Sell? ==> book.Lots(trade.symbol) != []
  }

  ghost predicate Matched(trades: seq<Trade>) {
    trades == [] || (Matched(trades[..|trades| - 1]) && HasLot(Replay(trades[..|trades| - 1]), trades[|trades| - 1]))
  }

  lemma MatchedSnoc(trades: seq<Trade>, trade: Trade)
    requires Matched(trades) && HasLot(Replay(trades), trade)
    ensures Matched(trades + [trade])
  {
    assert (trades + [trade])[..|trades|] == trades;
  }

  /** Inserting a trade is posting it last: it only moves before trades of other symbols, and as a buy
      before sales of the same text that close older lots. */
  lemma {:induction false} InsertKeepsBooks(sorted: seq<Trade>, trade: Trade)
    requires NoneLater(sorted, trade.symbol, trade.stamp) && Matched(sorted) && HasLot(Replay(sorted), trade)
    ensures SameBooks(Replay(Insert(sorted, trade)), Replay(sorted).Post(trade)) && Matched(Insert(sorted, trade))
  {
    hide SameBooks, HasLot, Before;
    if sorted == [] || !Before(trade, sorted[|sorted| - 1]) {
      ReplaySnoc(sorted, trade);
      MatchedSnoc(sorted, trade);
      SameItself(Replay(sorted).Post(trade));
    } else {
      var front, last := sorted[..|sorted| - 1], sorted[|sorted| - 1];
      assert last in sorted;
      MovesBefore(trade, last);
      LotsApart(Replay(front), last, trade);
      InsertKeepsBooks(front, trade);
      InsertLast(Replay(front), Insert(front, trade), trade, last);
    }
  }

  lemma SameItself(book: Book)
    ensures SameBooks(book, book)
  {
  }

  /** What a trade moves before. */
  lemma MovesBefore(trade: Trade, last: Trade)
    requires Before(trade, last) && (last.symbol == trade.symbol ==> last.stamp <= trade.stamp)
    ensures last.symbol == trade.symbol ==> trade.side.Buy? && last.side.Sell?
  {
    TextLessOrder(trade.symbol, last.symbol, "");
  }

  /** The trade `last` after a sequence into which `trade` was inserted. */
  lemma InsertLast(book: Book, inserted: seq<Trade>, trade: Trade, last: Trade)
    requires last.symbol == trade.symbol ==> trade.side.Buy? && last.side.Sell?
    requires HasLot(book, last) && HasLot(book.Post(trade), last)
    requires SameBooks(Replay(inserted), book.Post(trade)) && Matched(inserted)
    ensures SameBooks(Replay(inserted + [last]), book.Post(last).Post(trade)) && Matched(inserted + [last])
  {
    hide Sum, Profit, Replay, Matched;
    ReplaySnoc(inserted, last);
    PostSame(Replay(inserted), book.Post(trade), last);
    SwapLast(book, trade, last);
    SameLots(Replay(inserted), book.Post(trade), last);
    MatchedSnoc(inserted, last);
  }

  /** What a trade finds when it comes before another one. */
  lemma LotsApart(book: Book, last: Trade, trade: Trade)
    requires last.symbol == trade.symbol ==> trade.side.Buy? && last.side.Sell?
    requires HasLot(book, last) && HasLot(book.Post(last), trade)
    ensures HasLot(book, trade) && HasLot(book.Post(trade), last)
  {
    hide Profit;
    if last.symbol != trade.symbol {
      assert book.Post(last).Lots(trade.symbol) == book.Lots(trade.symbol);
      assert book.Post(trade).Lots(last.symbol) == book.Lots(last.symbol);
    }
  }

  lemma SwapLast(book: Book, trade: Trade, last: Trade)
    requires last.symbol == trade.symbol ==> trade.side.Buy? && last.side.Sell? && book.Lots(trade.symbol) != []
    ensures SameBooks(book.Post(trade).Post(last), book.Post(last).Post(trade))
  {
    hide Sum, Profit;
    if last.symbol == trade.symbol {
      PostSwapLater(book, last, trade);
    } else {
      PostSwap(book, trade, last);
    }
  }

  lemma SameLots(a: Book, b: Book, trade: Trade)
    requires SameBooks(a, b) && HasLot(b, trade)
    ensures HasLot(a, trade)
  {
  }

  /** When the stamps of each symbol never decrease and every sale has a lot to close, sorting all trades
      together keeps the open lots of every symbol and the sum of the profits. */
  lemma {:induction false} SortKeepsBooks(trades: seq<Trade>)
    requires NeverBack(trades) && Matched(trades)
    ensures SameBooks(Replay(Sort(trades)), Replay(trades)) && Matched(Sort(trades))
  {
    hide Sum, Profit, HasLot;
    if trades != [] {
      var front, last := trades[..|trades| - 1], trades[|trades| - 1];
      SortKeepsBooks(front);
      SortSorts(front);
      forall trade | trade in Sort(front) && trade.symbol == last.symbol
        ensures trade.stamp <= last.stamp
      {
        assert trade in multiset(Sort(front));
        assert trade in front;
      }
      SameLots(Replay(Sort(front)), Replay(front), last);
      InsertKeepsBooks(Sort(front), last);
      PostSame(Replay(Sort(front)), Replay(front), last);
    }
  }

  lemma ReplayPair(x: Trade, y: Trade)
    ensures Replay([x, y]) == Book(map[], []).Post(x).Post(y)
  {
    ReplaySnoc([], x);
    ReplaySnoc([x], y);
    assert [] + [x] == [x] && [x] + [y] == [x, y];
  }

  lemma SortPair(x: Trade, y: Trade)
    requires y.stamp < x.stamp
    ensures Sort([x, y]) == [y, x]
  {
    hide TextLess;
    assert [x, y][..1] == [x] && [x][..0] == [];
    assert Sort([x]) == Insert([], x) == [x];
    assert Insert([x], y) == Insert([], y) + [x];
  }

  /** A sale whose text sorts before that of its buy is lost by the matching after the sort, with its
      profit, and the buy stays open. */
  lemma EarlySaleIsLost(buy: Trade, sell: Trade)
    requires buy.symbol == sell.symbol && buy.side.Buy? && sell.side.Sell? && sell.stamp < buy.stamp
    ensures Replay([buy, sell]).pnls == [Profit(buy, sell)] && Replay([buy, sell]).Lots(buy.symbol) == []
    ensures Replay(Sort([buy, sell])).pnls == [] && Replay(Sort([buy, sell])).Lots(buy.symbol) == [buy]
  {
    hide Sort, Profit;
    ReplayPair(buy, sell);
    SortPair(buy, sell);
    ReplayPair(sell, buy);
    var empty: Book := Book(map[], []);
    assert empty.Post(buy).Lots(buy.symbol) == [] + [buy] == [buy];
    assert empty.Post(sell).Lots(buy.symbol) == [];
  }

  // ----- The trades of a run

  /** From each symbol's second bar on, the ISO texts of its bars never go back. */
  ghost predicate TextsOrdered(tape: seq<Tick>, symbols: seq<string>)
    requires ValidTape(tape, symbols)
  {
    forall h, i, j, k | 0 <= h < i < j < |tape| && 0 <= k < |symbols| && tape[h][k].Some? && tape[i][k].Some?
        && tape[j][k].Some? ::
      tape[i][k].value.bar.stamp <= tape[j][k].value.bar.stamp
  }

  /** The symbol has had a bar before tick `n`. */
  ghost predicate Seen(tape: seq<Tick>, symbols: seq<string>, n: nat, k: nat)
    requires ValidTape(tape, symbols) && n <= |tape| && k < |symbols|
  {
    exists h | 0 <= h < n :: tape[h][k].Some?
  }

  /** Nothing is held or ordered of a symbol before its first bar. */
  ghost predicate UnseenIdle(d: Desk, tape: seq<Tick>, symbols: seq<string>, n: nat)
    requires ValidTape(tape, symbols) && n <= |tape| && |d.slots| == |symbols|
  {
    forall k | 0 <= k < |symbols| && !Seen(tape, symbols, n, k) :: Idle(d.slots[k])
  }

  /** A trade of symbol `k` at tick `i`, which is not the symbol's first bar. */
  ghost predicate TradedAt(trade: Trade, tape: seq<Tick>, symbols: seq<string>, i: nat, k: nat)
    requires ValidTape(tape, symbols) && i < |tape| && k < |symbols|
  {
    tape[i][k].Some? && Seen(tape, symbols, i, k) && trade.symbol == symbols[k]
        && trade.stamp == tape[i][k].value.bar.stamp
  }

  /** Every trade was made at a bar of its symbol before tick `n`, and not at the first one. */
  ghost predicate FromBars(trades: seq<Trade>, tape: seq<Tick>, symbols: seq<string>, n: nat)
    requires ValidTape(tape, symbols) && n <= |tape|
  {
    forall trade | trade in trades :: exists i, k | 0 <= i < n && 0 <= k < |symbols| ::
        TradedAt(trade, tape, symbols, i, k)
  }

  /** Every position has a lot. */
  ghost predicate Lotted(d: Desk, symbols: seq<string>)
    requires |d.slots| == |symbols|
  {
    forall k | 0 <= k < |symbols| && d.slots[k].units > 0.0 :: Replay(d.trades).Lots(symbols[k]) != []
  }

  /** What holds of the trades at any moment of tick `n`; `before` is the desk that the tick opened with. */
  ghost predicate InOrder(d: Desk, before: Desk, tape: seq<Tick>, symbols: seq<string>, n: nat)
    requires ValidTape(tape, symbols) && n < |tape| && |d.slots| == |symbols| == |before.slots|
  {
    && NeverBack(d.trades) && Matched(d.trades) && Lotted(d, symbols)
    && FromBars(d.trades, tape, symbols, n + 1)
    && (forall k | 0 <= k < |symbols| :: !d.slots[k].pending.NoOrder? ==> !before.slots[k].pending.NoOrder?)
  }

  lemma NoneLaterNow(trades: seq<Trade>, tape: seq<Tick>, symbols: seq<string>, n: nat, k: nat)
    requires ValidTape(tape, symbols) && n < |tape| && k < |symbols| && Distinct(symbols) && TextsOrdered(tape, symbols)
    requires tape[n][k].Some? && FromBars(trades, tape, symbols, n + 1)
    ensures NoneLater(trades, symbols[k], tape[n][k].value.bar.stamp)
  {
    var stamp := tape[n][k].value.bar.stamp;
    hide TextsOrdered, Seen;
    forall trade | trade in trades && trade.symbol == symbols[k]
      ensures trade.stamp <= stamp
    {
      var i, l :| 0 <= i < n + 1 && 0 <= l < |symbols| && TradedAt(trade, tape, symbols, i, l);
      assert l == k;
      TextThen(tape, symbols, i, n, k);
    }
  }

  lemma TextThen(tape: seq<Tick>, symbols: seq<string>, i: nat, n: nat, k: nat)
    requires ValidTape(tape, symbols) && i <= n < |tape| && k < |symbols| && TextsOrdered(tape, symbols)
    requires Seen(tape, symbols, i, k) && tape[i][k].Some? && tape[n][k].Some?
    ensures tape[i][k].value.bar.stamp <= tape[n][k].value.bar.stamp
  {
    hide TextsOrdered;
    var h :| 0 <= h < i && tape[h][k].Some?;
    if i < n {
      TextAfter(tape, symbols, h, i, n, k);
    }
  }

  lemma TextAfter(tape: seq<Tick>, symbols: seq<string>, h: nat, i: nat, n: nat, k: nat)
    requires ValidTape(tape, symbols) && h < i < n < |tape| && k < |symbols| && TextsOrdered(tape, symbols)
    requires tape[h][k].Some? && tape[i][k].Some? && tape[n][k].Some?
    ensures tape[i][k].value.bar.stamp <= tape[n][k].value.bar.stamp
  {
  }

  /** Adding a trade of symbol `k` at tick `n`. */
  lemma TradeInOrder(trades: seq<Trade>, trade: Trade, tape: seq<Tick>, symbols: seq<string>, n: nat, k: nat)
    requires ValidTape(tape, symbols) && n < |tape| && k < |symbols| && Distinct(symbols) && TextsOrdered(tape, symbols)
    requires NeverBack(trades) && Matched(trades) && FromBars(trades, tape, symbols, n + 1)
    requires TradedAt(trade, tape, symbols, n, k) && HasLot(Replay(trades), trade)
    ensures NeverBack(trades + [trade]) && Matched(trades + [trade]) && FromBars(trades + [trade], tape, symbols, n + 1)
  {
    hide Seen, TextsOrdered, HasLot;
    NoneLaterNow(trades, tape, symbols, n, k);
    MatchedSnoc(trades, trade);
  }

  /** The lots of the other symbols stay when a trade is posted. */
  lemma OtherLots(trades: seq<Trade>, trade: Trade, symbols: seq<string>, k: nat)
    requires k < |symbols| && Distinct(symbols) && trade.symbol == symbols[k]
    ensures forall l | 0 <= l < |symbols| && l != k ::
            Replay(trades + [trade]).Lots(symbols[l]) == Replay(trades).Lots(symbols[l])
    ensures trade.side.Buy? ==> Replay(trades + [trade]).Lots(symbols[k]) != []
  {
    hide Profit;
    ReplaySnoc(trades, trade);
  }

  lemma SellOneInOrder(t: Terms, d: Desk, before: Desk, tape: seq<Tick>, symbols: seq<string>, n: nat, k: nat)
    requires ValidTape(tape, symbols) && n < |tape| && |d.slots| == |symbols| == |before.slots| && Distinct(symbols)
             && k < |symbols|
    requires TextsOrdered(tape, symbols) && UnseenIdle(before, tape, symbols, n) && InOrder(d, before, tape, symbols, n)
    ensures InOrder(SellOne(t, d, tape[n], k), before, tape, symbols, n)
  {
    hide CostOf, Value, TextsOrdered, FromBars, NeverBack, Matched, Replay, Distinct;
    if Sells(d, tape[n], k) {
      var e := SellOne(t, d, tape[n], k);
      var trade := e.trades[|d.trades|];
      assert TradedAt(trade, tape, symbols, n, k);
      TradeInOrder(d.trades, trade, tape, symbols, n, k);
      OtherLots(d.trades, trade, symbols, k);
    }
  }

  lemma BuyOneInOrder(t: Terms, d: Desk, before: Desk, tape: seq<Tick>, symbols: seq<string>, n: nat, k: nat)
    requires ValidTape(tape, symbols) && n < |tape| && |d.slots| == |symbols| == |before.slots| && Distinct(symbols)
             && k < |symbols|
    requires TextsOrdered(tape, symbols) && UnseenIdle(before, tape, symbols, n) && InOrder(d, before, tape, symbols, n)
    ensures InOrder(BuyOne(t, d, tape[n], k), before, tape, symbols, n)
  {
    hide CostOf, Value, UnitsBought, Allotment, EntryAllowed, TextsOrdered, FromBars, NeverBack, Matched, Replay,
         Distinct;
    if EntryDue(d, tape[n], k) && EntryAllowed(t, d, tape[n]) {
      var e := BuyOne(t, d, tape[n], k);
      var trade := e.trades[|d.trades|];
      assert TradedAt(trade, tape, symbols, n, k);
      TradeInOrder(d.trades, trade, tape, symbols, n, k);
      OtherLots(d.trades, trade, symbols, k);
    }
  }

  lemma {:induction false} SellAllInOrder(t: Terms, d: Desk, before: Desk, tape: seq<Tick>, symbols: seq<string>,
                                          n: nat, m: nat)
    requires ValidTape(tape, symbols) && n < |tape| && |d.slots| == |symbols| == |before.slots| && Distinct(symbols)
             && m <= |symbols|
    requires TextsOrdered(tape, symbols) && UnseenIdle(before, tape, symbols, n) && InOrder(d, before, tape, symbols, n)
    ensures InOrder(SellAll(t, d, tape[n], m), before, tape, symbols, n)
  {
    hide InOrder, UnseenIdle, TextsOrdered, SellOne, Distinct;
    if m > 0 {
      SellAllInOrder(t, d, before, tape, symbols, n, m - 1);
      SellOneInOrder(t, SellAll(t, d, tape[n], m - 1), before, tape, symbols, n, m - 1);
    }
  }

  lemma {:induction false} BuyAllInOrder(t: Terms, d: Desk, before: Desk, tape: seq<Tick>, symbols: seq<string>, n: nat,
                                         m: nat)
    requires ValidTape(tape, symbols) && n < |tape| && |d.slots| == |symbols| == |before.slots| && Distinct(symbols)
             && m <= |symbols|
    requires TextsOrdered(tape, symbols) && UnseenIdle(before, tape, symbols, n) && InOrder(d, before, tape, symbols, n)
    ensures InOrder(BuyAll(t, d, tape[n], m), before, tape, symbols, n)
  {
    hide InOrder, UnseenIdle, TextsOrdered, BuyOne, Distinct;
    if m > 0 {
      BuyAllInOrder(t, d, before, tape, symbols, n, m - 1);
      BuyOneInOrder(t, BuyAll(t, d, tape[n], m - 1), before, tape, symbols, n, m - 1);
    }
  }

  /** A tick without a bar of an idle symbol leaves it idle. */
  lemma AbsentStaysIdle(t: Terms, d: Desk, tick: Tick, symbols: seq<string>, k: nat)
    requires ValidTick(tick, symbols) && |d.slots| == |symbols| && k < |symbols| && tick[k].None? && Idle(d.slots[k])
    requires Step(t, d, tick).Ok?
    ensures Idle(Step(t, d, tick).value.slots[k])
  {
    hide SellAll, BuyAll, DecideAll, LossBreached, Exposure, CloseValue, RiskExit;
    var o := OpenTick(t, d, tick);
    SellFrame(t, o, tick, |tick|);
    var s := SellAll(t, o, tick, |tick|);
    BuyFrame(t, s, tick, |tick|);
    DecideFrame(t, AtOpen(t, d, tick), tick, |tick|);
  }

  lemma FromMoreBars(trades: seq<Trade>, tape: seq<Tick>, symbols: seq<string>, n: nat)
    requires ValidTape(tape, symbols) && n < |tape| && FromBars(trades, tape, symbols, n)
    ensures FromBars(trades, tape, symbols, n + 1)
  {
    hide TradedAt;
  }

  /** A symbol trades at none but its second and later bars, so its trades carry stamps that never go back
      when those of its bars do not; every sale has a lot to close, and every position has a lot. */
  lemma {:induction false} RunInOrder(t: Terms, firstCloses: seq<real>, tape: seq<Tick>, symbols: seq<string>, n: nat)
    requires ValidTape(tape, symbols) && |firstCloses| == |symbols| && n <= |tape| && Distinct(symbols)
    requires TextsOrdered(tape, symbols)
    requires After(t, firstCloses, tape, symbols, n).Ok?
    ensures var d := After(t, firstCloses, tape, symbols, n).value;
            && NeverBack(d.trades) && Matched(d.trades) && Lotted(d, symbols)
            && FromBars(d.trades, tape, symbols, n) && UnseenIdle(d, tape, symbols, n)
  {
    hide Step, SellAll, BuyAll, TextsOrdered, FromBars, NeverBack, Distinct, Replay, LossBreached, Exposure;
    if n == 0 {
      StartInOrder(t, firstCloses, tape, symbols);
    } else {
      RunInOrder(t, firstCloses, tape, symbols, n - 1);
      var tick, d := tape[n - 1], After(t, firstCloses, tape, symbols, n - 1).value;
      var o := OpenTick(t, d, tick);
      FromMoreBars(d.trades, tape, symbols, n - 1);
      SellAllInOrder(t, o, d, tape, symbols, n - 1, |tick|);
      BuyAllInOrder(t, SellAll(t, o, tick, |tick|), d, tape, symbols, n - 1, |tick|);
      StepFrame(t, d, tick);
      StillUnseenIdle(t, d, tape, symbols, n - 1);
    }
  }

  lemma StartInOrder(t: Terms, firstCloses: seq<real>, tape: seq<Tick>, symbols: seq<string>)
    requires ValidTape(tape, symbols) && |firstCloses| == |symbols|
    ensures var d := Start(t, firstCloses);
            && NeverBack(d.trades) && Matched(d.trades) && Lotted(d, symbols)
            && FromBars(d.trades, tape, symbols, 0) && UnseenIdle(d, tape, symbols, 0)
  {
  }

  lemma StillUnseenIdle(t: Terms, d: Desk, tape: seq<Tick>, symbols: seq<string>, n: nat)
    requires ValidTape(tape, symbols) && n < |tape| && |d.slots| == |symbols| && UnseenIdle(d, tape, symbols, n)
    requires Step(t, d, tape[n]).Ok?
    ensures UnseenIdle(Step(t, d, tape[n]).value, tape, symbols, n + 1)
  {
    hide Step, Idle;
    forall k | 0 <= k < |symbols| && !Seen(tape, symbols, n + 1, k)
      ensures Idle(Step(t, d, tape[n]).value.slots[k])
    {
      assert tape[n][k].None? && !Seen(tape, symbols, n, k);
      AbsentStaysIdle(t, d, tape[n], symbols, k);
    }
  }

  // ----- The report

  /** The accounting identity holds for the trades as they are reported: matching the sorted trades
      first in first out gives the profits and open lots that the last equity point is made of. */
  lemma ReportConserves(t: Terms, firstCloses: seq<real>, tape: seq<Tick>, symbols: seq<string>)
    requires t.Valid() && t.CostRate() <= 1.0 && Distinct(symbols)
    requires ValidTape(tape, symbols) && |firstCloses| == |symbols| && tape != [] && TextsOrdered(tape, symbols)
    requires After(t, firstCloses, tape, symbols, |tape|).Ok?
    ensures var d := After(t, firstCloses, tape, symbols, |tape|).value;
            Conserved(t, d, Sort(d.trades), symbols)
  {
    hide Step, Sort, Rate, Conserved;
    var d := After(t, firstCloses, tape, symbols, |tape|).value;
    RunConserves(t, firstCloses, tape, symbols, |tape|);
    RunInOrder(t, firstCloses, tape, symbols, |tape|);
    SortKeepsBooks(d.trades);
    ConservedBySameBooks(t, d, d.trades, Sort(d.trades), symbols);
  }

  lemma ConservedBySameBooks(t: Terms, d: Desk, a: seq<Trade>, b: seq<Trade>, symbols: seq<string>)
    requires |d.slots| == |symbols| && Conserved(t, d, a, symbols) && SameBooks(Replay(b), Replay(a))
    ensures Conserved(t, d, b, symbols)
  {
    SameOpenValues(Replay(b), Replay(a), symbols, d.slots, |symbols|);
  }

  lemma {:induction false} SameOpenValues(a: Book, b: Book, symbols: seq<string>, slots: seq<Slot>, n: nat)
    requires n <= |symbols| == |slots| && a.lots == b.lots
    ensures OpenValues(a, symbols, slots, n) == OpenValues(b, symbols, slots, n)
  {
    hide OpenValue;
    if n > 0 {
      SameOpenValues(a, b, symbols, slots, n - 1);
    }
  }
}
