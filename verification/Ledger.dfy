/** Realised profit by first-in-first-out matching: `_closed_trade_pnls` of orchestration/pipeline.py. */
module Ledger {
  import opened Prelude
  import opened Market

  /** The buys of each symbol that no sell has closed yet, oldest first, and the profits so far. */
  datatype Book = Book(lots: map<string, seq<Trade>>, pnls: seq<real>)
  {
    function Lots(symbol: string): seq<Trade> {
      if symbol in lots then lots[symbol] else []
    }

    function Post(t: Trade): Book {
      var queue := Lots(t.symbol);
      if t.side.Buy? then
        Book(lots[t.symbol := queue + [t]], pnls)
      else if queue == [] then
        Book(lots[t.symbol := []], pnls)
      else
        Book(lots[t.symbol := queue[1..]], pnls + [Profit(queue[0], t)])
    }
  }

  function Profit(buy: Trade, sell: Trade): real {
    (sell.price - buy.price) * sell.quantity - sell.cost - buy.cost
  }

  function Replay(trades: seq<Trade>): Book {
    if trades == [] then Book(map[], [])
    else Replay(trades[..|trades| - 1]).Post(trades[|trades| - 1])
  }

  lemma ReplaySnoc(trades: seq<Trade>, t: Trade)
    ensures Replay(trades + [t]) == Replay(trades).Post(t)
  {
    assert (trades + [t])[..|trades|] == trades;
  }

  method ClosedTradePnls(trades: seq<Trade>) returns (pnls: seq<real>)
    ensures pnls == Replay(trades).pnls
  {
    var buys: map<string, seq<Trade>> := map[];
    pnls := [];
    for i := 0 to |trades|
      invariant Book(buys, pnls) == Replay(trades[..i])
    {
      var trade := trades[i];
      ReplaySnoc(trades[..i], trade);
      assert trades[..i + 1] == trades[..i] + [trade];
      var symbolBuys := if trade.symbol in buys then buys[trade.symbol] else [];
      if trade.side.Buy? {
        symbolBuys := symbolBuys + [trade];
      } else if symbolBuys != [] {
        pnls := pnls + [Profit(symbolBuys[0], trade)];
        symbolBuys := symbolBuys[1..];
      }
      buys := buys[trade.symbol := symbolBuys];
    }
    assert trades[..|trades|] == trades;
  }

  /** The value at `mark` of the lots still open, over what was paid for them, buy costs included. */
  function OpenValue(lots: seq<Trade>, mark: real): real {
    if lots == [] then 0.0
    else
      var last := lots[|lots| - 1];
      OpenValue(lots[..|lots| - 1], mark) + last.quantity * (mark - last.price) - last.cost
  }

  function Paid(lots: seq<Trade>): real {
    if lots == [] then 0.0
    else
      var last := lots[|lots| - 1];
      Paid(lots[..|lots| - 1]) + Value(last.quantity, last.price) + last.cost
  }

  /** The engine's one position in a symbol and the open lots of that symbol: either nothing is held,
      or it is the one lot. Lots without units exist only when the cost takes the whole notional. */
  ghost predicate Backs(lots: seq<Trade>, units: real, rate: real) {
    if units == 0.0
    then (forall lot | lot in lots :: lot.quantity == 0.0) && (rate < 1.0 ==> lots == [])
    else units > 0.0 && rate < 1.0 && |lots| == 1 && lots[0].quantity == units
  }

  /** A buy adds to the lots exactly what it takes from the cash. */
  lemma PaidByBuy(lots: seq<Trade>, buy: Trade)
    ensures Paid(lots + [buy]) == Paid(lots) + Value(buy.quantity, buy.price) + buy.cost
  {
    assert (lots + [buy])[..|lots|] == lots;
  }

  lemma {:induction false} WorthlessLots(lots: seq<Trade>, mark: real)
    requires forall lot | lot in lots :: lot.quantity == 0.0
    ensures OpenValue(lots, mark) == -Paid(lots)
  {
    if lots != [] {
      WorthlessLots(lots[..|lots| - 1], mark);
      assert lots[|lots| - 1] in lots;
    }
  }

  /** Marking the position is marking the lots that back it. */
  lemma BackedValue(lots: seq<Trade>, units: real, rate: real, mark: real)
    requires Backs(lots, units, rate)
    ensures OpenValue(lots, mark) == Value(units, mark) - Paid(lots)
  {
    if units == 0.0 {
      WorthlessLots(lots, mark);
    } else {
      var lot := lots[0];
      assert lots == [lot] && lots[..0] == [];
      assert OpenValue(lots, mark) == lot.quantity * (mark - lot.price) - lot.cost;
    }
  }

  /** Posting a sell of the whole position: the lot is closed, and the profit is the cash received
      less what was paid for the lot. */
  lemma SellCloses(book: Book, units: real, rate: real, sell: Trade)
    requires sell.side.Sell? && units > 0.0 && sell.quantity == units
    requires Backs(book.Lots(sell.symbol), units, rate)
    ensures var after := book.Post(sell);
            && after.Lots(sell.symbol) == []
            && Sum(after.pnls) == Sum(book.pnls) + Value(units, sell.price) - sell.cost - Paid(book.Lots(sell.symbol))
  {
    var lot := book.Lots(sell.symbol)[0];
    assert book.Lots(sell.symbol) == [lot] && [lot][..0] == [];
    SumSnoc(book.pnls, Profit(lot, sell));
    assert Paid([lot]) == units * lot.price + lot.cost;
    assert (sell.price - lot.price) * units == units * sell.price - units * lot.price;
  }
}
