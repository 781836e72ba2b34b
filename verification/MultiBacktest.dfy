/** A many-symbol backtest request as a whole: each symbol's series are computed from its own bars, and the
    engine runs on the timeline that the bars make together. */
module MultiBacktest {
  import opened Prelude
  import opened Strategy
  import opened Market
  import opened MultiEngine
  import opened Backtest
  import opened MultiRun
  import MultiTwoRuns
  import SingleEngine

  /** A symbol with its bars and the strategy with the feature values that belong to them. */
  datatype Instrument = Instrument(symbol: string, bars: seq<Bar>, plan: Plan)
  {
    ghost predicate Valid() {
      && bars != []
      && ValidBars(bars, symbol)
      && (forall i, j | 0 <= i < j < |bars| :: bars[i].time < bars[j].time)
      && Calculable(plan, |bars|)
    }
  }

  predicate AllCalculable(xs: seq<Instrument>) {
    forall k | 0 <= k < |xs| :: Calculable(xs[k].plan, |xs[k].bars|)
  }

  ghost predicate ValidInstruments(xs: seq<Instrument>) {
    && |xs| > 0 && AllCalculable(xs)
    && (forall k | 0 <= k < |xs| :: xs[k].Valid())
    && (forall i, j | 0 <= i < j < |xs| :: xs[i].symbol != xs[j].symbol)
  }

  function ListingOf(x: Instrument): Listing
    requires Calculable(x.plan, |x.bars|)
  {
    Listing(x.symbol, Cells(x.plan, x.bars))
  }

  function Listings(xs: seq<Instrument>): (r: seq<Listing>)
    requires AllCalculable(xs)
    ensures |r| == |xs|
  {
    seq(|xs|, k requires 0 <= k < |xs| => ListingOf(xs[k]))
  }

  lemma ListingValid(x: Instrument)
    requires x.Valid()
    ensures ValidListing(ListingOf(x))
  {
    hide Calculable;
  }

  lemma ListingsValid(xs: seq<Instrument>)
    requires ValidInstruments(xs)
    ensures ValidListings(Listings(xs))
  {
    hide ValidListing, ListingOf;
    forall k | 0 <= k < |xs|
      ensures ValidListing(Listings(xs)[k]) && Listings(xs)[k].symbol == xs[k].symbol
    {
      ListingValid(xs[k]);
      SymbolOf(xs[k]);
    }
  }

  lemma SymbolOf(x: Instrument)
    requires Calculable(x.plan, |x.bars|)
    ensures ListingOf(x).symbol == x.symbol
  {
  }

  // ----- Two requests that are the same up to an instant

  /** The first `n` bars come before the instant, and the others do not. */
  ghost predicate Before(bars: seq<Bar>, n: nat, time: int) {
    && n <= |bars|
    && (forall i | 0 <= i < n :: bars[i].time < time)
    && (forall i | n <= i < |bars| :: time <= bars[i].time)
  }

  /** There is a bar at the instant, the one after the first `n`. */
  predicate Opens(bars: seq<Bar>, n: nat, time: int) {
    n < |bars| && bars[n].time == time
  }

  /** Both know the same when the instant opens: the same first `n` bars, the same values supplied with
      them, and of a bar at the instant the text, the day and the open. */
  ghost predicate SameUntil(x: Instrument, y: Instrument, n: nat, time: int) {
    && x.symbol == y.symbol
    && Before(x.bars, n, time) && Before(y.bars, n, time) && x.bars[..n] == y.bars[..n]
    && SamePlanBefore(x.plan, y.plan, x.bars, y.bars, n)
    && (Opens(x.bars, n, time) <==> Opens(y.bars, n, time))
    && (Opens(x.bars, n, time) ==>
          x.bars[n].stamp == y.bars[n].stamp && x.bars[n].day == y.bars[n].day && x.bars[n].open == y.bars[n].open)
  }

  ghost predicate SameAllUntil(xs: seq<Instrument>, ys: seq<Instrument>, counts: seq<nat>, time: int) {
    && |xs| == |ys| == |counts|
    && forall k | 0 <= k < |xs| :: SameUntil(xs[k], ys[k], counts[k], time)
  }

  /** Earlier instants are looked up among the first `n` bars. */
  lemma {:induction false} CellAtBefore(cells: seq<Cell>, n: nat, time: int, m: nat)
    requires n <= m <= |cells| && forall i | n <= i < |cells| :: time != cells[i].bar.time
    ensures CellAt(cells[..m], time) == CellAt(cells[..n], time)
    decreases m
  {
    if n < m {
      assert cells[..m][..m - 1] == cells[..m - 1];
      CellAtBefore(cells, n, time, m - 1);
    }
  }

  lemma CellsBefore(x: Instrument, y: Instrument, n: nat, time: int, at: int)
    requires x.Valid() && y.Valid() && SameUntil(x, y, n, time) && at < time
    ensures CellAt(ListingOf(x).cells, at) == CellAt(ListingOf(y).cells, at)
  {
    hide Cells, SamePlanBefore, Calculable;
    CellsAgree(x.plan, y.plan, x.bars, y.bars, n);
    var a, b := Cells(x.plan, x.bars), Cells(y.plan, y.bars);
    CellAtBefore(a, n, at, |a|);
    CellAtBefore(b, n, at, |b|);
    assert a[..|a|] == a && b[..|b|] == b;
  }

  /** At the instant itself. */
  lemma CellAtOpen(x: Instrument, n: nat, time: int)
    requires x.Valid() && Before(x.bars, n, time)
    ensures CellAt(ListingOf(x).cells, time).Some? <==> Opens(x.bars, n, time)
    ensures Opens(x.bars, n, time) ==> CellAt(ListingOf(x).cells, time).value.bar == x.bars[n]
  {
    hide Cells, Calculable;
    CellAtFinds(ListingOf(x).cells, time);
    if Opens(x.bars, n, time) {
      assert ListingOf(x).cells[n].bar == x.bars[n];
    }
  }

  // ----- The timelines

  lemma {:induction false} SameIncreasing(u: seq<int>, v: seq<int>)
    requires Increasing(u) && Increasing(v) && forall x :: x in u <==> x in v
    ensures u == v
  {
    hide Increasing;
    if u != [] {
      LastOf(u);
      var last := u[|u| - 1];
      assert last in u && last in v;
    }
    if v != [] {
      LastOf(v);
      var last := v[|v| - 1];
      assert last in v && last in u;
      SameIncreasing(u[..|u| - 1], v[..|v| - 1]);
    }
  }

  /** The last of an increasing sequence is its greatest member, and the others are those before it. */
  lemma LastOf(u: seq<int>)
    requires Increasing(u) && u != []
    ensures var m := |u| - 1;
            && u == u[..m] + [u[m]] && Increasing(u[..m]) && u[m] in u
            && (forall x | x in u :: x <= u[m])
            && forall x :: x in u[..m] <==> x in u && x != u[m]
  {
    var m := |u| - 1;
    assert u == u[..m] + [u[m]];
    forall x | x in u[..m]
      ensures x < u[m]
    {
      var i :| 0 <= i < m && u[i] == x;
    }
  }

  lemma FrontOf(u: seq<int>, i: nat)
    requires Increasing(u) && i < |u|
    ensures Increasing(u[..i]) && forall x :: x in u[..i] <==> x in u && x < u[i]
  {
  }

  /** Increasing sequences with the same members below one of theirs are the same up to it. */
  lemma SamePrefix(u: seq<int>, v: seq<int>, time: int, i: nat, j: nat)
    requires Increasing(u) && Increasing(v) && i < |u| && j < |v| && u[i] == time == v[j]
    requires forall x | x < time :: x in u <==> x in v
    ensures i == j && u[..i] == v[..j]
  {
    FrontOf(u, i);
    FrontOf(v, j);
    SameIncreasing(u[..i], v[..j]);
  }

  lemma TimelinesAgree(xs: seq<Instrument>, ys: seq<Instrument>, counts: seq<nat>, time: int)
    requires ValidInstruments(xs) && ValidInstruments(ys) && SameAllUntil(xs, ys, counts, time)
    ensures forall x | x < time :: x in Timeline(Listings(xs)) <==> x in Timeline(Listings(ys))
  {
    hide SameUntil, Instrument.Valid, AllCalculable, ListingOf;
    TimelineMeaning(Listings(xs));
    TimelineMeaning(Listings(ys));
    forall at | at < time
      ensures at in Timeline(Listings(xs)) <==> at in Timeline(Listings(ys))
    {
      forall k | 0 <= k < |xs|
        ensures CellAt(Listings(xs)[k].cells, at) == CellAt(Listings(ys)[k].cells, at)
      {
        CellsBefore(xs[k], ys[k], counts[k], time, at);
      }
    }
  }

  /** The tick of the instant. */
  lemma TickAtInstant(xs: seq<Instrument>, counts: seq<nat>, time: int, k: nat) returns (i: nat)
    requires ValidInstruments(xs) && |counts| == |xs| && (forall l | 0 <= l < |xs| ::
             Before(xs[l].bars, counts[l], time))
    requires k < |xs| && Opens(xs[k].bars, counts[k], time)
    ensures i < |Timeline(Listings(xs))| && Timeline(Listings(xs))[i] == time && Increasing(Timeline(Listings(xs)))
  {
    hide Before, Opens, ListingOf;
    TimelineMeaning(Listings(xs));
    CellAtOpen(xs[k], counts[k], time);
    assert CellAt(Listings(xs)[k].cells, time).Some?;
    assert time in Timeline(Listings(xs));
    i :| 0 <= i < |Timeline(Listings(xs))| && Timeline(Listings(xs))[i] == time;
  }

  /** The tapes are the same before the instant, and show the same at its open. */
  lemma TapesAgree(xs: seq<Instrument>, ys: seq<Instrument>, counts: seq<nat>, time: int, k: nat) returns (i: nat)
    requires ValidInstruments(xs) && ValidInstruments(ys) && SameAllUntil(xs, ys, counts, time)
    requires k < |xs| && Opens(xs[k].bars, counts[k], time)
    ensures var a, b := Tape(Listings(xs)), Tape(Listings(ys));
            i < |a| && i < |b| && a[..i] == b[..i] && MultiTwoRuns.SameAtOpen(a[i], b[i])
    ensures Timeline(Listings(xs))[i] == time
  {
    hide Instrument.Valid, AllCalculable, ListingOf, SameUntil, Opens;
    BeforeAll(xs, ys, counts, time);
    TimelinesAgree(xs, ys, counts, time);
    i := TickAtInstant(xs, counts, time, k);
    var j := TickAtInstant(ys, counts, time, k);
    var u, v := Timeline(Listings(xs)), Timeline(Listings(ys));
    SamePrefix(u, v, time, i, j);
    var a, b := Tape(Listings(xs)), Tape(Listings(ys));
    forall m | 0 <= m < i
      ensures a[m] == b[m]
    {
      assert u[m] == u[..i][m] == v[..i][m] == v[m];
      forall l | 0 <= l < |xs|
        ensures a[m][l] == b[m][l]
      {
        CellsBefore(xs[l], ys[l], counts[l], time, u[m]);
      }
    }
    forall l | 0 <= l < |xs|
      ensures SameAtOpenOf(a[i][l], b[i][l])
    {
      OpensAgree(xs[l], ys[l], counts[l], time);
    }
  }

  lemma BeforeAll(xs: seq<Instrument>, ys: seq<Instrument>, counts: seq<nat>, time: int)
    requires SameAllUntil(xs, ys, counts, time)
    ensures forall l | 0 <= l < |xs| ::
              && Before(xs[l].bars, counts[l], time) && Before(ys[l].bars, counts[l], time)
              && (Opens(xs[l].bars, counts[l], time) <==> Opens(ys[l].bars, counts[l], time))
  {
    hide SamePlanBefore, Before, Opens;
    forall l | 0 <= l < |xs|
      ensures Before(xs[l].bars, counts[l], time) && Before(ys[l].bars, counts[l], time)
      ensures Opens(xs[l].bars, counts[l], time) <==> Opens(ys[l].bars, counts[l], time)
    {
      assert SameUntil(xs[l], ys[l], counts[l], time);
    }
  }

  predicate SameAtOpenOf(a: Option<Cell>, b: Option<Cell>) {
    && (a.Some? <==> b.Some?)
    && (a.Some? ==>
          var x, y := a.value.bar, b.value.bar;
          x.stamp == y.stamp && x.day == y.day && x.symbol == y.symbol && x.open == y.open)
  }

  lemma OpensAgree(x: Instrument, y: Instrument, n: nat, time: int)
    requires x.Valid() && y.Valid() && SameUntil(x, y, n, time)
    ensures SameAtOpenOf(CellAt(ListingOf(x).cells, time), CellAt(ListingOf(y).cells, time))
  {
    hide ListingOf, Calculable, SamePlanBefore;
    CellAtOpen(x, n, time);
    CellAtOpen(y, n, time);
  }

  /** The run over the first ticks. */
  function RunUpTo(t: Terms, xs: seq<Listing>, n: nat): Result<Desk, RuleError>
    requires ValidListings(xs) && n <= |Tape(xs)|
  {
    TapeValid(xs);
    After(t, FirstCloses(xs), Tape(xs), Symbols(xs), n)
  }

  /** The backtest of a request, and its first ticks. */
  ghost function RunBacktest(t: Terms, xs: seq<Instrument>): Result<SingleEngine.Report, RunError>
    requires ValidInstruments(xs)
  {
    ListingsValid(xs);
    Outcome(t, Listings(xs))
  }

  ghost function RunTicks(t: Terms, xs: seq<Instrument>, n: nat): Result<Desk, RuleError>
    requires ValidInstruments(xs) && n <= |Tape(Listings(xs))|
  {
    ListingsValid(xs);
    RunUpTo(t, Listings(xs), n)
  }

  /** What two runs have in common after the opens of tick `i`. */
  ghost predicate SameThroughOpen(p: Result<Desk, RuleError>, q: Result<Desk, RuleError>, i: nat) {
    && p.Ok? && q.Ok? && p.value.trades == q.value.trades
    && |p.value.equity| == |q.value.equity| == i + 1
    && p.value.equity[..i] == q.value.equity[..i]
  }

  /** For any strategy and any symbols: replacing the highs, lows, closes and volumes of the bars at an
      instant, all later bars of every symbol, and the values supplied from then on, changes no trade that
      filled up to the opens of that instant, and no equity point before it. */
  lemma NoLookAhead(t: Terms, xs: seq<Instrument>, ys: seq<Instrument>, counts: seq<nat>, time: int, k: nat)
    returns (i: nat)
    requires ValidInstruments(xs) && ValidInstruments(ys) && SameAllUntil(xs, ys, counts, time)
    requires k < |xs| && Opens(xs[k].bars, counts[k], time)
    requires RunBacktest(t, xs).Ok? && RunBacktest(t, ys).Ok?
    ensures i < |Tape(Listings(xs))| && i < |Tape(Listings(ys))| && Timeline(Listings(xs))[i] == time
    ensures SameThroughOpen(RunTicks(t, xs, i + 1), RunTicks(t, ys, i + 1), i)
    ensures RunTicks(t, xs, i + 1).value.equity <= RunBacktest(t, xs).value.equity
    ensures RunTicks(t, ys, i + 1).value.equity <= RunBacktest(t, ys).value.equity
  {
    hide SameAllUntil, AllCalculable, Instrument.Valid, Listings, Opens, Outcome, ValidListings, Tape,
         MultiTwoRuns.SameAtOpen, SameThroughOpen;
    ListingsValid(xs);
    ListingsValid(ys);
    i := TapesAgree(xs, ys, counts, time, k);
    SameSymbols(xs, ys, counts, time);
    RunsAgree(t, Listings(xs), Listings(ys), i);
  }

  /** The same of two listings whose tapes are the same before tick `i`, and look the same at its open. */
  lemma RunsAgree(t: Terms, us: seq<Listing>, vs: seq<Listing>, i: nat)
    requires ValidListings(us) && ValidListings(vs) && Symbols(us) == Symbols(vs)
    requires i < |Tape(us)| && i < |Tape(vs)| && Tape(us)[..i] == Tape(vs)[..i]
             && MultiTwoRuns.SameAtOpen(Tape(us)[i], Tape(vs)[i])
    requires Outcome(t, us).Ok? && Outcome(t, vs).Ok?
    ensures SameThroughOpen(RunUpTo(t, us, i + 1), RunUpTo(t, vs, i + 1), i)
    ensures RunUpTo(t, us, i + 1).value.equity <= Outcome(t, us).value.equity
    ensures RunUpTo(t, vs, i + 1).value.equity <= Outcome(t, vs).value.equity
  {
    hide Tape, Outcome, MultiTwoRuns.SameAtOpen, After;
    TapeValid(us);
    TapeValid(vs);
    Completed(t, us, i + 1);
    Completed(t, vs, i + 1);
    MultiTwoRuns.NoLookAhead(t, FirstCloses(us), FirstCloses(vs), Tape(us), Tape(vs), Symbols(us), i);
  }

  lemma SameSymbols(xs: seq<Instrument>, ys: seq<Instrument>, counts: seq<nat>, time: int)
    requires ValidInstruments(xs) && ValidInstruments(ys) && SameAllUntil(xs, ys, counts, time)
    ensures Symbols(Listings(xs)) == Symbols(Listings(ys))
  {
    hide Instrument.Valid, AllCalculable, SamePlanBefore, Before, Opens;
    forall k | 0 <= k < |xs|
      ensures Symbols(Listings(xs))[k] == Symbols(Listings(ys))[k]
    {
      assert SameUntil(xs[k], ys[k], counts[k], time);
    }
  }

  /** A run that completes has got past every tick. */
  lemma Completed(t: Terms, xs: seq<Listing>, n: nat)
    requires ValidListings(xs) && Outcome(t, xs).Ok? && n <= |Tape(xs)|
    ensures RunUpTo(t, xs, n).Ok? && RunUpTo(t, xs, n).value.equity <= Outcome(t, xs).value.equity
  {
    hide After, TradeOrder.Sort, Tape;
    TapeValid(xs);
    History(t, FirstCloses(xs), Tape(xs), Symbols(xs), n, |Tape(xs)|);
  }
}
