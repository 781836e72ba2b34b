/** What the other calculators say of the bars: changes, extremes, ranges, directional movement, ratios, streaks
    and correlation. */
module RangeLaws {
  import opened Prelude
  import opened Strategy
  import opened Indicators
  import opened IndicatorFacts
  import opened AverageLaws

  // ----- Changes and extremes

  /** A return is what the earlier value has to grow by to become the later one, and returns over bars compound. */
  lemma ReturnsCompound(values: Series, p: nat, q: nat, i: nat)
    requires p + q <= i < |values| && Returns(values, p)[i].Some?
    ensures values[i].Some? && values[i - p].Some?
    ensures values[i - p].value * (1.0 + Returns(values, p)[i].value) == values[i].value
    ensures PercentChange(values, p)[i] == Some(100.0 * Returns(values, p)[i].value)
    ensures Returns(values, q)[i - p].Some? ==>
              && Returns(values, p + q)[i].Some?
              && 1.0 + Returns(values, p + q)[i].value
                 == (1.0 + Returns(values, q)[i - p].value) * (1.0 + Returns(values, p)[i].value)
  {
    var now, before := values[i].value, values[i - p].value;
    Ratios(before, now);
    if Returns(values, q)[i - p].Some? {
      assert i - p - q == i - (p + q);
      var first := values[i - p - q].value;
      Chained(first, before, now);
    }
  }

  lemma Ratios(x: real, y: real)
    requires x != 0.0
    ensures x * (1.0 + (y / x - 1.0)) == y
  {
  }

  lemma Chained(x: real, y: real, z: real)
    requires x != 0.0 && y != 0.0
    ensures 1.0 + (z / x - 1.0) == (1.0 + (y / x - 1.0)) * (1.0 + (z / y - 1.0))
  {
    var u, v := y / x, z / y;
    assert u * x == y && v * y == z;
    assert (u * v) * x == z;
    SameQuotient(z, x, u * v);
  }

  /** The greatest of some values is one of them, and none is greater. */
  lemma {:induction false} GreatestIs(xs: seq<real>)
    requires xs != []
    ensures Greatest(xs) in xs && forall x | x in xs :: x <= Greatest(xs)
  {
    var n := |xs| - 1;
    if n > 0 {
      GreatestIs(xs[..n]);
      assert xs == xs[..n] + [xs[n]];
    }
  }

  /** A value is above the previous maximum if and only if it is above each of the values before it that count; a
      value that is not there counts none. */
  lemma NewHighIff(values: Series, period: nat, i: nat, x: real)
    requires period > 0 && i < |values|
    ensures PreviousMaximum(values, period)[i].Some?
            <==> i >= period && forall k | i - period <= k < i :: values[k].Some?
    ensures PreviousMaximum(values, period)[i].Some? ==>
              (x > PreviousMaximum(values, period)[i].value <==> forall k | i - period <= k < i :: x > values[k].value)
  {
    hide Greatest;
    if i >= period {
      var window := values[i - period..i];
      assert forall k | i - period <= k < i :: window[k - (i - period)] == values[k];
      if AllPresent(window) {
        var xs := Numeric(window);
        GreatestIs(xs);
        forall k | i - period <= k < i
          ensures values[k].value in xs
        {
          assert xs[k - (i - period)] == values[k].value;
        }
        if forall k | i - period <= k < i :: x > values[k].value {
          var j :| 0 <= j < period && xs[j] == Greatest(xs);
          assert xs[j] == values[i - period + j].value;
        }
      }
    }
  }

  /** The ratio to the high of a window of positive values is at most one, and one exactly at that high. */
  lemma HighRatioIff(values: Series, period: nat, i: nat)
    requires 0 < period <= i + 1 <= |values|
    requires forall k | i + 1 - period <= k <= i :: values[k].Some? && values[k].value > 0.0
    ensures var r := HighRatio(values, period)[i];
            && r.Some? && 0.0 < r.value <= 1.0
            && (r.value == 1.0 <==> forall k | i + 1 - period <= k <= i :: values[k].value <= values[i].value)
  {
    hide Greatest;
    var window := Window(values, period, i);
    var xs := Numeric(window);
    GreatestIs(xs);
    assert forall k | i + 1 - period <= k <= i :: xs[k - (i + 1 - period)] == values[k].value;
    assert forall k | 0 <= k < period :: xs[k] in xs;
    PartOf(values[i].value, Greatest(xs));
  }

  lemma PartOf(part: real, whole: real)
    requires 0.0 < part <= whole
    ensures 0.0 < part / whole <= 1.0 && (part / whole == 1.0 <==> part == whole)
  {
    var q := part / whole;
    assert q * whole == part;
    PartOfWhole(part, whole);
    SimpleFactors(q, whole);
    if part == whole {
      SameQuotient(part, whole, 1.0);
    }
  }

  lemma SimpleFactors(q: real, x: real)
    ensures (q == 0.0 ==> q * x == 0.0) && (q == 1.0 ==> q * x == x)
  {
  }

  // ----- Ranges

  /** The true range is the length of the shortest interval with the high, the low and the previous close in it. */
  lemma TrueRangeCovers(high: real, low: real, previous: real, bottom: real, top: real)
    requires low <= high
    ensures bottom <= low && bottom <= previous && high <= top && previous <= top
            ==> top - bottom >= TrueRange(high, low, previous)
    ensures var b, t := if previous < low then previous else low, if previous > high then previous else high;
            t - b == TrueRange(high, low, previous)
  {
  }

  /** The range into a bar is the true range over its high, its low and the close before it; the first bar, and one
      after a missing close, has only its own high and low. */
  lemma RangesCover(highs: Series, lows: Series, closes: Series, i: nat)
    requires i < |highs| == |lows| == |closes| && highs[i].Some? && lows[i].Some? && lows[i].value <= highs[i].value
    ensures var r := Ranges(highs, lows, closes)[i];
            && r.Some?
            && (i == 0 || closes[i - 1].None? ==> lows[i].value + r.value == highs[i].value)
            && (i > 0 && closes[i - 1].Some? ==>
                  r.value == Max(highs[i].value, closes[i - 1].value) + Max(-lows[i].value, -closes[i - 1].value))
  {
  }

  /** The internal bar strength is how far up its range a bar closes: scaled by the range and put on the low it is
      the close. */
  lemma IbsIsPlace(closes: Series, highs: Series, lows: Series, i: nat)
    requires i < |highs| == |lows| == |closes| && closes[i].Some? && highs[i].Some? && lows[i].Some?
    ensures var low, spread := lows[i].value, highs[i].value - lows[i].value;
            && Ibs(closes, highs, lows)[i].Some?
            && var place := Ibs(closes, highs, lows)[i].value;
               if spread == 0.0 then place == 0.5 else low + place * spread == closes[i].value
  {
  }

  /** The directional moves into a bar: at most one of them is positive, and it is the greater of the rise of the
      high and the fall of the low. */
  lemma MovesIff(highs: Series, lows: Series, closes: Series, i: nat)
    requires i < |highs| == |lows| == |closes| && MoveKnown(highs, lows, closes, i)
    ensures var up, down := highs[i].value - highs[i - 1].value, lows[i - 1].value - lows[i].value;
            var plus, minus := Moves(highs, lows, closes, PlusMove)[i], Moves(highs, lows, closes, MinusMove)[i];
            && plus.Some? && minus.Some? && plus.value >= 0.0 && minus.value >= 0.0
            && (plus.value > 0.0 <==> up > Max(0.0, down)) && (minus.value > 0.0 <==> down > Max(0.0, up))
            && plus.value + minus.value == if up == down then 0.0 else Max(0.0, Max(up, down))
  {
  }

  /** The index of directional movement is the share of the difference in the sum, in percent, whatever the range. */
  lemma OneSidedShare(atr: real, plus: real, minus: real)
    requires atr > 0.0 && plus >= 0.0 && minus >= 0.0
    ensures plus + minus > 0.0 ==> OneSided(atr, plus, minus) * (plus + minus) == 100.0 * Abs(plus - minus)
    ensures plus + minus == 0.0 ==> OneSided(atr, plus, minus) == 0.0
    ensures OneSided(atr, plus, minus) == OneSided(atr, minus, plus)
  {
    var p, m := 100.0 * plus / atr, 100.0 * minus / atr;
    assert p * atr == 100.0 * plus && m * atr == 100.0 * minus;
    if plus + minus > 0.0 {
      ShareOfSides(atr, plus, minus, p, m);
    }
  }

  lemma ShareOfSides(atr: real, plus: real, minus: real, p: real, m: real)
    requires atr > 0.0 && plus >= 0.0 && minus >= 0.0 && plus + minus > 0.0
    requires p * atr == 100.0 * plus && m * atr == 100.0 * minus
    ensures p + m > 0.0
    ensures Abs(p - m) / (p + m) * 100.0 * (plus + minus) == 100.0 * Abs(plus - minus)
  {
    var total, gap := p + m, Abs(p - m);
    assert total * atr == 100.0 * (plus + minus);
    if total <= 0.0 {
      ProductNotNegative(-total, atr);
    }
    assert (p - m) * atr == 100.0 * (plus - minus);
    AbsTimes(p - m, atr);
    AbsTimes(plus - minus, 100.0);
    assert gap * atr == 100.0 * Abs(plus - minus);
    var q := gap / total;
    assert q * total == gap;
    assert q * (total * atr) == gap * atr;
  }

  lemma AbsTimes(x: real, positive: real)
    requires positive > 0.0
    ensures Abs(x * positive) == Abs(x) * positive
  {
    if x < 0.0 {
      ProductPositive(-x, positive);
    } else {
      ProductNotNegative(x, positive);
    }
  }

  lemma MeanPositive(xs: seq<real>)
    requires xs != [] && forall i | 0 <= i < |xs| :: xs[i] > 0.0
    ensures MeanOf(xs) > 0.0
  {
    hide Sum;
    SumPositive(xs);
    var m := Sum(xs) / (|xs| as real);
    assert m * (|xs| as real) == Sum(xs);
    if m <= 0.0 {
      ProductNotNegative(-m, |xs| as real);
    }
  }

  lemma {:induction false} SumPositive(xs: seq<real>)
    requires xs != [] && forall i | 0 <= i < |xs| :: xs[i] > 0.0
    ensures Sum(xs) > 0.0
  {
    if |xs| > 1 {
      SumPositive(xs[..|xs| - 1]);
    } else {
      assert xs[..0] == [];
    }
  }

  /** The bars move along a channel: highs and lows are on parallel lines, the highs above the lows. */
  ghost predicate Channel(highs: Series, lows: Series, closes: Series, a: real, c: real, b: real) {
    && |highs| == |lows| == |closes| && Line(highs, 0, a, b) && Line(lows, 0, c, b) && a > c
    && forall i | 0 <= i < |closes| :: closes[i].Some?
  }

  lemma ChannelMoves(highs: Series, lows: Series, closes: Series, a: real, c: real, b: real)
    requires Channel(highs, lows, closes, a, c, b)
    ensures Line(Moves(highs, lows, closes, PlusMove), 1, Max(0.0, b), 0.0)
    ensures Line(Moves(highs, lows, closes, MinusMove), 1, Max(0.0, -b), 0.0)
    ensures forall i | 1 <= i < |closes| ::
              Moves(highs, lows, closes, RangeMove)[i].Some? && Moves(highs, lows, closes, RangeMove)[i].value > 0.0
  {
    hide Moves;
    forall i | 1 <= i < |closes|
      ensures Moves(highs, lows, closes, PlusMove)[i] == Some(At(Max(0.0, b), 0.0, i))
      ensures Moves(highs, lows, closes, MinusMove)[i] == Some(At(Max(0.0, -b), 0.0, i))
      ensures Moves(highs, lows, closes, RangeMove)[i].Some? && Moves(highs, lows, closes, RangeMove)[i].value > 0.0
    {
      NextAt(a, b, i);
      NextAt(c, b, i);
      ChannelMove(highs, lows, closes, b, i);
    }
  }

  lemma ChannelMove(highs: Series, lows: Series, closes: Series, b: real, i: nat)
    requires 0 < i < |highs| == |lows| == |closes| && MoveKnown(highs, lows, closes, i)
    requires highs[i].value - highs[i - 1].value == b && lows[i].value - lows[i - 1].value == b
    requires highs[i].value > lows[i].value
    ensures Moves(highs, lows, closes, PlusMove)[i] == Some(Max(0.0, b))
    ensures Moves(highs, lows, closes, MinusMove)[i] == Some(Max(0.0, -b))
    ensures Moves(highs, lows, closes, RangeMove)[i].Some? && Moves(highs, lows, closes, RangeMove)[i].value > 0.0
  {
  }

  lemma ChannelRange(highs: Series, lows: Series, closes: Series, a: real, c: real, b: real, period: nat, i: nat)
    requires Channel(highs, lows, closes, a, c, b) && 0 < period <= i < |closes|
    ensures var atr := Sma(Moves(highs, lows, closes, RangeMove), period)[i]; atr.Some? && atr.value > 0.0
  {
    hide Moves, MeanOf;
    ChannelMoves(highs, lows, closes, a, c, b);
    var window := Window(Moves(highs, lows, closes, RangeMove), period, i);
    assert AllPresent(window);
    MeanPositive(Numeric(window));
  }

  /** In a channel that rises or falls all movement is one-sided, and the ADX is 100 wherever it is defined. */
  lemma AdxOfChannel(highs: Series, lows: Series, closes: Series, a: real, c: real, b: real, period: nat)
    requires Channel(highs, lows, closes, a, c, b) && b != 0.0 && period > 0
    ensures Line(Adx(highs, lows, closes, period), 2 * period - 1, 100.0, 0.0)
  {
    hide Moves, Sma, OneSided, Channel;
    ChannelLength(highs, lows, closes, a, c, b);
    ChannelMoves(highs, lows, closes, a, c, b);
    var atr := Sma(Moves(highs, lows, closes, RangeMove), period);
    var plus := Sma(Moves(highs, lows, closes, PlusMove), period);
    var minus := Sma(Moves(highs, lows, closes, MinusMove), period);
    SmaLag(Moves(highs, lows, closes, PlusMove), 1, Max(0.0, b), 0.0, period);
    SmaLag(Moves(highs, lows, closes, MinusMove), 1, Max(0.0, -b), 0.0, period);
    forall i | period <= i < |closes|
      ensures Directional(atr, plus, minus)[i] == Some(100.0)
    {
      ChannelRange(highs, lows, closes, a, c, b, period, i);
      OneWay(atr[i].value, b);
    }
    SmaLag(Directional(atr, plus, minus), period, 100.0, 0.0, period);
  }

  lemma ChannelLength(highs: Series, lows: Series, closes: Series, a: real, c: real, b: real)
    requires Channel(highs, lows, closes, a, c, b)
    ensures |highs| == |lows| == |closes|
  {
  }

  lemma OneWay(atr: real, b: real)
    requires atr > 0.0 && b != 0.0
    ensures OneSided(atr, Max(0.0, b), Max(0.0, -b)) == 100.0
  {
    hide OneSided;
    var plus, minus := Max(0.0, b), Max(0.0, -b);
    OneSidedShare(atr, plus, minus);
    SameFactor(OneSided(atr, plus, minus), plus + minus, Abs(plus - minus));
  }

  lemma SameFactor(x: real, size: real, same: real)
    requires size > 0.0 && x * size == 100.0 * same && same == size
    ensures x == 100.0
  {
    SameQuotient(100.0 * size, size, x);
    SameQuotient(100.0 * size, size, 100.0);
  }

  // ----- Ratios

  /** A value is its disparity, in percent, of the simple average. */
  lemma DisparityIs(values: Series, period: nat, i: nat)
    requires period > 0 && i < |values| && Disparity(values, period)[i].Some?
    ensures values[i].Some? && Sma(values, period)[i].Some?
    ensures Disparity(values, period)[i].value * Sma(values, period)[i].value == 100.0 * values[i].value
  {
    hide Sma;
    var x, y := values[i].value, Sma(values, period)[i].value;
    var q := x / y;
    assert q * y == x;
  }

  /** Past its first `period` values, the volume is its breakout times the mean of the `period` values before. */
  lemma BreakoutIs(values: Series, period: nat, i: nat)
    requires 0 < period <= i < |values| && VolumeBreakout(values, period)[i].Some?
    ensures values[i].Some? && AllPresent(values[i - period..i])
    ensures VolumeBreakout(values, period)[i].value * Sum(Numeric(values[i - period..i]))
         == values[i].value * period as real
  {
    hide Sum;
    var sum, n := Sum(Numeric(values[i - period..i])), period as real;
    var mean := sum / n;
    assert mean * n == sum;
    var q := values[i].value / mean;
    assert q * mean == values[i].value;
    assert q * (mean * n) == values[i].value * n;
  }

  /** Its last bar before that is measured against the first `period` values, its own among them, and only when
      more values follow; bars before have no breakout. */
  lemma EarlyBreakoutIs(values: Series, period: nat, i: nat)
    requires 0 < period && i < period && i < |values| && VolumeBreakout(values, period)[i].Some?
    ensures i == period - 1 && |values| > period && AllPresent(values[..period])
    ensures VolumeBreakout(values, period)[i].value * Sum(Numeric(values[..period])) == values[i].value * period as real
  {
    hide Sum;
    var sum, n := Sum(Numeric(values[..period])), period as real;
    var mean := sum / n;
    assert mean * n == sum;
    assert values[..period][i] == values[i];
    var q := values[i].value / mean;
    assert q * mean == values[i].value;
    assert q * (mean * n) == values[i].value * n;
  }

  /** On a straight line whose slow average is positive, the regime filter is positive exactly when the line rises,
      if its period is above two. */
  lemma RegimeOfLine(values: Series, a: real, b: real, period: nat, i: nat)
    requires Line(values, 0, a, b) && period > 2 && period <= i + 1 <= |values|
    requires At(a - b * (period as real - 1.0) / 2.0, b, i) > 0.0
    ensures var fast := if period / 2 < 2 then 2 else period / 2;
            var r := RegimeFilter(values, period)[i];
            && r.Some?
            && r.value * At(a - b * (period as real - 1.0) / 2.0, b, i) == b * (period as real - fast as real) / 2.0
            && (r.value > 0.0 <==> b > 0.0) && (r.value < 0.0 <==> b < 0.0)
  {
    hide Ema;
    var fast := if period / 2 < 2 then 2 else period / 2;
    EmaLag(values, a, b, fast);
    EmaLag(values, a, b, period);
    var x := Ema(values, fast)[i].value;
    var y := Ema(values, period)[i].value;
    var r := x / y - 1.0;
    assert (r + 1.0) * y == x;
    SignOf(r, y, b, (period as real - fast as real) / 2.0);
  }

  lemma SignOf(r: real, y: real, b: real, gap: real)
    requires y > 0.0 && gap > 0.0 && r * y == b * gap
    ensures (r > 0.0 <==> b > 0.0) && (r < 0.0 <==> b < 0.0)
  {
  }

  // ----- Streaks

  predicate Step(values: Series, rising: bool, i: nat)
    requires i < |values|
  {
    && i > 0 && values[i].Some? && values[i - 1].Some?
    && if rising then values[i].value > values[i - 1].value else values[i].value < values[i - 1].value
  }

  lemma {:induction false} StreakSign(values: Series, rising: bool, i: nat)
    requires i < |values|
    ensures Step(values, rising, i) ==> StreakAt(values, rising, i).Some? && StreakAt(values, rising, i).value >= 1.0
    ensures !Step(values, rising, i) ==> StreakAt(values, rising, i) in {None, Some(0.0)}
    ensures !Step(values, rising, i) ==>
              (StreakAt(values, rising, i).Some? <==> i == 0 || (values[i].Some? && values[i - 1].Some?))
  {
    if i > 0 {
      StreakSign(values, rising, i - 1);
    }
  }

  /** A streak counts the bars back to the last one that did not move that way; it is zero where a bar did not move
      that way from the one before, and missing where one of the two is. */
  lemma {:induction false} StreakIff(values: Series, rising: bool, i: nat, n: nat)
    requires i < |values| && n > 0
    ensures StreakAt(values, rising, i) == Some(n as real)
            <==> n <= i && (forall k | i - n < k <= i :: Step(values, rising, k)) && !Step(values, rising, i - n)
    ensures StreakAt(values, rising, i) == Some(0.0)
            <==> !Step(values, rising, i) && (i == 0 || (values[i].Some? && values[i - 1].Some?))
  {
    StreakSign(values, rising, i);
    if i > 0 && Step(values, rising, i) {
      StreakSign(values, rising, i - 1);
      if n > 1 {
        StreakIff(values, rising, i - 1, n - 1);
        assert (n - 1) as real + 1.0 == n as real;
      }
    }
  }

  // ----- Correlation

  lemma {:induction false} ProductsNegated(xs: seq<real>, ys: seq<real>, zs: seq<real>)
    requires |xs| == |ys| == |zs| && forall i | 0 <= i < |xs| :: zs[i] == -ys[i]
    ensures Products(xs, zs) == -Products(xs, ys)
  {
    if xs != [] {
      var n := |xs| - 1;
      ProductsNegated(xs[..n], ys[..n], zs[..n]);
      assert xs[n] * zs[n] == -(xs[n] * ys[n]);
    }
  }

  lemma {:induction false} SumNegated(ys: seq<real>, zs: seq<real>)
    requires |ys| == |zs| && forall i | 0 <= i < |ys| :: zs[i] == -ys[i]
    ensures Sum(zs) == -Sum(ys)
  {
    if ys != [] {
      SumNegated(ys[..|ys| - 1], zs[..|ys| - 1]);
    }
  }

  /** The variance of a window is not negative, and zero exactly where all its values are the same. */
  lemma VarianceIff(xs: seq<real>)
    requires xs != []
    ensures Covariance(xs, xs) >= 0.0
    ensures Covariance(xs, xs) == 0.0 <==> forall i, j | 0 <= i < |xs| && 0 <= j < |xs| :: xs[i] == xs[j]
  {
    hide Products, Mean, Sum;
    var centred, n := Centred(xs), |xs| as real;
    SquaresZeroIff(centred);
    var variance := Products(centred, centred) / n;
    assert variance * n == Products(centred, centred);
    if variance < 0.0 {
      ProductPositive(-variance, n);
    }
    if forall i | 0 <= i < |xs| :: centred[i] == 0.0 {
      forall i | 0 <= i < |xs|
        ensures xs[i] == Mean(xs)
      {
        assert centred[i] == xs[i] - Mean(xs);
      }
    } else if forall i, j | 0 <= i < |xs| && 0 <= j < |xs| :: xs[i] == xs[j] {
      MeanOfSame(xs);
      assert false;
    }
  }

  lemma {:induction false} SquaresZeroIff(xs: seq<real>)
    ensures Products(xs, xs) >= 0.0
    ensures Products(xs, xs) == 0.0 <==> forall i | 0 <= i < |xs| :: xs[i] == 0.0
  {
    if xs != [] {
      var n := |xs| - 1;
      SquaresZeroIff(xs[..n]);
      if xs[n] != 0.0 {
        SquarePositive(xs[n], xs[n] * xs[n]);
      }
      assert forall i | 0 <= i < n :: xs[..n][i] == xs[i];
    }
  }

  lemma MeanOfSame(xs: seq<real>)
    requires xs != [] && forall i, j | 0 <= i < |xs| && 0 <= j < |xs| :: xs[i] == xs[j]
    ensures forall i | 0 <= i < |xs| :: Centred(xs)[i] == 0.0
  {
    hide Sum;
    assert forall i | 0 <= i < |xs| :: xs[i] == At(xs[0], 0.0, i);
    MeanOfLine(xs, xs[0], 0.0);
  }

  /** Values that move are correlated by one with themselves and by minus one with their negatives. */
  lemma CorrelationEnds(xs: seq<real>, ys: seq<real>, deviation: real)
    requires |xs| == |ys| > 0 && deviation != 0.0 && deviation * deviation == Covariance(xs, xs)
    requires forall i | 0 <= i < |xs| :: ys[i] == -xs[i]
    ensures Correlation(xs, xs, deviation, deviation) == 1.0
    ensures Correlation(xs, ys, deviation, deviation) == -1.0
  {
    hide Covariance;
    CovarianceNegated(xs, ys);
    QuotientsByOwn(Covariance(xs, xs), deviation);
  }

  lemma SquarePositive(x: real, square: real)
    requires x != 0.0 && square == x * x
    ensures square > 0.0
  {
    var size := Abs(x);
    assert size * x == square || size * x == -square;
    ProductPositive(size, size);
    assert size * size == square;
  }

  lemma QuotientsByOwn(square: real, x: real)
    requires x != 0.0 && square == x * x
    ensures x * x != 0.0 && square / (x * x) == 1.0 && (-square) / (x * x) == -1.0
  {
    SquarePositive(x, square);
    assert square / square == 1.0;
    Negated(square, square);
  }

  lemma CovarianceNegated(xs: seq<real>, ys: seq<real>)
    requires |xs| == |ys| > 0 && forall i | 0 <= i < |xs| :: ys[i] == -xs[i]
    ensures Covariance(xs, ys) == -Covariance(xs, xs)
  {
    hide Products, Sum;
    SumNegated(xs, ys);
    var n := |xs| as real;
    Negated(Sum(xs), n);
    assert Mean(ys) == -Mean(xs);
    hide Mean;
    assert forall i | 0 <= i < |xs| :: Centred(ys)[i] == -Centred(xs)[i];
    ProductsNegated(Centred(xs), Centred(xs), Centred(ys));
    Negated(Products(Centred(xs), Centred(xs)), n);
  }

  lemma Negated(a: real, n: real)
    requires n != 0.0
    ensures (-a) / n == -(a / n)
  {
    var q := a / n;
    assert q * n == a;
    SameQuotient(-a, n, -q);
  }
}
