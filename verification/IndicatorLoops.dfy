/** The calculators of core/features/calculators.py that fill their result in loops of their own: they
    compute what the index-wise definitions of `Indicators` say. */
module IndicatorLoops {
  import opened Prelude
  import opened Strategy
  import opened Indicators
  import opened IndicatorFacts

  /** The loop of `_wma`. */
  method WmaLoop(values: Series, period: nat) returns (result: Series)
    requires period > 0
    ensures result == Wma(values, period)
  {
    result := SingleRolling(values, period, WeightedMean);
  }

  /** The loop of `_cmo`. */
  method CmoLoop(values: Series, period: nat) returns (result: Series)
    requires period > 0
    ensures result == Cmo(values, period)
  {
    result := SingleRolling(values, period + 1, CmoWindow);
  }

  /** `_consecutive`. */
  method ConsecutiveLoop(values: Series, rising: bool) returns (result: Series)
    ensures result == Streaks(values, rising)
  {
    result := seq(|values|, _ => Some(0.0));
    var index := 1;
    while index < |values|
      invariant index >= 1 && |result| == |values|
      invariant forall i | 0 <= i < |values| ::
                result[i] == if i < index then StreakAt(values, rising, i) else Some(0.0)
    {
      var current, previous := values[index], values[index - 1];
      if current.None? || previous.None? {
        result := result[index := None];
      } else {
        var matches := if rising then current.value > previous.value else current.value < previous.value;
        var streak := if result[index - 1].Some? then result[index - 1].value else 0.0;
        result := result[index := Some(if matches then streak + 1.0 else 0.0)];
      }
      index := index + 1;
    }
  }

  // ----- RSI

  /** The changes into each index, split by sign. */
  method GainsLoop(values: Series) returns (gains: Series, losses: Series)
    ensures gains == Gains(values, false) && losses == Gains(values, true)
  {
    gains, losses := Nothing(|values|), Nothing(|values|);
    var index := 1;
    while index < |values|
      invariant index >= 1 && |gains| == |losses| == |values|
      invariant forall i | 0 <= i < |values| :: gains[i] == if i < index then GainAt(values, false, i) else None
      invariant forall i | 0 <= i < |values| :: losses[i] == if i < index then GainAt(values, true, i) else None
    {
      if values[index].Some? && values[index - 1].Some? {
        var change := values[index].value - values[index - 1].value;
        gains := gains[index := Some(Max(0.0, change))];
        losses := losses[index := Some(Max(0.0, -change))];
      }
      index := index + 1;
    }
  }

  lemma BlendNotNegative(current: real, value: real, alpha: real)
    requires current >= 0.0 && value >= 0.0 && 0.0 <= alpha <= 1.0
    ensures Blend(current, value, alpha) >= 0.0
  {
    ProductNotNegative(1.0 - alpha, current);
    ProductNotNegative(alpha, value);
    assert Blend(current, value, alpha) == (1.0 - alpha) * current + alpha * value;
  }

  lemma {:induction false} SmoothAtNotNegative(values: Series, period: nat, alpha: real, index: nat)
    requires 0 < period <= index + 1 <= |values| && AllPresent(values[..period]) && 0.0 <= alpha <= 1.0
    requires forall i | 0 <= i < |values| && values[i].Some? :: values[i].value >= 0.0
    ensures SmoothAt(values, period, alpha, index).Some? ==> SmoothAt(values, period, alpha, index).value >= 0.0
    decreases index
  {
    hide Blend;
    if index == period - 1 {
      MeanNonNegative(Numeric(values[..period]));
    } else {
      SmoothAtNotNegative(values, period, alpha, index - 1);
      var previous := SmoothAt(values, period, alpha, index - 1);
      if previous.Some? && values[index].Some? {
        BlendNotNegative(previous.value, values[index].value, alpha);
      }
    }
  }

  lemma AveragesNotNegative(values: Series, falling: bool, period: nat)
    requires period > 0
    ensures forall i | 0 <= i < |values| && Ema(Gains(values, falling), period)[i].Some? ::
              Ema(Gains(values, falling), period)[i].value >= 0.0
    ensures forall i | 0 <= i < |values| && Wilder(Gains(values, falling), period)[i].Some? ::
              Wilder(Gains(values, falling), period)[i].value >= 0.0
  {
    hide SmoothAt;
    var gains := Gains(values, falling);
    var ema, wilder := 2.0 / (period + 1) as real, 1.0 / period as real;
    assert 0.0 <= ema <= 1.0 && 0.0 <= wilder <= 1.0;
    if |gains| >= period && AllPresent(gains[..period]) {
      forall i | period <= i + 1 <= |values|
        ensures SmoothAt(gains, period, ema, i).Some? ==> SmoothAt(gains, period, ema, i).value >= 0.0
        ensures SmoothAt(gains, period, wilder, i).Some? ==> SmoothAt(gains, period, wilder, i).value >= 0.0
      {
        SmoothAtNotNegative(gains, period, ema, i);
        SmoothAtNotNegative(gains, period, wilder, i);
      }
    }
  }

  /** `_rsi` by Wilder or EMA smoothing. No division is by zero, since the averages are not negative. */
  method SmoothedRsi(values: Series, period: nat, how: RsiMethod) returns (result: Series)
    requires period > 0 && !how.SimpleRsi?
    ensures result == Rsi(values, period, how)
  {
    hide Smooth, Strength, Gains;
    var gains, losses := GainsLoop(values);
    AveragesNotNegative(values, false, period);
    AveragesNotNegative(values, true, period);
    var averageGain, averageLoss;
    if how.WilderRsi? {
      averageGain := SmoothLoop(gains, period, 1.0 / period as real);
      averageLoss := SmoothLoop(losses, period, 1.0 / period as real);
      assert averageGain == Wilder(gains, period) && averageLoss == Wilder(losses, period);
    } else {
      averageGain := SmoothLoop(gains, period, 2.0 / (period + 1) as real);
      averageLoss := SmoothLoop(losses, period, 2.0 / (period + 1) as real);
      assert averageGain == Ema(gains, period) && averageLoss == Ema(losses, period);
    }
    result := StrengthLoop(averageGain, averageLoss);
  }

  method StrengthLoop(averageGain: Series, averageLoss: Series) returns (result: Series)
    requires |averageGain| == |averageLoss|
    requires forall i | 0 <= i < |averageGain| && averageGain[i].Some? :: averageGain[i].value >= 0.0
    requires forall i | 0 <= i < |averageLoss| && averageLoss[i].Some? :: averageLoss[i].value >= 0.0
    ensures result == Lift(averageGain, averageLoss, (x, y) =>
              if y != 0.0 && 1.0 + x / y == 0.0 then None else Some(Strength(x, y)))
  {
    result := Nothing(|averageGain|);
    for index := 0 to |averageGain|
      invariant |result| == |averageGain|
      invariant forall i | 0 <= i < |result| ::
                  if i < index && averageGain[i].Some? && averageLoss[i].Some?
                  then Balanced(averageGain[i].value, averageLoss[i].value)
                       && result[i] == Some(Strength(averageGain[i].value, averageLoss[i].value))
                  else result[i] == None
    {
      if averageGain[index].Some? && averageLoss[index].Some? {
        var gain, loss := averageGain[index].value, averageLoss[index].value;
        StrengthDefined(gain, loss);
        result := result[index := Some(if loss == 0.0 then 100.0 else 100.0 - 100.0 / (1.0 + gain / loss))];
      }
    }
  }

  /** The strength is defined. */
  predicate Balanced(gain: real, loss: real) {
    loss != 0.0 ==> 1.0 + gain / loss != 0.0
  }

  /** The simple `_rsi`. */
  method SimpleRsiLoop(values: Series, period: nat) returns (result: Series)
    requires period > 0
    ensures result == Rsi(values, period, SimpleRsi)
  {
    result := SingleRolling(values, period + 1, RsiWindow);
  }

  // ----- ATR and ADX

  /** `_atr`. */
  method AtrLoop(highs: Series, lows: Series, closes: Series, period: nat) returns (result: Series)
    requires |highs| == |lows| == |closes| && period > 0
    ensures result == Atr(highs, lows, closes, period)
  {
    var trueRanges := Nothing(|closes|);
    for index := 0 to |closes|
      invariant |trueRanges| == |closes|
      invariant forall i | 0 <= i < |closes| ::
                trueRanges[i] == if i < index then Ranges(highs, lows, closes)[i] else None
    {
      if highs[index].None? || lows[index].None? {
        continue;
      }
      var high, low := highs[index].value, lows[index].value;
      if index == 0 || closes[index - 1].None? {
        trueRanges := trueRanges[index := Some(high - low)];
        continue;
      }
      trueRanges := trueRanges[index := Some(TrueRange(high, low, closes[index - 1].value))];
    }
    assert trueRanges == Ranges(highs, lows, closes);
    result := SingleRolling(trueRanges, period, MeanOf);
  }

  /** The three lists of `_adx`. */
  method MovesLoop(highs: Series, lows: Series, closes: Series)
    returns (trueRanges: Series, plus: Series, minus: Series)
    requires |highs| == |lows| == |closes|
    ensures trueRanges == Moves(highs, lows, closes, RangeMove)
    ensures plus == Moves(highs, lows, closes, PlusMove) && minus == Moves(highs, lows, closes, MinusMove)
  {
    hide TrueRange;
    var n := |closes|;
    trueRanges, plus, minus := Nothing(n), Nothing(n), Nothing(n);
    var index := 1;
    while index < n
      invariant index >= 1 && |trueRanges| == |plus| == |minus| == n
      invariant forall i | 0 <= i < n ::
                trueRanges[i] == if i < index then Moves(highs, lows, closes, RangeMove)[i] else None
      invariant forall i | 0 <= i < n :: plus[i] == if i < index then Moves(highs, lows, closes, PlusMove)[i] else None
      invariant forall i | 0 <= i < n ::
                minus[i] == if i < index then Moves(highs, lows, closes, MinusMove)[i] else None
    {
      if MoveKnown(highs, lows, closes, index) {
        var up := highs[index].value - highs[index - 1].value;
        var down := lows[index - 1].value - lows[index].value;
        trueRanges := trueRanges[index := Some(TrueRange(highs[index].value, lows[index].value,
            closes[index - 1].value))];
        plus := plus[index := Some(if up > down && up > 0.0 then up else 0.0)];
        minus := minus[index := Some(if down > up && down > 0.0 then down else 0.0)];
      }
      index := index + 1;
    }
  }

  /** `_adx`. */
  method AdxLoop(highs: Series, lows: Series, closes: Series, period: nat) returns (result: Series)
    requires |highs| == |lows| == |closes| && period > 0
    ensures result == Adx(highs, lows, closes, period)
  {
    hide Moves, Rolling, OneSided;
    var trueRanges, plusMoves, minusMoves := MovesLoop(highs, lows, closes);
    var atr := SingleRolling(trueRanges, period, MeanOf);
    var plus := SingleRolling(plusMoves, period, MeanOf);
    var minus := SingleRolling(minusMoves, period, MeanOf);
    var directional := Nothing(|closes|);
    for index := 0 to |closes|
      invariant |directional| == |closes|
      invariant forall i | 0 <= i < |closes| ::
                directional[i] == if i < index then Directional(atr, plus, minus)[i] else None
    {
      if atr[index].None? || atr[index].value == 0.0 || plus[index].None? || minus[index].None? {
        continue;
      }
      directional := directional[index := Some(OneSided(atr[index].value, plus[index].value, minus[index].value))];
    }
    assert directional == Directional(atr, plus, minus);
    result := SingleRolling(directional, period, MeanOf);
  }

  // ----- Rolling correlation

  /** `pstdev`: the root of the variance. */
  ghost predicate IsDeviation(pstdev: seq<real> -> real) {
    forall xs: seq<real> | xs != [] :: pstdev(xs) >= 0.0 && pstdev(xs) * pstdev(xs) == Covariance(xs, xs)
  }

  function CorrelationAt(first: Series, second: Series, period: nat, pstdev: seq<real> -> real,
                         index: nat): Option<real>
    requires period > 0 && index < |first| == |second|
  {
    if index + 1 < period then None
    else
      var left, right := Window(first, period, index), Window(second, period, index);
      if !AllPresent(left) || !AllPresent(right) then None
      else Some(Correlation(Numeric(left), Numeric(right), pstdev(Numeric(left)), pstdev(Numeric(right))))
  }

  function RollingCorrelation(first: Series, second: Series, period: nat, pstdev: seq<real> -> real): (r: Series)
    requires period > 0 && |first| == |second|
    ensures |r| == |first|
  {
    seq(|first|, i requires 0 <= i < |first| => CorrelationAt(first, second, period, pstdev, i))
  }

  /** The loop of `_rolling_correlation`. */
  method RollingCorrelationLoop(first: Series, second: Series, period: nat, pstdev: seq<real> -> real)
    returns (result: Series)
    requires period > 0 && |first| == |second|
    ensures result == RollingCorrelation(first, second, period, pstdev)
  {
    hide Covariance;
    result := Nothing(|first|);
    var index := period - 1;
    while index < |first|
      invariant index >= period - 1 && |result| == |first|
      invariant forall i | 0 <= i < |first| ::
                result[i] == if i < index then CorrelationAt(first, second, period, pstdev, i) else None
    {
      var left, right := Window(first, period, index), Window(second, period, index);
      index := index + 1;
      if !AllPresent(left) || !AllPresent(right) {
        continue;
      }
      var xs, ys := Numeric(left), Numeric(right);
      var leftDeviation, rightDeviation := pstdev(xs), pstdev(ys);
      if leftDeviation == 0.0 || rightDeviation == 0.0 {
        result := result[index - 1 := Some(0.0)];
        continue;
      }
      result := result[index - 1 := Some(Correlation(xs, ys, leftDeviation, rightDeviation))];
    }
  }

  /** A rolling correlation never leaves the interval from -1 to 1. */
  lemma RollingCorrelationWithin(first: Series, second: Series, period: nat, pstdev: seq<real> -> real)
    requires period > 0 && |first| == |second| && IsDeviation(pstdev)
    ensures SeriesWithin(RollingCorrelation(first, second, period, pstdev), -1.0, 1.0)
  {
    hide Correlation, Covariance;
    forall i | period <= i + 1 <= |first| && AllPresent(Window(first, period, i))
        && AllPresent(Window(second, period, i))
      ensures -1.0 <= CorrelationAt(first, second, period, pstdev, i).value <= 1.0
    {
      var xs, ys := Numeric(Window(first, period, i)), Numeric(Window(second, period, i));
      CorrelationWithin(xs, ys, pstdev(xs), pstdev(ys));
    }
  }

  /** A rolling correlation reads nothing after its index. */
  lemma RollingCorrelationPrefix(first: Series, second: Series, period: nat, pstdev: seq<real> -> real, n: nat)
    requires period > 0 && n <= |first| == |second|
    ensures RollingCorrelation(first[..n], second[..n], period, pstdev)
            == RollingCorrelation(first, second, period, pstdev)[..n]
  {
    hide Correlation;
    forall i | 0 <= i < n
      ensures CorrelationAt(first[..n], second[..n], period, pstdev, i)
              == CorrelationAt(first, second, period, pstdev, i)
    {
      if i + 1 >= period {
        assert Window(first[..n], period, i) == Window(first, period, i);
        assert Window(second[..n], period, i) == Window(second, period, i);
      }
    }
  }
}
