/** Feature calculators of core/features/calculators.py, over series of values that may be missing.
    Each rolling or recursive calculator is a function of the index, and the loops that fill the
    result list are proved equal to it. */
module Indicators {
  import opened Prelude
  import opened Strategy

  // ----- Windows

  predicate AllPresent(window: Series) {
    forall i | 0 <= i < |window| :: window[i].Some?
  }

  function Numeric(window: Series): (r: seq<real>)
    requires AllPresent(window)
    ensures |r| == |window|
  {
    seq(|window|, i requires 0 <= i < |window| => window[i].value)
  }

  function Mean(xs: seq<real>): real
    requires xs != []
  {
    Sum(xs) / (|xs| as real)
  }

  function Nothing(n: nat): (r: Series)
    ensures |r| == n
  {
    seq(n, _ => None)
  }

  // ----- Rolling reductions

  /** The `period` values that end at `index`. */
  function Window(values: Series, period: nat, index: nat): (r: Series)
    requires 0 < period <= index + 1 <= |values|
    ensures |r| == period && forall k | 0 <= k < period :: r[k] == values[index + 1 - period + k]
  {
    values[index + 1 - period..index + 1]
  }

  /** `reducer` of the last `period` values at `index`, if all are there. */
  function RollAt(values: Series, period: nat, reducer: seq<real> -> real, index: nat): Option<real>
    requires period > 0 && index < |values|
  {
    if index + 1 < period then None
    else
      var window := Window(values, period, index);
      if AllPresent(window) then Some(reducer(Numeric(window))) else None
  }

  function Rolling(values: Series, period: nat, reducer: seq<real> -> real): (r: Series)
    requires period > 0
    ensures |r| == |values|
  {
    seq(|values|, i requires 0 <= i < |values| => RollAt(values, period, reducer, i))
  }

  /** The loop of `_single_rolling`. */
  method SingleRolling(values: Series, period: nat, reducer: seq<real> -> real) returns (result: Series)
    requires period > 0
    ensures result == Rolling(values, period, reducer)
  {
    result := Nothing(|values|);
    var index := period - 1;
    while index < |values|
      invariant index >= period - 1 && |result| == |values|
      invariant forall i | 0 <= i < |values| ::
                result[i] == if i < index then RollAt(values, period, reducer, i) else None
    {
      var window := Window(values, period, index);
      if AllPresent(window) {
        result := result[index := Some(reducer(Numeric(window)))];
      }
      index := index + 1;
    }
  }

  function MeanOf(xs: seq<real>): real {
    if xs == [] then 0.0 else Mean(xs)
  }

  function Sma(values: Series, period: nat): (r: Series)
    requires period > 0
    ensures |r| == |values|
  {
    Rolling(values, period, MeanOf)
  }

  /** The sum of the values weighted by their positions, from one up. */
  function Weighted(xs: seq<real>): real {
    if xs == [] then 0.0 else Weighted(xs[..|xs| - 1]) + xs[|xs| - 1] * (|xs| as real)
  }

  function WeightedMean(xs: seq<real>): real {
    if xs == [] then 0.0 else Weighted(xs) / ((|xs| * (|xs| + 1)) as real / 2.0)
  }

  function Wma(values: Series, period: nat): (r: Series)
    requires period > 0
    ensures |r| == |values|
  {
    Rolling(values, period, WeightedMean)
  }

  // ----- Recursive smoothing

  /** The running value of a smoothing at `index`, None where the source holds a NaN: it starts at the
      mean of the first `period` values, is lost at a missing value and restarts at the next one. */
  function SmoothAt(values: Series, period: nat, alpha: real, index: nat): Option<real>
    requires 0 < period <= index + 1 <= |values| && AllPresent(values[..period])
    decreases index
  {
    if index == period - 1 then Some(Mean(Numeric(values[..period])))
    else if values[index].None? then None
    else
      var previous := SmoothAt(values, period, alpha, index - 1);
      if previous.None? then values[index]
      else Some(Blend(previous.value, values[index].value, alpha))
  }

  /** A step of the smoothing. */
  function Blend(current: real, value: real, alpha: real): real {
    current + alpha * (value - current)
  }

  function Smooth(values: Series, period: nat, alpha: real): (r: Series)
    requires period > 0
    ensures |r| == |values|
  {
    if |values| < period || !AllPresent(values[..period]) then Nothing(|values|)
    else
      seq(|values|, i requires 0 <= i < |values| =>
        if i + 1 < period then None else SmoothAt(values, period, alpha, i))
  }

  /** The loop of `_ema` and of `_wilder`, which differ in `alpha`. */
  method SmoothLoop(values: Series, period: nat, alpha: real) returns (result: Series)
    requires period > 0
    ensures result == Smooth(values, period, alpha)
  {
    hide Blend, Mean;
    result := Nothing(|values|);
    if |values| < period {
      return;
    }
    var initial := values[..period];
    if !AllPresent(initial) {
      return;
    }
    var current := Some(Mean(Numeric(initial)));
    result := result[period - 1 := current];
    for index := period to |values|
      invariant |result| == |values|
      invariant current == SmoothAt(values, period, alpha, index - 1)
      invariant forall i | 0 <= i < |values| ::
                  result[i] == if period <= i + 1 <= index then SmoothAt(values, period, alpha, i) else None
    {
      if values[index].None? {
        current := None;
      } else if current.None? {
        current := values[index];
      } else {
        current := Some(Blend(current.value, values[index].value, alpha));
      }
      result := result[index := current];
    }
  }

  function Ema(values: Series, period: nat): (r: Series)
    requires period > 0
    ensures |r| == |values|
  {
    Smooth(values, period, 2.0 / (period + 1) as real)
  }

  function Wilder(values: Series, period: nat): (r: Series)
    requires period > 0
    ensures |r| == |values|
  {
    Smooth(values, period, 1.0 / period as real)
  }

  // ----- Combining series value by value

  function Lift(a: Series, b: Series, f: (real, real) -> Option<real>): (r: Series)
    requires |a| == |b|
    ensures |r| == |a|
  {
    seq(|a|, i requires 0 <= i < |a| => if a[i].None? || b[i].None? then None else f(a[i].value, b[i].value))
  }

  function Macd(values: Series, fast: nat, slow: nat): (r: Series)
    requires 0 < fast < slow
    ensures |r| == |values|
  {
    Lift(Ema(values, fast), Ema(values, slow), (x, y) => Some(x - y))
  }

  function MacdSignal(values: Series, fast: nat, slow: nat, signal: nat): Series
    requires 0 < fast < slow && signal > 0
  {
    Ema(Macd(values, fast, slow), signal)
  }

  function Dema(values: Series, period: nat): (r: Series)
    requires period > 0
    ensures |r| == |values|
  {
    var first := Ema(values, period);
    Lift(first, Ema(first, period), (x, y) => Some(2.0 * x - y))
  }

  function Tema(values: Series, period: nat): (r: Series)
    requires period > 0
    ensures |r| == |values|
  {
    var first := Ema(values, period);
    var second := Ema(first, period);
    Lift(Lift(first, second, (x, y) => Some(3.0 * x - 3.0 * y)), Ema(second, period), (x, y) => Some(x + y))
  }

  function AtLeastOne(n: nat): (r: nat)
    ensures r == if n == 0 then 1 else n
  {
    if n == 0 then 1 else n
  }

  /** The integer square root, as `math.isqrt`. */
  function ISqrt(n: nat): (r: nat)
    ensures r * r <= n < (r + 1) * (r + 1)
  {
    if n == 0 then 0 else
    var r := ISqrt(n - 1);
    if (r + 1) * (r + 1) <= n then r + 1 else r
  }

  function HmaDifference(values: Series, period: nat): (r: Series)
    requires period > 0
    ensures |r| == |values|
  {
    Lift(Wma(values, AtLeastOne(period / 2)), Wma(values, period), (x, y) => Some(2.0 * x - y))
  }

  function Hma(values: Series, period: nat): (r: Series)
    requires period > 0
    ensures |r| == |values|
  {
    Wma(HmaDifference(values, period), AtLeastOne(ISqrt(period)))
  }

  function Disparity(values: Series, period: nat): (r: Series)
    requires period > 0
    ensures |r| == |values|
  {
    Lift(values, Sma(values, period), (x, y) => if y == 0.0 then None else Some(x / y * 100.0))
  }

  function RegimeFilter(values: Series, period: nat): (r: Series)
    requires period > 0
    ensures |r| == |values|
  {
    var fast := if period / 2 < 2 then 2 else period / 2;
    Lift(Ema(values, fast), Ema(values, period), (x, y) => if y == 0.0 then None else Some(x / y - 1.0))
  }

  // ----- Changes

  function RisesOf(xs: seq<real>): (r: seq<real>)
    ensures |r| == if |xs| == 0 then 0 else |xs| - 1
  {
    seq(if |xs| == 0 then 0 else |xs| - 1, i requires 0 <= i < |xs| - 1 => Max(0.0, xs[i + 1] - xs[i]))
  }

  function FallsOf(xs: seq<real>): (r: seq<real>)
    ensures |r| == if |xs| == 0 then 0 else |xs| - 1
  {
    seq(if |xs| == 0 then 0 else |xs| - 1, i requires 0 <= i < |xs| - 1 => Max(0.0, xs[i] - xs[i + 1]))
  }

  /** The strength of average gains against average losses. */
  function Strength(gain: real, loss: real): real
    requires loss != 0.0 ==> 1.0 + gain / loss != 0.0
  {
    if loss == 0.0 then 100.0 else 100.0 - 100.0 / (1.0 + gain / loss)
  }

  lemma {:induction false} SumOfNonNegative(xs: seq<real>)
    requires forall i | 0 <= i < |xs| :: xs[i] >= 0.0
    ensures Sum(xs) >= 0.0
  {
    if xs != [] {
      SumOfNonNegative(xs[..|xs| - 1]);
    }
  }

  lemma MeanNonNegative(xs: seq<real>)
    requires forall i | 0 <= i < |xs| :: xs[i] >= 0.0
    ensures MeanOf(xs) >= 0.0
  {
    SumOfNonNegative(xs);
    if xs != [] {
      assert Sum(xs) / (|xs| as real) >= 0.0;
    }
  }

  lemma StrengthDefined(gain: real, loss: real)
    requires gain >= 0.0 && loss >= 0.0
    ensures loss != 0.0 ==> gain / loss >= 0.0
  {
  }

  /** The simple form: `period` changes ending at `index`. */
  function RsiWindow(xs: seq<real>): real {
    MeanNonNegative(RisesOf(xs));
    MeanNonNegative(FallsOf(xs));
    StrengthDefined(MeanOf(RisesOf(xs)), MeanOf(FallsOf(xs)));
    Strength(MeanOf(RisesOf(xs)), MeanOf(FallsOf(xs)))
  }

  function RsiSimple(values: Series, period: nat): (r: Series)
    requires period > 0
    ensures |r| == |values|
  {
    Rolling(values, period + 1, RsiWindow)
  }

  /** The gain, or the loss, into each index; missing at the first index. */
  function Gains(values: Series, falling: bool): (r: Series)
    ensures |r| == |values|
  {
    seq(|values|, i requires 0 <= i < |values| => GainAt(values, falling, i))
  }

  function GainAt(values: Series, falling: bool, i: nat): Option<real>
    requires i < |values|
  {
    if i == 0 || values[i].None? || values[i - 1].None? then None
    else
      var change := values[i].value - values[i - 1].value;
      Some(Max(0.0, if falling then -change else change))
  }

  datatype RsiMethod = SimpleRsi | WilderRsi | EmaRsi

  function Rsi(values: Series, period: nat, how: RsiMethod): (r: Series)
    requires period > 0
    ensures |r| == |values|
  {
    if how.SimpleRsi? then RsiSimple(values, period)
    else
      var gains, losses := Gains(values, false), Gains(values, true);
      var gain := if how.WilderRsi? then Wilder(gains, period) else Ema(gains, period);
      var loss := if how.WilderRsi? then Wilder(losses, period) else Ema(losses, period);
      Lift(gain, loss, (x, y) =>
        if y != 0.0 && 1.0 + x / y == 0.0 then None else Some(Strength(x, y)))
  }

  function CmoWindow(xs: seq<real>): real {
    var gains, losses := Sum(RisesOf(xs)), Sum(FallsOf(xs));
    if gains + losses == 0.0 then 0.0 else 100.0 * (gains - losses) / (gains + losses)
  }

  function Cmo(values: Series, period: nat): (r: Series)
    requires period > 0
    ensures |r| == |values|
  {
    Rolling(values, period + 1, CmoWindow)
  }

  function Returns(values: Series, period: nat): (r: Series)
    ensures |r| == |values|
  {
    seq(|values|, i requires 0 <= i < |values| =>
      if i < period || values[i].None? || values[i - period].None? || values[i - period].value == 0.0 then None
      else Some(values[i].value / values[i - period].value - 1.0))
  }

  function PercentChange(values: Series, period: nat): (r: Series)
    ensures |r| == |values|
  {
    var change := Returns(values, period);
    Lift(change, change, (x, _) => Some(x * 100.0))
  }

  function Greatest(xs: seq<real>): real {
    if |xs| == 0 then 0.0 else if |xs| == 1 then xs[0] else Max(Greatest(xs[..|xs| - 1]), xs[|xs| - 1])
  }

  /** The greatest of the `period` values before the index. */
  function PreviousMaximum(values: Series, period: nat): (r: Series)
    requires period > 0
    ensures |r| == |values|
  {
    seq(|values|, i requires 0 <= i < |values| =>
      if i < period || !AllPresent(values[i - period..i]) then None
      else Some(Greatest(Numeric(values[i - period..i]))))
  }

  function HighRatio(values: Series, period: nat): (r: Series)
    requires period > 0
    ensures |r| == |values|
  {
    Lift(values, Rolling(values, period, Greatest), (x, y) => if y == 0.0 then None else Some(x / y))
  }

  // ----- Ranges

  function TrueRange(high: real, low: real, previousClose: real): real {
    Max(high - low, Max(Abs(high - previousClose), Abs(low - previousClose)))
  }

  function Ranges(highs: Series, lows: Series, closes: Series): (r: Series)
    requires |highs| == |lows| == |closes|
    ensures |r| == |closes|
  {
    seq(|closes|, i requires 0 <= i < |closes| =>
      if highs[i].None? || lows[i].None? then None
      else if i == 0 || closes[i - 1].None? then Some(highs[i].value - lows[i].value)
      else Some(TrueRange(highs[i].value, lows[i].value, closes[i - 1].value)))
  }

  function Atr(highs: Series, lows: Series, closes: Series, period: nat): (r: Series)
    requires |highs| == |lows| == |closes| && period > 0
    ensures |r| == |closes|
  {
    Sma(Ranges(highs, lows, closes), period)
  }

  datatype Move = RangeMove | PlusMove | MinusMove

  predicate MoveKnown(highs: Series, lows: Series, closes: Series, i: nat)
    requires |highs| == |lows| == |closes| && i < |closes|
  {
    i > 0 && highs[i].Some? && lows[i].Some? && highs[i - 1].Some? && lows[i - 1].Some? && closes[i - 1].Some?
  }

  /** The true range or the directional move into each index. */
  function Moves(highs: Series, lows: Series, closes: Series, move: Move): (r: Series)
    requires |highs| == |lows| == |closes|
    ensures |r| == |closes|
  {
    seq(|closes|, i requires 0 <= i < |closes| =>
      if !MoveKnown(highs, lows, closes, i) then None
      else
        var up := highs[i].value - highs[i - 1].value;
        var down := lows[i - 1].value - lows[i].value;
        match move
        case RangeMove => Some(TrueRange(highs[i].value, lows[i].value, closes[i - 1].value))
        case PlusMove => Some(if up > down && up > 0.0 then up else 0.0)
        case MinusMove => Some(if down > up && down > 0.0 then down else 0.0))
  }

  /** How one-sided the average moves are, from 0 to 100. */
  function OneSided(atr: real, plus: real, minus: real): real
    requires atr != 0.0
  {
    var plusDi, minusDi := 100.0 * plus / atr, 100.0 * minus / atr;
    if plusDi + minusDi == 0.0 then 0.0 else Abs(plusDi - minusDi) / (plusDi + minusDi) * 100.0
  }

  function Directional(atr: Series, plus: Series, minus: Series): (r: Series)
    requires |atr| == |plus| == |minus|
    ensures |r| == |atr|
  {
    seq(|atr|, i requires 0 <= i < |atr| =>
      if atr[i].None? || atr[i].value == 0.0 || plus[i].None? || minus[i].None? then None
      else Some(OneSided(atr[i].value, plus[i].value, minus[i].value)))
  }

  function Adx(highs: Series, lows: Series, closes: Series, period: nat): (r: Series)
    requires |highs| == |lows| == |closes| && period > 0
    ensures |r| == |closes|
  {
    Sma(Directional(
          Sma(Moves(highs, lows, closes, RangeMove), period),
          Sma(Moves(highs, lows, closes, PlusMove), period),
          Sma(Moves(highs, lows, closes, MinusMove), period)),
        period)
  }

  function Ibs(closes: Series, highs: Series, lows: Series): (r: Series)
    requires |highs| == |lows| == |closes|
    ensures |r| == |closes|
  {
    seq(|closes|, i requires 0 <= i < |closes| =>
      if closes[i].None? || highs[i].None? || lows[i].None? then None
      else
        var spread := highs[i].value - lows[i].value;
        Some(if spread == 0.0 then 0.5 else (closes[i].value - lows[i].value) / spread))
  }

  // ----- Volume breakout

  function Ratio(current: real, baseline: real): Option<real> {
    if baseline == 0.0 then None else Some(current / baseline)
  }

  /** The first `period` values have an index of their own, filled only when the series is longer. */
  function VolumeBreakout(values: Series, period: nat): (r: Series)
    requires period > 0
    ensures |r| == |values|
  {
    seq(|values|, i requires 0 <= i < |values| =>
      if i >= period then
        if values[i].None? || !AllPresent(values[i - period..i]) then None
        else Ratio(values[i].value, Mean(Numeric(values[i - period..i])))
      else if i == period - 1 && |values| > period && AllPresent(values[..period]) then
        Ratio(values[i].value, Mean(Numeric(values[..period])))
      else None)
  }

  /** The loop of `_volume_breakout` and the assignment after it. */
  method VolumeBreakoutLoop(values: Series, period: nat) returns (result: Series)
    requires period > 0
    ensures result == VolumeBreakout(values, period)
  {
    result := Nothing(|values|);
    var index := period;
    while index < |values|
      invariant index >= period && |result| == |values|
      invariant forall i | 0 <= i < |values| ::
                  result[i] == if period <= i < index then VolumeBreakout(values, period)[i] else None
    {
      var previous := values[index - period..index];
      if values[index].Some? && AllPresent(previous) {
        result := result[index := Ratio(values[index].value, Mean(Numeric(previous)))];
      }
      index := index + 1;
    }
    if |values| > period && values[period - 1].Some? {
      var previous := values[..period];
      if AllPresent(previous) {
        result := result[period - 1 := Ratio(values[period - 1].value, Mean(Numeric(previous)))];
      }
    }
  }

  /** How often in a row the values have moved one way up to `i`; a missing value ends the row. */
  function StreakAt(values: Series, rising: bool, i: nat): Option<real>
    requires i < |values|
  {
    if i == 0 then Some(0.0)
    else if values[i].None? || values[i - 1].None? then None
    else if (if rising then values[i].value > values[i - 1].value else values[i].value < values[i - 1].value) then
      var before := StreakAt(values, rising, i - 1);
      Some((if before.Some? then before.value else 0.0) + 1.0)
    else Some(0.0)
  }

  function Streaks(values: Series, rising: bool): (r: Series)
    ensures |r| == |values|
  {
    seq(|values|, i requires 0 <= i < |values| => StreakAt(values, rising, i))
  }

  /** The engine's `_lag`: the series delayed by some bars. */
  function Lag(values: Series, bars: nat): (r: Series)
    ensures |r| == |values|
  {
    if bars == 0 then values
    else if bars >= |values| then Nothing(|values|)
    else Nothing(bars) + values[..|values| - bars]
  }
}
