/** From which index calculators have values, and between which bounds these lie. */
module IndicatorFacts {
  import opened Prelude
  import opened Strategy
  import opened Indicators

  // ----- Warm-up

  /** The series has values exactly from index `start` on. */
  ghost predicate DefinedFrom(values: Series, start: nat) {
    forall i | 0 <= i < |values| :: values[i].Some? <==> i >= start
  }

  /** A rolling calculator adds its period less one to the warm-up of its input. */
  lemma RollingWarmUp(values: Series, period: nat, reducer: seq<real> -> real, start: nat)
    requires period > 0 && DefinedFrom(values, start)
    ensures DefinedFrom(Rolling(values, period, reducer), start + period - 1)
  {
    forall i | period - 1 <= i < |values|
      ensures AllPresent(Window(values, period, i)) <==> i >= start + period - 1
    {
      assert Window(values, period, i)[0] == values[i + 1 - period];
    }
  }

  lemma {:induction false} SmoothAtPresent(values: Series, period: nat, alpha: real, index: nat)
    requires 0 < period <= index + 1 <= |values| && DefinedFrom(values, 0)
    ensures AllPresent(values[..period]) && SmoothAt(values, period, alpha, index).Some?
    decreases index
  {
    if index >= period {
      SmoothAtPresent(values, period, alpha, index - 1);
    }
  }

  lemma SmoothWarmUp(values: Series, period: nat, alpha: real)
    requires period > 0 && DefinedFrom(values, 0)
    ensures DefinedFrom(Smooth(values, period, alpha), period - 1)
  {
    forall i | period - 1 <= i < |values|
      ensures AllPresent(values[..period]) && SmoothAt(values, period, alpha, i).Some?
    {
      SmoothAtPresent(values, period, alpha, i);
    }
  }

  /** On fully present input, SMA, EMA, WMA and Wilder have values exactly from the period less one. */
  lemma AverageWarmUp(values: Series, period: nat)
    requires period > 0 && DefinedFrom(values, 0)
    ensures DefinedFrom(Sma(values, period), period - 1) && DefinedFrom(Wma(values, period), period - 1)
    ensures DefinedFrom(Ema(values, period), period - 1) && DefinedFrom(Wilder(values, period), period - 1)
  {
    RollingWarmUp(values, period, MeanOf, 0);
    RollingWarmUp(values, period, WeightedMean, 0);
    SmoothWarmUp(values, period, 2.0 / (period + 1) as real);
    SmoothWarmUp(values, period, 1.0 / period as real);
  }

  /** HMA waits for the long average, and then for the last average over the differences. */
  lemma HmaWarmUp(values: Series, period: nat)
    requires period > 0 && DefinedFrom(values, 0)
    ensures DefinedFrom(Hma(values, period), period - 1 + AtLeastOne(ISqrt(period)) - 1)
  {
    RollingWarmUp(values, AtLeastOne(period / 2), WeightedMean, 0);
    RollingWarmUp(values, period, WeightedMean, 0);
    assert DefinedFrom(HmaDifference(values, period), period - 1);
    RollingWarmUp(HmaDifference(values, period), AtLeastOne(ISqrt(period)), WeightedMean, period - 1);
  }

  // ----- Calculators that never have a value

  predicate Never(values: Series) {
    forall i | 0 <= i < |values| :: values[i].None?
  }

  /** A smoothing whose input misses its first value has none at all: it is seeded once and gives up. */
  lemma SeedLost(values: Series, period: nat, alpha: real)
    requires period > 0 && (values == [] || values[0].None?)
    ensures Never(Smooth(values, period, alpha))
  {
    if |values| >= period {
      assert values[..period][0] == values[0];
    }
  }

  /** DEMA and TEMA of a period over one, the signal line of a MACD, and the RSI by Wilder or EMA
      smoothing never have a value, whatever the input. */
  lemma NeverDefined(values: Series, period: nat, how: RsiMethod, fast: nat, slow: nat, signal: nat)
    requires period > 0 && 0 < fast < slow && signal > 0
    ensures period >= 2 ==> Never(Dema(values, period)) && Never(Tema(values, period))
    ensures !how.SimpleRsi? ==> Never(Rsi(values, period, how))
    ensures Never(MacdSignal(values, fast, slow, signal))
  {
    if period >= 2 {
      var first := Ema(values, period);
      SeedLost(first, period, 2.0 / (period + 1) as real);
    }
    if !how.SimpleRsi? {
      var alpha := if how.WilderRsi? then 1.0 / period as real else 2.0 / (period + 1) as real;
      SeedLost(Gains(values, false), period, alpha);
    }
    SeedLost(Macd(values, fast, slow), signal, 2.0 / (signal + 1) as real);
  }

  // ----- Bounds

  ghost predicate Within(xs: seq<real>, low: real, high: real) {
    forall i | 0 <= i < |xs| :: low <= xs[i] <= high
  }

  /** All values that are there lie within the bounds. */
  ghost predicate SeriesWithin(values: Series, low: real, high: real) {
    forall i | 0 <= i < |values| && values[i].Some? :: low <= values[i].value <= high
  }

  lemma {:induction false} SumWithin(xs: seq<real>, low: real, high: real)
    requires Within(xs, low, high)
    ensures low * (|xs| as real) <= Sum(xs) <= high * (|xs| as real)
  {
    if xs != [] {
      var n := |xs| - 1;
      SumWithin(xs[..n], low, high);
      OneMoreTime(low, n);
      OneMoreTime(high, n);
    }
  }

  lemma OneMoreTime(bound: real, n: nat)
    ensures bound * ((n + 1) as real) == bound * (n as real) + bound
  {
    assert (n + 1) as real == n as real + 1.0;
  }

  lemma MeanWithin(xs: seq<real>, low: real, high: real)
    requires xs != [] && Within(xs, low, high)
    ensures low <= Mean(xs) <= high
  {
    SumWithin(xs, low, high);
    var n := |xs| as real;
    assert Sum(xs) - low * n >= 0.0 ==> (Sum(xs) - low * n) / n >= 0.0;
    assert high * n - Sum(xs) >= 0.0 ==> (high * n - Sum(xs)) / n >= 0.0;
    assert low * n / n == low && high * n / n == high;
  }

  lemma SmaWithin(values: Series, period: nat, low: real, high: real)
    requires period > 0 && SeriesWithin(values, low, high)
    ensures SeriesWithin(Sma(values, period), low, high)
  {
    hide Mean;
    forall i | period - 1 <= i < |values| && AllPresent(Window(values, period, i))
      ensures low <= MeanOf(Numeric(Window(values, period, i))) <= high
    {
      MeanWithin(Numeric(Window(values, period, i)), low, high);
    }
  }

  lemma BlendWithin(current: real, value: real, alpha: real, low: real, high: real)
    requires 0.0 <= alpha <= 1.0 && low <= current <= high && low <= value <= high
    ensures low <= Blend(current, value, alpha) <= high
  {
    assert Blend(current, value, alpha) - low == (current - low) * (1.0 - alpha) + alpha * (value - low);
    assert high - Blend(current, value, alpha) == (high - current) * (1.0 - alpha) + alpha * (high - value);
    ProductNotNegative(current - low, 1.0 - alpha);
    ProductNotNegative(alpha, value - low);
    ProductNotNegative(high - current, 1.0 - alpha);
    ProductNotNegative(alpha, high - value);
  }

  lemma {:induction false} SmoothAtWithin(values: Series, period: nat, alpha: real, index: nat, low: real, high: real)
    requires 0 < period <= index + 1 <= |values| && AllPresent(values[..period])
    requires 0.0 <= alpha <= 1.0 && SeriesWithin(values[..index + 1], low, high)
    ensures SmoothAt(values, period, alpha, index).Some? ==> low <= SmoothAt(values, period, alpha, index).value <= high
    decreases index
  {
    hide Blend, Mean;
    assert forall i | 0 <= i < index + 1 :: values[..index + 1][i] == values[i];
    if index == period - 1 {
      assert Within(Numeric(values[..period]), low, high);
      MeanWithin(Numeric(values[..period]), low, high);
    } else {
      assert forall i | 0 <= i < index :: values[..index][i] == values[i];
      SmoothAtWithin(values, period, alpha, index - 1, low, high);
      var previous := SmoothAt(values, period, alpha, index - 1);
      if values[index].Some? && previous.Some? {
        BlendWithin(previous.value, values[index].value, alpha, low, high);
      }
    }
  }

  /** EMA and Wilder stay between the bounds of the values seen so far. */
  lemma SmoothWithin(values: Series, period: nat, index: nat, low: real, high: real)
    requires period > 0 && index < |values| && SeriesWithin(values[..index + 1], low, high)
    ensures Ema(values, period)[index].Some? ==> low <= Ema(values, period)[index].value <= high
    ensures Wilder(values, period)[index].Some? ==> low <= Wilder(values, period)[index].value <= high
  {
    if index + 1 >= period && AllPresent(values[..period]) {
      var p := period as real;
      assert 2.0 / (p + 1.0) <= 1.0 && 1.0 / p <= 1.0;
      SmoothAtWithin(values, period, 2.0 / (period + 1) as real, index, low, high);
      SmoothAtWithin(values, period, 1.0 / period as real, index, low, high);
    }
  }

  lemma StrengthWithin(gain: real, loss: real)
    requires gain >= 0.0 && loss >= 0.0
    ensures loss != 0.0 ==> 1.0 + gain / loss != 0.0
    ensures 0.0 <= Strength(gain, loss) <= 100.0
  {
    if loss != 0.0 {
      var d := 1.0 + gain / loss;
      assert gain / loss >= 0.0;
      assert 0.0 < 100.0 / d <= 100.0;
    }
  }

  lemma RollingWithin(values: Series, period: nat, reducer: seq<real> -> real, low: real, high: real)
    requires period > 0 && forall xs: seq<real> | |xs| == period :: low <= reducer(xs) <= high
    ensures SeriesWithin(Rolling(values, period, reducer), low, high)
  {
  }

  /** The RSI lies between 0 and 100. */
  lemma RsiWithin(values: Series, period: nat, how: RsiMethod)
    requires period > 0
    ensures SeriesWithin(Rsi(values, period, how), 0.0, 100.0)
  {
    if how.SimpleRsi? {
      forall xs: seq<real> | |xs| == period + 1
        ensures 0.0 <= RsiWindow(xs) <= 100.0
      {
        MeanNonNegative(RisesOf(xs));
        MeanNonNegative(FallsOf(xs));
        StrengthWithin(MeanOf(RisesOf(xs)), MeanOf(FallsOf(xs)));
      }
      RollingWithin(values, period + 1, RsiWindow, 0.0, 100.0);
    } else {
      NeverDefined(values, period, how, 1, 2, 1);
    }
  }

  /** The CMO lies between -100 and 100. */
  lemma CmoWithin(values: Series, period: nat)
    requires period > 0
    ensures SeriesWithin(Cmo(values, period), -100.0, 100.0)
  {
    forall xs: seq<real> | |xs| == period + 1
      ensures -100.0 <= CmoWindow(xs) <= 100.0
    {
      SumOfNonNegative(RisesOf(xs));
      SumOfNonNegative(FallsOf(xs));
      if Sum(RisesOf(xs)) + Sum(FallsOf(xs)) != 0.0 {
        CmoRatio(Sum(RisesOf(xs)) - Sum(FallsOf(xs)), Sum(RisesOf(xs)) + Sum(FallsOf(xs)));
      }
    }
    RollingWithin(values, period + 1, CmoWindow, -100.0, 100.0);
  }

  lemma SignOfFactor(a: real, positive: real)
    requires positive > 0.0 && a * positive <= 0.0
    ensures a <= 0.0
  {
  }

  lemma CmoRatio(x: real, total: real)
    requires total > 0.0 && -total <= x <= total
    ensures -100.0 <= 100.0 * x / total <= 100.0
  {
    var q := 100.0 * x / total;
    assert q * total == 100.0 * x;
    SignOfFactor(q - 100.0, total);
    SignOfFactor(-100.0 - q, total);
  }

  lemma PartOfWhole(part: real, whole: real)
    requires 0.0 <= part <= whole && whole > 0.0
    ensures 0.0 <= part / whole <= 1.0
  {
    var q := part / whole;
    assert q * whole == part;
    SignOfFactor(-q, whole);
    SignOfFactor(q - 1.0, whole);
  }

  lemma OneSidedWithin(atr: real, plus: real, minus: real)
    requires atr > 0.0 && plus >= 0.0 && minus >= 0.0
    ensures 0.0 <= OneSided(atr, plus, minus) <= 100.0
  {
    var p, m := 100.0 * plus / atr, 100.0 * minus / atr;
    assert p >= 0.0 && m >= 0.0;
    if p + m != 0.0 {
      assert 0.0 <= Abs(p - m) <= p + m;
      PartOfWhole(Abs(p - m), p + m);
    }
  }

  /** Bars whose high is not below the low. */
  ghost predicate HighsAbove(highs: Series, lows: Series)
    requires |highs| == |lows|
  {
    forall i | 0 <= i < |highs| && highs[i].Some? && lows[i].Some? :: highs[i].value >= lows[i].value
  }

  lemma SmaNonNegative(values: Series, period: nat)
    requires period > 0 && forall i | 0 <= i < |values| && values[i].Some? :: values[i].value >= 0.0
    ensures forall i | 0 <= i < |values| && Sma(values, period)[i].Some? :: Sma(values, period)[i].value >= 0.0
  {
    hide Mean;
    forall i | period - 1 <= i < |values| && AllPresent(Window(values, period, i))
      ensures MeanOf(Numeric(Window(values, period, i))) >= 0.0
    {
      MeanNonNegative(Numeric(Window(values, period, i)));
    }
  }

  /** The ADX lies between 0 and 100. */
  lemma AdxWithin(highs: Series, lows: Series, closes: Series, period: nat)
    requires |highs| == |lows| == |closes| && period > 0 && HighsAbove(highs, lows)
    ensures SeriesWithin(Adx(highs, lows, closes, period), 0.0, 100.0)
  {
    hide OneSided, Sma;
    var atr, plus, minus := Sma(Moves(highs, lows, closes, RangeMove), period),
        Sma(Moves(highs, lows, closes, PlusMove), period), Sma(Moves(highs, lows, closes, MinusMove), period);
    SmaNonNegative(Moves(highs, lows, closes, RangeMove), period);
    SmaNonNegative(Moves(highs, lows, closes, PlusMove), period);
    SmaNonNegative(Moves(highs, lows, closes, MinusMove), period);
    forall i | 0 <= i < |closes| && Directional(atr, plus, minus)[i].Some?
      ensures 0.0 <= Directional(atr, plus, minus)[i].value <= 100.0
    {
      OneSidedWithin(atr[i].value, plus[i].value, minus[i].value);
    }
    SmaWithin(Directional(atr, plus, minus), period, 0.0, 100.0);
  }

  // ----- Correlation

  function Products(xs: seq<real>, ys: seq<real>): real
    requires |xs| == |ys|
  {
    if xs == [] then 0.0
    else Products(xs[..|xs| - 1], ys[..|ys| - 1]) + xs[|xs| - 1] * ys[|ys| - 1]
  }

  lemma {:induction false} SquaresNonNegative(xs: seq<real>)
    ensures Products(xs, xs) >= 0.0
  {
    if xs != [] {
      SquaresNonNegative(xs[..|xs| - 1]);
    }
  }

  lemma SquareOrder(x: real, y: real)
    requires x * x <= y * y && y >= 0.0
    ensures x <= y
  {
    if x + y > 0.0 {
      assert x * x - y * y == (x - y) * (x + y);
      SignOfFactor(x - y, x + y);
    }
  }

  /** The step of the Cauchy-Schwarz inequality: one more term on each side. */
  lemma CauchyStep(d: real, a: real, b: real, x: real, y: real)
    requires a >= 0.0 && b >= 0.0 && d * d <= a * b
    ensures (d + x * y) * (d + x * y) <= (a + x * x) * (b + y * y)
  {
    var u, v := a * (y * y), b * (x * x);
    assert u >= 0.0 && v >= 0.0;
    CrossTerm(d, a, b, x, y);
    assert (d + x * y) * (d + x * y) == d * d + 2.0 * (d * (x * y)) + (x * y) * (x * y);
    assert (a + x * x) * (b + y * y) == a * b + u + v + (x * x) * (y * y);
    assert (x * y) * (x * y) == (x * x) * (y * y);
  }

  lemma CrossTerm(d: real, a: real, b: real, x: real, y: real)
    requires a >= 0.0 && b >= 0.0 && d * d <= a * b
    ensures 2.0 * (d * (x * y)) <= a * (y * y) + b * (x * x)
  {
    var u, v, w := a * (y * y), b * (x * x), d * (x * y);
    var z := (x * x) * (y * y);
    assert z >= 0.0;
    assert w * w == (d * d) * z;
    assert u * v == (a * b) * z;
    assert (a * b - d * d) * z >= 0.0;
    assert w * w <= u * v;
    assert (u + v) * (u + v) - 4.0 * (u * v) == (u - v) * (u - v) >= 0.0;
    assert (2.0 * w) * (2.0 * w) <= (u + v) * (u + v);
    SquareOrder(2.0 * w, u + v);
  }

  lemma {:induction false} CauchySchwarz(xs: seq<real>, ys: seq<real>)
    requires |xs| == |ys|
    ensures Products(xs, ys) * Products(xs, ys) <= Products(xs, xs) * Products(ys, ys)
  {
    if xs != [] {
      var n := |xs| - 1;
      CauchySchwarz(xs[..n], ys[..n]);
      SquaresNonNegative(xs[..n]);
      SquaresNonNegative(ys[..n]);
      CauchyStep(Products(xs[..n], ys[..n]), Products(xs[..n], xs[..n]), Products(ys[..n], ys[..n]), xs[n], ys[n]);
    }
  }

  function Centred(xs: seq<real>): (r: seq<real>)
    requires xs != []
    ensures |r| == |xs|
  {
    seq(|xs|, i requires 0 <= i < |xs| => xs[i] - Mean(xs))
  }

  function Covariance(xs: seq<real>, ys: seq<real>): real
    requires |xs| == |ys| > 0
  {
    Products(Centred(xs), Centred(ys)) / (|xs| as real)
  }

  /** A window's correlation, given the deviations that `pstdev` returns. */
  function Correlation(xs: seq<real>, ys: seq<real>, xDeviation: real, yDeviation: real): real
    requires |xs| == |ys| > 0
  {
    if xDeviation == 0.0 || yDeviation == 0.0 then 0.0
    else
      assert xDeviation * yDeviation != 0.0;
      Covariance(xs, ys) / (xDeviation * yDeviation)
  }

  /** When the deviations are the square roots of the variances, the correlation of a window lies
      between -1 and 1. */
  lemma CorrelationWithin(xs: seq<real>, ys: seq<real>, xDeviation: real, yDeviation: real)
    requires |xs| == |ys| > 0
    requires xDeviation >= 0.0 && xDeviation * xDeviation == Covariance(xs, xs)
    requires yDeviation >= 0.0 && yDeviation * yDeviation == Covariance(ys, ys)
    ensures Covariance(xs, ys) * Covariance(xs, ys) <= Covariance(xs, xs) * Covariance(ys, ys)
    ensures -1.0 <= Correlation(xs, ys, xDeviation, yDeviation) <= 1.0
  {
    hide Centred, Products;
    var n := |xs| as real;
    var p, q, r := Products(Centred(xs), Centred(ys)), Products(Centred(xs), Centred(xs)),
        Products(Centred(ys), Centred(ys));
    CauchySchwarz(Centred(xs), Centred(ys));
    CovarianceSquares(p, q, r, n);
    var c, s := Covariance(xs, ys), xDeviation * yDeviation;
    SquareOfProduct(xDeviation, yDeviation);
    QuotientWithin(c, s);
  }

  lemma SquareOfProduct(a: real, b: real)
    requires a >= 0.0 && b >= 0.0
    ensures (a * b) * (a * b) == (a * a) * (b * b) && a * b >= 0.0
  {
  }

  lemma QuotientWithin(c: real, s: real)
    requires c * c <= s * s && s >= 0.0
    ensures s != 0.0 ==> -1.0 <= c / s <= 1.0
  {
    SquareOrder(c, s);
    SquareOrder(-c, s);
  }

  lemma CovarianceSquares(p: real, q: real, r: real, n: real)
    requires p * p <= q * r && n > 0.0
    ensures (p / n) * (p / n) <= (q / n) * (r / n)
  {
    var k := 1.0 / n;
    assert p / n == p * k && q / n == q * k && r / n == r * k;
    assert (p * k) * (p * k) == (p * p) * (k * k);
    assert (q * k) * (r * k) == (q * r) * (k * k);
    ProductNotNegative(q * r - p * p, k * k);
  }
}
