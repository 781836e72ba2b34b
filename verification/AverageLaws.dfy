/** What the moving averages make of a straight line, of a step and of one changed value: laws that fix their
    weights and the alphas of their smoothing. */
module AverageLaws {
  import opened Prelude
  import opened Strategy
  import opened Indicators

  // ----- Straight lines

  function At(a: real, b: real, i: int): real {
    a + b * i as real
  }

  /** From `start` on the series is there and runs along a straight line of slope `b`. */
  ghost predicate Line(values: Series, start: nat, a: real, b: real) {
    forall i | start <= i < |values| :: values[i] == Some(At(a, b, i))
  }

  predicate LineOf(xs: seq<real>, a: real, b: real) {
    forall k | 0 <= k < |xs| :: xs[k] == At(a, b, k)
  }

  lemma {:induction false} SumOfLine(xs: seq<real>, a: real, b: real)
    requires LineOf(xs, a, b)
    ensures 2.0 * Sum(xs) == (|xs| as real) * (2.0 * a + b * (|xs| as real - 1.0))
  {
    if xs != [] {
      var n := |xs| - 1;
      SumOfLine(xs[..n], a, b);
      LineSumStep(n as real, a, b, Sum(xs[..n]));
    }
  }

  lemma LineSumStep(n: real, a: real, b: real, sum: real)
    requires 2.0 * sum == n * (2.0 * a + b * (n - 1.0))
    ensures 2.0 * (sum + (a + b * n)) == (n + 1.0) * (2.0 * a + b * n)
  {
  }

  lemma {:induction false} WeightedOfLine(xs: seq<real>, a: real, b: real)
    requires LineOf(xs, a, b)
    ensures var n := |xs| as real; 6.0 * Weighted(xs) == n * (n + 1.0) * (3.0 * a + 2.0 * b * (n - 1.0))
  {
    if xs != [] {
      var n := |xs| - 1;
      WeightedOfLine(xs[..n], a, b);
      LineWeightedStep(n as real, a, b, Weighted(xs[..n]));
    }
  }

  lemma LineWeightedStep(n: real, a: real, b: real, sum: real)
    requires 6.0 * sum == n * (n + 1.0) * (3.0 * a + 2.0 * b * (n - 1.0))
    ensures 6.0 * (sum + (a + b * n) * (n + 1.0)) == (n + 1.0) * (n + 2.0) * (3.0 * a + 2.0 * b * n)
  {
  }

  lemma MeanOfLine(xs: seq<real>, a: real, b: real)
    requires LineOf(xs, a, b) && xs != []
    ensures MeanOf(xs) == a + b * (|xs| as real - 1.0) / 2.0
  {
    hide Sum;
    SumOfLine(xs, a, b);
    HalfLine(|xs| as real, a, b, Sum(xs));
  }

  lemma HalfLine(n: real, a: real, b: real, sum: real)
    requires n != 0.0 && 2.0 * sum == n * (2.0 * a + b * (n - 1.0))
    ensures sum / n == a + b * (n - 1.0) / 2.0
  {
    assert (a + b * (n - 1.0) / 2.0) * n == sum;
    SameQuotient(sum, n, a + b * (n - 1.0) / 2.0);
  }

  lemma WeightedMeanOfLine(xs: seq<real>, a: real, b: real)
    requires LineOf(xs, a, b) && xs != []
    ensures WeightedMean(xs) == a + 2.0 * b * (|xs| as real - 1.0) / 3.0
  {
    hide Weighted;
    WeightedOfLine(xs, a, b);
    assert (|xs| * (|xs| + 1)) as real == |xs| as real * (|xs| as real + 1.0);
    ThirdLine(|xs| as real, a, b, Weighted(xs));
  }

  lemma ThirdLine(n: real, a: real, b: real, sum: real)
    requires n > 0.0 && 6.0 * sum == n * (n + 1.0) * (3.0 * a + 2.0 * b * (n - 1.0))
    ensures sum / (n * (n + 1.0) / 2.0) == a + 2.0 * b * (n - 1.0) / 3.0
  {
    var half, q := n * (n + 1.0) / 2.0, a + 2.0 * b * (n - 1.0) / 3.0;
    ProductPositive(n, n + 1.0);
    assert q * half == sum;
    SameQuotient(sum, half, q);
  }

  lemma WindowOfLine(values: Series, start: nat, a: real, b: real, period: nat, i: nat)
    requires Line(values, start, a, b) && period > 0 && start + period <= i + 1 <= |values|
    ensures AllPresent(Window(values, period, i))
    ensures LineOf(Numeric(Window(values, period, i)), At(a, b, i + 1 - period), b)
  {
    forall k | 0 <= k < period
      ensures Window(values, period, i)[k] == Some(At(At(a, b, i + 1 - period), b, k))
    {
      LineShift(a, b, i + 1 - period, k);
    }
  }

  lemma LineShift(a: real, b: real, i: int, k: int)
    ensures At(At(a, b, i), b, k) == At(a, b, i + k)
  {
    assert (i + k) as real == i as real + k as real;
    assert b * (i as real + k as real) == b * i as real + b * k as real;
  }

  /** On a straight line the simple average lags half its length behind, the weighted one a third. */
  lemma SmaLag(values: Series, start: nat, a: real, b: real, period: nat)
    requires Line(values, start, a, b) && period > 0
    ensures Line(Sma(values, period), start + period - 1, a - b * (period as real - 1.0) / 2.0, b)
    ensures Line(Wma(values, period), start + period - 1, a - b * (period as real - 1.0) / 3.0, b)
  {
    hide MeanOf, WeightedMean;
    forall i | start + period - 1 <= i < |values|
      ensures Sma(values, period)[i] == Some(At(a - b * (period as real - 1.0) / 2.0, b, i))
      ensures Wma(values, period)[i] == Some(At(a - b * (period as real - 1.0) / 3.0, b, i))
    {
      WindowOfLine(values, start, a, b, period, i);
      var xs := Numeric(Window(values, period, i));
      MeanOfLine(xs, At(a, b, i + 1 - period), b);
      WeightedMeanOfLine(xs, At(a, b, i + 1 - period), b);
      LagOf(a, b, i, period);
    }
  }

  lemma LagOf(a: real, b: real, i: int, period: nat)
    ensures var c, p := At(a, b, i + 1 - period), period as real;
            && c + b * (p - 1.0) / 2.0 == At(a - b * (p - 1.0) / 2.0, b, i)
            && c + 2.0 * b * (p - 1.0) / 3.0 == At(a - b * (p - 1.0) / 3.0, b, i)
  {
    var p := period as real;
    assert (i + 1 - period) as real == i as real - (p - 1.0);
    assert b * (i as real - (p - 1.0)) == b * i as real - b * (p - 1.0);
  }

  // ----- Recursive smoothing of a line

  /** `x` to the power of `n`. */
  function Power(x: real, n: nat): real {
    if n == 0 then 1.0 else x * Power(x, n - 1)
  }

  /** How far a smoothing of a line is behind it after `n` steps: it starts half a period behind, and goes
      geometrically to where it stays. */
  function Behind(b: real, period: nat, alpha: real, n: nat): real
    requires alpha != 0.0
  {
    var rest := (1.0 - alpha) / alpha;
    b * rest + b * ((period as real - 1.0) / 2.0 - rest) * Power(1.0 - alpha, n)
  }

  lemma BehindStep(b: real, period: nat, alpha: real, n: nat, line: real)
    requires alpha != 0.0
    ensures Blend(line - Behind(b, period, alpha, n), line + b, alpha) == line + b - Behind(b, period, alpha, n + 1)
  {
    var rest, power := (1.0 - alpha) / alpha, Power(1.0 - alpha, n);
    assert rest * alpha == 1.0 - alpha;
    assert Power(1.0 - alpha, n + 1) == (1.0 - alpha) * power;
    BehindAlgebra(b, rest, alpha, (period as real - 1.0) / 2.0 - rest, power, line);
  }

  lemma BehindAlgebra(b: real, rest: real, alpha: real, c: real, power: real, line: real)
    requires rest * alpha == 1.0 - alpha
    ensures Blend(line - (b * rest + b * c * power), line + b, alpha)
         == line + b - (b * rest + b * c * ((1.0 - alpha) * power))
  {
    var x := b * c * power;
    assert b * c * ((1.0 - alpha) * power) == (1.0 - alpha) * x;
    assert alpha * (b + b * rest + x) == alpha * b + b * (rest * alpha) + alpha * x;
  }

  lemma {:induction false} SmoothOfLine(values: Series, a: real, b: real, period: nat, alpha: real, i: nat)
    requires Line(values, 0, a, b) && 0 < period <= i + 1 <= |values| && alpha != 0.0
    ensures AllPresent(values[..period])
    ensures SmoothAt(values, period, alpha, i) == Some(At(a, b, i) - Behind(b, period, alpha, i + 1 - period))
    decreases i
  {
    hide Blend, Behind, At;
    if i == period - 1 {
      assert Numeric(values[..period]) == Numeric(Window(values, period, i));
      WindowOfLine(values, 0, a, b, period, i);
      SeedOfLine(Numeric(values[..period]), a, b, period, alpha);
    } else {
      SmoothOfLine(values, a, b, period, alpha, i - 1);
      BehindStep(b, period, alpha, i - period, At(a, b, i - 1));
      NextAt(a, b, i);
    }
  }

  lemma NextAt(a: real, b: real, i: int)
    ensures At(a, b, i - 1) + b == At(a, b, i)
  {
    assert (i - 1) as real == i as real - 1.0;
  }

  lemma SeedOfLine(xs: seq<real>, a: real, b: real, period: nat, alpha: real)
    requires |xs| == period > 0 && LineOf(xs, At(a, b, 0), b) && alpha != 0.0
    ensures Mean(xs) == At(a, b, period - 1) - Behind(b, period, alpha, 0)
  {
    hide Mean;
    MeanOfLine(xs, At(a, b, 0), b);
    assert MeanOf(xs) == Mean(xs);
    LagOf(a, b, period - 1, period);
    var rest := (1.0 - alpha) / alpha;
    assert b * rest + b * ((period as real - 1.0) / 2.0 - rest) == b * (period as real - 1.0) / 2.0;
    assert Power(1.0 - alpha, 0) == 1.0;
    assert Behind(b, period, alpha, 0) == b * (period as real - 1.0) / 2.0;
  }

  /** On a straight line the EMA is half its period behind from its first value on. */
  lemma EmaLag(values: Series, a: real, b: real, period: nat)
    requires Line(values, 0, a, b) && period > 0
    ensures Line(Ema(values, period), period - 1, a - b * (period as real - 1.0) / 2.0, b)
  {
    hide SmoothAt, Behind, At, Power;
    var alpha, lag := 2.0 / (period + 1) as real, b * (period as real - 1.0) / 2.0;
    assert alpha * (period as real + 1.0) == 2.0;
    forall i | period - 1 <= i < |values|
      ensures Ema(values, period)[i] == Some(At(a - lag, b, i))
    {
      SmoothOfLine(values, a, b, period, alpha, i);
      EmaBehind(b, period, alpha, i + 1 - period);
      AtLess(a, b, lag, i);
    }
  }

  lemma AtLess(a: real, b: real, lag: real, i: int)
    ensures At(a, b, i) - lag == At(a - lag, b, i)
  {
  }

  lemma EmaBehind(b: real, period: nat, alpha: real, n: nat)
    requires alpha * (period as real + 1.0) == 2.0
    ensures alpha != 0.0 && Behind(b, period, alpha, n) == b * (period as real - 1.0) / 2.0
  {
    var p := period as real;
    assert (p - 1.0) / 2.0 * alpha == 1.0 - alpha;
    SameQuotient(1.0 - alpha, alpha, (p - 1.0) / 2.0);
    assert (1.0 - alpha) / alpha == (p - 1.0) / 2.0;
  }

  function WilderGap(b: real, period: nat, n: nat): real
    requires period > 0
  {
    var p := period as real;
    b * (p - 1.0) * (1.0 - Power(1.0 - 1.0 / p, n) / 2.0)
  }

  /** Wilder's average starts half its period behind a straight line and goes to a whole period less one; the
      difference shrinks by the factor 1 - 1 / period at every bar. */
  lemma WilderLag(values: Series, a: real, b: real, period: nat, i: nat)
    requires Line(values, 0, a, b) && 0 < period <= i + 1 <= |values|
    ensures Wilder(values, period)[i] == Some(At(a, b, i) - WilderGap(b, period, i + 1 - period))
  {
    hide SmoothAt, Behind, At, WilderGap, Line;
    WilderBehind(b, period, i + 1 - period);
    SmoothOfLine(values, a, b, period, 1.0 / period as real, i);
    WilderIsSmooth(values, period, i);
  }

  lemma WilderIsSmooth(values: Series, period: nat, i: nat)
    requires 0 < period <= i + 1 <= |values| && AllPresent(values[..period])
    ensures Wilder(values, period)[i] == SmoothAt(values, period, 1.0 / period as real, i)
  {
    hide SmoothAt;
  }

  lemma WilderBehind(b: real, period: nat, n: nat)
    requires period > 0
    ensures var p := period as real;
            1.0 / p != 0.0 && Behind(b, period, 1.0 / p, n) == WilderGap(b, period, n)
  {
    var p := period as real;
    var alpha := 1.0 / p;
    assert alpha * p == 1.0;
    assert (p - 1.0) * alpha == 1.0 - alpha;
    SameQuotient(1.0 - alpha, alpha, p - 1.0);
    var power := Power(1.0 - alpha, n);
    assert b * (p - 1.0) + b * ((p - 1.0) / 2.0 - (p - 1.0)) * power == b * (p - 1.0) * (1.0 - power / 2.0);
  }

  // ----- Combinations

  lemma LiftOfLines(x: Series, y: Series, f: (real, real) -> Option<real>, start: nat, a: real, c: real, e: real,
                    b: real, d: real, h: real)
    requires |x| == |y| && Line(x, start, a, b) && Line(y, start, c, d)
    requires forall i: int :: f(At(a, b, i), At(c, d, i)) == Some(At(e, h, i))
    ensures Line(Lift(x, y, f), start, e, h)
  {
    hide At;
  }

  lemma LineLater(values: Series, start: nat, later: nat, a: real, b: real)
    requires Line(values, start, a, b) && start <= later
    ensures Line(values, later, a, b)
  {
  }

  /** On a straight line the MACD is half the difference of its periods times the slope: positive exactly when
      the values rise. */
  lemma MacdOfLine(values: Series, a: real, b: real, fast: nat, slow: nat)
    requires Line(values, 0, a, b) && 0 < fast < slow
    ensures Line(Macd(values, fast, slow), slow - 1, b * (slow as real - fast as real) / 2.0, 0.0)
  {
    hide Ema;
    EmaLag(values, a, b, fast);
    EmaLag(values, a, b, slow);
    var f, s := a - b * (fast as real - 1.0) / 2.0, a - b * (slow as real - 1.0) / 2.0;
    LineLater(Ema(values, fast), fast - 1, slow - 1, f, b);
    var g := (x: real, y: real) => Some(x - y);
    forall i: int
      ensures g(At(f, b, i), At(s, b, i)) == Some(At(b * (slow as real - fast as real) / 2.0, 0.0, i))
    {
    }
    LiftOfLines(Ema(values, fast), Ema(values, slow), g, slow - 1, f, s, b * (slow as real - fast as real) / 2.0,
                b, b, 0.0);
  }

  /** On a straight line the HMA is behind by what its last average lags and less what its first two gain. */
  lemma HmaOfLine(values: Series, a: real, b: real, period: nat)
    requires Line(values, 0, a, b) && period > 0
    ensures var half, root := AtLeastOne(period / 2), AtLeastOne(ISqrt(period));
            Line(Hma(values, period), period + root - 2,
                 a - b * (2.0 * (half as real - 1.0) - (period as real - 1.0) + (root as real - 1.0)) / 3.0, b)
  {
    hide Wma, ISqrt, At, AtLeastOne, Line, HmaDifference;
    var half, root := AtLeastOne(period / 2), AtLeastOne(ISqrt(period));
    HalfShorter(period);
    var z := 2.0 * (a - b * (half as real - 1.0) / 3.0) - (a - b * (period as real - 1.0) / 3.0);
    HmaDifferenceOfLine(values, a, b, period, half);
    SmaLag(HmaDifference(values, period), period - 1, z, b, root);
    HmaLag(a, b, half as real - 1.0, period as real - 1.0, root as real - 1.0);
  }

  lemma HalfShorter(period: nat)
    requires period > 0
    ensures 0 < AtLeastOne(period / 2) <= period
  {
  }

  lemma HmaDifferenceOfLine(values: Series, a: real, b: real, period: nat, half: nat)
    requires Line(values, 0, a, b) && 0 < half <= period && half == AtLeastOne(period / 2)
    ensures Line(HmaDifference(values, period), period - 1,
                 2.0 * (a - b * (half as real - 1.0) / 3.0) - (a - b * (period as real - 1.0) / 3.0), b)
  {
    hide Wma, At, AtLeastOne, Line;
    SmaLag(values, 0, a, b, half);
    SmaLag(values, 0, a, b, period);
    var x, y := a - b * (half as real - 1.0) / 3.0, a - b * (period as real - 1.0) / 3.0;
    LineLater(Wma(values, half), half - 1, period - 1, x, b);
    TwiceLessOfLines(Wma(values, half), Wma(values, period), period - 1, x, y, b);
    HmaIsLift(values, period, (u: real, v: real) => Some(2.0 * u - v));
  }

  lemma TwiceLessOfLines(first: Series, second: Series, start: nat, x: real, y: real, b: real)
    requires |first| == |second| && Line(first, start, x, b) && Line(second, start, y, b)
    ensures Line(Lift(first, second, (u: real, v: real) => Some(2.0 * u - v)), start, 2.0 * x - y, b)
  {
    hide At;
    var lifted := Lift(first, second, (u: real, v: real) => Some(2.0 * u - v));
    forall i | start <= i < |lifted|
      ensures lifted[i] == Some(At(2.0 * x - y, b, i))
    {
      TwiceLess(x, y, b, i);
    }
  }

  lemma TwiceLess(x: real, y: real, b: real, i: int)
    ensures 2.0 * At(x, b, i) - At(y, b, i) == At(2.0 * x - y, b, i)
  {
  }

  lemma HmaIsLift(values: Series, period: nat, f: (real, real) -> Option<real>)
    requires period > 0 && forall u, v :: f(u, v) == Some(2.0 * u - v)
    ensures HmaDifference(values, period) == Lift(Wma(values, AtLeastOne(period / 2)), Wma(values, period), f)
  {
    hide Wma;
  }

  lemma HmaLag(a: real, b: real, half: real, period: real, root: real)
    ensures 2.0 * (a - b * half / 3.0) - (a - b * period / 3.0) - b * root / 3.0
         == a - b * (2.0 * half - period + root) / 3.0
  {
  }

  lemma {:induction false} SmoothOfOne(values: Series, i: nat)
    requires i < |values| && values[0].Some?
    ensures SmoothAt(values, 1, 1.0, i) == values[i]
  {
    if i > 0 {
      SmoothOfOne(values, i - 1);
    } else {
      assert Numeric(values[..1]) == [] + [values[0].value];
      SumSnoc([], values[0].value);
    }
  }

  /** Of period one the EMA, the DEMA and the TEMA are the values; of any other period the two latter are never
      defined. */
  lemma PeriodOne(values: Series)
    requires values != [] && values[0].Some?
    ensures Ema(values, 1) == values && Dema(values, 1) == values && Tema(values, 1) == values
  {
    hide SmoothAt;
    forall i | 0 <= i < |values|
      ensures SmoothAt(values, 1, 1.0, i) == values[i]
    {
      SmoothOfOne(values, i);
    }
    assert 2.0 / (1 + 1) as real == 1.0;
    assert Ema(values, 1) == values;
    hide Ema;
    assert Dema(values, 1) == values;
    assert Tema(values, 1) == values;
  }

  // ----- One value changed

  /** A newer value weighs more: changing the value at position `k` of a window moves the weighted mean by `k + 1`
      parts of all the weights, and the simple mean by one part of the length. */
  lemma {:induction false} WeightedChange(xs: seq<real>, k: nat, x: real)
    requires k < |xs|
    ensures Weighted(xs[k := x]) == Weighted(xs) + (x - xs[k]) * (k as real + 1.0)
    ensures Sum(xs[k := x]) == Sum(xs) + (x - xs[k])
    decreases |xs|
  {
    var n := |xs| - 1;
    if k < n {
      WeightedChange(xs[..n], k, x);
      assert xs[k := x][..n] == xs[..n][k := x];
    } else {
      assert xs[k := x][..n] == xs[..n];
    }
  }

  /** The EMA and Wilder's average go geometrically to a value that stays: of the difference at bar `i` the share
      1 - alpha, to the power of the bars since, is left. */
  lemma {:induction false} SmoothOfStep(values: Series, period: nat, alpha: real, i: nat, j: nat, x: real)
    requires 0 < period <= i + 1 && i <= j < |values| && AllPresent(values[..period])
    requires forall k | i < k <= j :: values[k] == Some(x)
    requires SmoothAt(values, period, alpha, i).Some?
    ensures SmoothAt(values, period, alpha, j) == Some(Left(x, SmoothAt(values, period, alpha, i).value, alpha, j - i))
    decreases j
  {
    hide Blend, Left;
    if i < j {
      SmoothOfStep(values, period, alpha, i, j - 1, x);
      LeftStep(x, SmoothAt(values, period, alpha, i).value, alpha, j - i);
    } else {
      LeftStart(x, SmoothAt(values, period, alpha, i).value, alpha);
    }
  }

  /** What a smoothing is, `n` bars after it was `before`, when the values are `x`. */
  function Left(x: real, before: real, alpha: real, n: nat): real {
    x + Power(1.0 - alpha, n) * (before - x)
  }

  lemma LeftStart(x: real, before: real, alpha: real)
    ensures Left(x, before, alpha, 0) == before
  {
  }

  lemma LeftStep(x: real, before: real, alpha: real, n: nat)
    requires n > 0
    ensures Blend(Left(x, before, alpha, n - 1), x, alpha) == Left(x, before, alpha, n)
  {
    StepShrinks(x, Power(1.0 - alpha, n - 1), before - x, alpha, Power(1.0 - alpha, n));
  }

  lemma StepShrinks(x: real, power: real, gap: real, alpha: real, next: real)
    requires next == (1.0 - alpha) * power
    ensures Blend(x + power * gap, x, alpha) == x + next * gap
  {
    assert next * gap == (1.0 - alpha) * (power * gap);
  }
}
