/** Causality: a calculator on the first `n` values gives the first `n` of its results, so no result
    depends on a later value. The exception is the volume breakout, and its extent is exact. */
module IndicatorCausality {
  import opened Prelude
  import opened Strategy
  import opened Indicators

  // ----- The bases

  lemma RollingPrefix(values: Series, period: nat, reducer: seq<real> -> real, n: nat)
    requires period > 0 && n <= |values|
    ensures Rolling(values[..n], period, reducer) == Rolling(values, period, reducer)[..n]
  {
    forall i | 0 <= i < n
      ensures RollAt(values[..n], period, reducer, i) == RollAt(values, period, reducer, i)
    {
      if i + 1 >= period {
        assert Window(values[..n], period, i) == Window(values, period, i);
      }
    }
  }

  lemma {:induction false} SmoothAtPrefix(values: Series, period: nat, alpha: real, n: nat, index: nat)
    requires 0 < period <= index + 1 <= n <= |values| && AllPresent(values[..period])
    ensures AllPresent(values[..n][..period])
    ensures SmoothAt(values[..n], period, alpha, index) == SmoothAt(values, period, alpha, index)
    decreases index
  {
    hide Blend, Mean;
    assert values[..n][..period] == values[..period];
    if index >= period {
      SmoothAtPrefix(values, period, alpha, n, index - 1);
    }
  }

  lemma SmoothPrefix(values: Series, period: nat, alpha: real, n: nat)
    requires period > 0 && n <= |values|
    ensures Smooth(values[..n], period, alpha) == Smooth(values, period, alpha)[..n]
  {
    if n >= period {
      assert values[..n][..period] == values[..period];
      if AllPresent(values[..period]) {
        forall i | period - 1 <= i < n
          ensures SmoothAt(values[..n], period, alpha, i) == SmoothAt(values, period, alpha, i)
        {
          SmoothAtPrefix(values, period, alpha, n, i);
        }
      }
    }
  }

  // ----- The composites, from the bases

  lemma EmaPrefix(values: Series, period: nat, n: nat)
    requires period > 0 && n <= |values|
    ensures Ema(values[..n], period) == Ema(values, period)[..n]
  {
    SmoothPrefix(values, period, 2.0 / (period + 1) as real, n);
  }

  lemma MacdPrefix(values: Series, fast: nat, slow: nat, n: nat)
    requires 0 < fast < slow && n <= |values|
    ensures Macd(values[..n], fast, slow) == Macd(values, fast, slow)[..n]
  {
    EmaPrefix(values, fast, n);
    EmaPrefix(values, slow, n);
  }

  lemma MacdSignalPrefix(values: Series, fast: nat, slow: nat, signal: nat, n: nat)
    requires 0 < fast < slow && signal > 0 && n <= |values|
    ensures MacdSignal(values[..n], fast, slow, signal) == MacdSignal(values, fast, slow, signal)[..n]
  {
    MacdPrefix(values, fast, slow, n);
    EmaPrefix(Macd(values, fast, slow), signal, n);
  }

  lemma DemaTemaPrefix(values: Series, period: nat, n: nat)
    requires period > 0 && n <= |values|
    ensures Dema(values[..n], period) == Dema(values, period)[..n]
    ensures Tema(values[..n], period) == Tema(values, period)[..n]
  {
    var first := Ema(values, period);
    EmaPrefix(values, period, n);
    EmaPrefix(first, period, n);
    EmaPrefix(Ema(first, period), period, n);
  }

  lemma HmaPrefix(values: Series, period: nat, n: nat)
    requires period > 0 && n <= |values|
    ensures Hma(values[..n], period) == Hma(values, period)[..n]
  {
    RollingPrefix(values, AtLeastOne(period / 2), WeightedMean, n);
    RollingPrefix(values, period, WeightedMean, n);
    assert HmaDifference(values[..n], period) == HmaDifference(values, period)[..n];
    RollingPrefix(HmaDifference(values, period), AtLeastOne(ISqrt(period)), WeightedMean, n);
  }

  lemma GainsPrefix(values: Series, falling: bool, n: nat)
    requires n <= |values|
    ensures Gains(values[..n], falling) == Gains(values, falling)[..n]
  {
    forall i | 0 <= i < n
      ensures GainAt(values[..n], falling, i) == GainAt(values, falling, i)
    {
    }
  }

  lemma RsiPrefix(values: Series, period: nat, how: RsiMethod, n: nat)
    requires period > 0 && n <= |values|
    ensures Rsi(values[..n], period, how) == Rsi(values, period, how)[..n]
  {
    if how.SimpleRsi? {
      RollingPrefix(values, period + 1, RsiWindow, n);
    } else {
      GainsPrefix(values, false, n);
      GainsPrefix(values, true, n);
      var alpha := if how.WilderRsi? then 1.0 / period as real else 2.0 / (period + 1) as real;
      SmoothPrefix(Gains(values, false), period, alpha, n);
      SmoothPrefix(Gains(values, true), period, alpha, n);
    }
  }

  lemma AtrPrefix(highs: Series, lows: Series, closes: Series, period: nat, n: nat)
    requires |highs| == |lows| == |closes| && period > 0 && n <= |closes|
    ensures Atr(highs[..n], lows[..n], closes[..n], period) == Atr(highs, lows, closes, period)[..n]
  {
    assert Ranges(highs[..n], lows[..n], closes[..n]) == Ranges(highs, lows, closes)[..n];
    RollingPrefix(Ranges(highs, lows, closes), period, MeanOf, n);
  }

  lemma AdxPrefix(highs: Series, lows: Series, closes: Series, period: nat, n: nat)
    requires |highs| == |lows| == |closes| && period > 0 && n <= |closes|
    ensures Adx(highs[..n], lows[..n], closes[..n], period) == Adx(highs, lows, closes, period)[..n]
  {
    hide OneSided, TrueRange;
    forall move: Move
      ensures Sma(Moves(highs[..n], lows[..n], closes[..n], move), period)
              == Sma(Moves(highs, lows, closes, move), period)[..n]
    {
      assert Moves(highs[..n], lows[..n], closes[..n], move) == Moves(highs, lows, closes, move)[..n];
      RollingPrefix(Moves(highs, lows, closes, move), period, MeanOf, n);
    }
    var atr, plus, minus := Sma(Moves(highs, lows, closes, RangeMove), period),
        Sma(Moves(highs, lows, closes, PlusMove), period), Sma(Moves(highs, lows, closes, MinusMove), period);
    assert Directional(atr[..n], plus[..n], minus[..n]) == Directional(atr, plus, minus)[..n];
    RollingPrefix(Directional(atr, plus, minus), period, MeanOf, n);
  }

  lemma {:induction false} StreakAtPrefix(values: Series, rising: bool, n: nat, i: nat)
    requires i < n <= |values|
    ensures StreakAt(values[..n], rising, i) == StreakAt(values, rising, i)
  {
    if i > 0 {
      StreakAtPrefix(values, rising, n, i - 1);
    }
  }

  lemma StreaksPrefix(values: Series, rising: bool, n: nat)
    requires n <= |values|
    ensures Streaks(values[..n], rising) == Streaks(values, rising)[..n]
  {
    forall i | 0 <= i < n
      ensures StreakAt(values[..n], rising, i) == StreakAt(values, rising, i)
    {
      StreakAtPrefix(values, rising, n, i);
    }
  }

  // ----- The exception

  /** The one entry of a volume breakout that depends on how long the series is. */
  predicate Undecided(values: Series, period: nat)
    requires period > 0
  {
    period < |values| && AllPresent(values[..period]) && Mean(Numeric(values[..period])) != 0.0
  }

  /** A volume breakout of a prefix is the prefix of the volume breakout, except exactly when the prefix
      is as long as the period and the whole series is longer, with a baseline that is not zero. */
  lemma VolumeBreakoutPrefixIff(values: Series, period: nat, n: nat)
    requires period > 0 && n <= |values|
    ensures VolumeBreakout(values[..n], period) == VolumeBreakout(values, period)[..n]
            <==> !(n == period && Undecided(values, period))
  {
    hide Mean;
    var cut, whole := VolumeBreakout(values[..n], period), VolumeBreakout(values, period);
    forall i | 0 <= i < n && (i != period - 1 || n > period || |values| <= period)
      ensures cut[i] == whole[i]
    {
      if i >= period {
        assert values[..n][i - period..i] == values[i - period..i];
      } else if n > period {
        assert values[..n][..period] == values[..period];
      }
    }
    if n == period < |values| {
      assert cut[n - 1] == None;
      assert values[period - 1] == values[..period][period - 1];
      assert whole[..n][n - 1] == whole[n - 1];
    }
  }

  /** On series of one length the volume breakout reads nothing after its index either. */
  lemma VolumeBreakoutAgrees(a: Series, b: Series, period: nat, n: nat)
    requires period > 0 && n <= |a| && n <= |b| && a[..n] == b[..n]
    requires |a| > period <==> |b| > period
    ensures VolumeBreakout(a, period)[..n] == VolumeBreakout(b, period)[..n]
  {
    hide Mean;
    var cut := a[..n];
    forall i | 0 <= i < n
      ensures VolumeBreakout(a, period)[i] == VolumeBreakout(b, period)[i]
    {
      assert a[i] == cut[i] == b[i];
      if i >= period {
        assert a[i - period..i] == cut[i - period..i] == b[i - period..i];
      } else if i == period - 1 {
        assert a[..period] == cut[..period] == b[..period];
      }
    }
  }

  /** A delayed series is causal, and shows at each index the value some bars before. */
  lemma LagPrefix(values: Series, bars: nat, n: nat)
    requires n <= |values|
    ensures Lag(values[..n], bars) == Lag(values, bars)[..n]
    ensures forall i | 0 <= i < |values| :: Lag(values, bars)[i] == if i < bars then None else values[i - bars]
  {
  }
}
