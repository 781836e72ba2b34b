/** What the relative strength index says: which share of the movement was upwards. */
module RelativeStrength {
  import opened Prelude
  import opened Strategy
  import opened Indicators
  import opened IndicatorFacts
  import opened IndicatorLoops

  // ----- The strength of two averages

  /** The strength is the share of the gains in all movement, in percent, and 100 where nothing moves. */
  lemma StrengthShare(gain: real, loss: real)
    requires gain >= 0.0 && loss >= 0.0
    ensures loss != 0.0 ==> 1.0 + gain / loss != 0.0
    ensures 0.0 <= Strength(gain, loss) <= 100.0
    ensures gain + loss > 0.0 ==> Strength(gain, loss) * (gain + loss) == 100.0 * gain
    ensures Strength(gain, loss) == 100.0 <==> loss == 0.0
    ensures Strength(gain, loss) == 0.0 <==> gain == 0.0 && loss > 0.0
  {
    StrengthDefined(gain, loss);
    StrengthWithin(gain, loss);
    if loss > 0.0 {
      var q := gain / loss;
      assert q * loss == gain;
      var d := 100.0 / (1.0 + q);
      assert d * (1.0 + q) == 100.0;
      ShareOf(gain, loss, q, d);
    }
  }

  lemma ShareOf(gain: real, loss: real, q: real, d: real)
    requires q * loss == gain && d * (1.0 + q) == 100.0
    ensures (100.0 - d) * (gain + loss) == 100.0 * gain
  {
    assert d * (gain + loss) == d * (q * loss + loss) == d * (1.0 + q) * loss == 100.0 * loss;
  }

  /** More gain and less loss never lower it. */
  lemma StrengthRises(gain: real, loss: real, moreGain: real, lessLoss: real)
    requires 0.0 <= gain <= moreGain && 0.0 <= lessLoss <= loss
    ensures loss != 0.0 ==> 1.0 + gain / loss != 0.0
    ensures lessLoss != 0.0 ==> 1.0 + moreGain / lessLoss != 0.0
    ensures Strength(gain, loss) <= Strength(moreGain, lessLoss)
  {
    hide Strength;
    StrengthShare(gain, loss);
    StrengthShare(moreGain, lessLoss);
    if lessLoss > 0.0 {
      SharesRise(gain, loss, moreGain, lessLoss, Strength(gain, loss), Strength(moreGain, lessLoss));
    }
  }

  lemma SharesRise(gain: real, loss: real, moreGain: real, lessLoss: real, s: real, t: real)
    requires 0.0 <= gain <= moreGain && 0.0 < lessLoss <= loss && 0.0 <= s <= 100.0
    requires s * (gain + loss) == 100.0 * gain && t * (moreGain + lessLoss) == 100.0 * moreGain
    ensures s <= t
  {
    ProductNotNegative(100.0 - s, moreGain - gain);
    ProductNotNegative(s, loss - lessLoss);
    var total := moreGain + lessLoss;
    assert (t - s) * total == (100.0 - s) * (moreGain - gain) + s * (loss - lessLoss) >= 0.0;
    if t < s {
      ProductPositive(s - t, total);
    }
  }

  // ----- The simple form

  lemma {:induction false} SumOrder(xs: seq<real>, ys: seq<real>)
    requires |xs| == |ys| && forall i | 0 <= i < |xs| :: xs[i] <= ys[i]
    ensures Sum(xs) <= Sum(ys)
  {
    if xs != [] {
      SumOrder(xs[..|xs| - 1], ys[..|ys| - 1]);
    }
  }

  lemma {:induction false} SumZeroIff(xs: seq<real>)
    requires forall i | 0 <= i < |xs| :: xs[i] >= 0.0
    ensures Sum(xs) >= 0.0
    ensures Sum(xs) == 0.0 <==> forall i | 0 <= i < |xs| :: xs[i] == 0.0
  {
    if xs != [] {
      SumZeroIff(xs[..|xs| - 1]);
    }
  }

  lemma MeanOrder(xs: seq<real>, ys: seq<real>)
    requires |xs| == |ys| && forall i | 0 <= i < |xs| :: xs[i] <= ys[i]
    ensures MeanOf(xs) <= MeanOf(ys)
  {
    SumOrder(xs, ys);
    if xs != [] {
      QuotientOrder(Sum(xs), Sum(ys), |xs| as real);
    }
  }

  lemma QuotientOrder(a: real, b: real, n: real)
    requires a <= b && n > 0.0
    ensures a / n <= b / n
  {
  }

  lemma MeanZeroIff(xs: seq<real>)
    requires forall i | 0 <= i < |xs| :: xs[i] >= 0.0
    ensures MeanOf(xs) >= 0.0
    ensures MeanOf(xs) == 0.0 <==> forall i | 0 <= i < |xs| :: xs[i] == 0.0
  {
    SumZeroIff(xs);
    if xs != [] {
      var m := Sum(xs) / (|xs| as real);
      assert m * (|xs| as real) == Sum(xs);
      if m < 0.0 {
        ProductPositive(-m, |xs| as real);
      }
    }
  }

  predicate Falls(xs: seq<real>) {
    exists i | 0 <= i < |xs| - 1 :: xs[i + 1] < xs[i]
  }

  predicate Rises(xs: seq<real>) {
    exists i | 0 <= i < |xs| - 1 :: xs[i + 1] > xs[i]
  }

  lemma MovesZeroIff(xs: seq<real>)
    ensures (forall i | 0 <= i < |RisesOf(xs)| :: RisesOf(xs)[i] == 0.0) <==> !Rises(xs)
    ensures (forall i | 0 <= i < |FallsOf(xs)| :: FallsOf(xs)[i] == 0.0) <==> !Falls(xs)
  {
    assert forall i | 0 <= i < |xs| - 1 :: (RisesOf(xs)[i] == 0.0 <==> !(xs[i + 1] > xs[i]));
    assert forall i | 0 <= i < |xs| - 1 :: (FallsOf(xs)[i] == 0.0 <==> !(xs[i + 1] < xs[i]));
  }

  /** The index of a window is 100 if and only if nothing falls in it, 0 if and only if something falls and
      nothing rises, and always between. */
  lemma WindowIff(xs: seq<real>)
    ensures RsiWindow(xs) == 100.0 <==> !Falls(xs)
    ensures RsiWindow(xs) == 0.0 <==> Falls(xs) && !Rises(xs)
    ensures 0.0 <= RsiWindow(xs) <= 100.0
  {
    hide Strength, MeanOf, Falls, Rises, RisesOf, FallsOf, Max;
    MeansZeroIff(xs);
    StrengthShare(MeanOf(RisesOf(xs)), MeanOf(FallsOf(xs)));
  }

  lemma MeansZeroIff(xs: seq<real>)
    ensures MeanOf(RisesOf(xs)) >= 0.0 && MeanOf(FallsOf(xs)) >= 0.0
    ensures MeanOf(RisesOf(xs)) == 0.0 <==> !Rises(xs)
    ensures MeanOf(FallsOf(xs)) == 0.0 <==> !Falls(xs)
  {
    hide MeanOf, Falls, Rises;
    MovesZeroIff(xs);
    MeanZeroIff(RisesOf(xs));
    MeanZeroIff(FallsOf(xs));
  }

  /** Raising the last price of a window never lowers its index. */
  lemma RaisingLast(xs: seq<real>, price: real)
    requires xs != [] && price >= xs[|xs| - 1]
    ensures RsiWindow(xs[|xs| - 1 := price]) >= RsiWindow(xs)
  {
    hide Strength, MeanOf;
    var ys := xs[|xs| - 1 := price];
    MeanOrder(RisesOf(xs), RisesOf(ys));
    MeanOrder(FallsOf(ys), FallsOf(xs));
    MeanNonNegative(RisesOf(xs));
    MeanNonNegative(FallsOf(ys));
    StrengthRises(MeanOf(RisesOf(xs)), MeanOf(FallsOf(xs)), MeanOf(RisesOf(ys)), MeanOf(FallsOf(ys)));
  }

  /** On a whole series: a higher price at a bar never lowers the index there. */
  lemma RaisingPrice(values: Series, period: nat, i: nat, price: real)
    requires period > 0 && i < |values| && values[i].Some? && price >= values[i].value
    ensures var before, after := Rsi(values, period, SimpleRsi)[i], Rsi(values[i := Some(price)], period, SimpleRsi)[i];
            && (before.Some? <==> after.Some?)
            && (before.Some? ==> after.value >= before.value)
  {
    hide RsiWindow;
    if i >= period {
      var window, other := Window(values, period + 1, i), Window(values[i := Some(price)], period + 1, i);
      assert other == window[period := Some(price)];
      if AllPresent(window) {
        assert Numeric(other) == Numeric(window)[period := price];
        RaisingLast(Numeric(window), price);
      } else {
        var k :| 0 <= k < |window| && window[k].None?;
        assert other[k].None?;
      }
    }
  }

  /** The change into a bar is its gain less its loss, of which at most one is not zero; the first bar, and one at
      or after a missing value, has neither. */
  lemma GainsSplit(values: Series, i: nat)
    requires i < |values|
    ensures var gain, loss := Gains(values, false)[i], Gains(values, true)[i];
            if i == 0 || values[i].None? || values[i - 1].None? then gain == None && loss == None
            else
              && gain.Some? && loss.Some? && gain.value >= 0.0 && loss.value >= 0.0
              && gain.value - loss.value == values[i].value - values[i - 1].value
              && (gain.value == 0.0 || loss.value == 0.0)
  {
  }

  /** All rises less all falls is the change over the window. */
  lemma {:induction false} MovesTelescope(xs: seq<real>)
    requires xs != []
    ensures Sum(RisesOf(xs)) - Sum(FallsOf(xs)) == xs[|xs| - 1] - xs[0]
    ensures Sum(RisesOf(xs)) >= 0.0 && Sum(FallsOf(xs)) >= 0.0
  {
    hide Sum, RisesOf, FallsOf;
    var n := |xs| - 1;
    if n > 0 {
      MovesTelescope(xs[..n]);
      MovesSnoc(xs);
      SumSnoc(RisesOf(xs[..n]), Max(0.0, xs[n] - xs[n - 1]));
      SumSnoc(FallsOf(xs[..n]), Max(0.0, xs[n - 1] - xs[n]));
    } else {
      NoMoves(xs);
    }
  }

  lemma NoMoves(xs: seq<real>)
    requires |xs| <= 1
    ensures RisesOf(xs) == [] && FallsOf(xs) == [] && Sum([]) == 0.0
  {
  }

  lemma MovesSnoc(xs: seq<real>)
    requires |xs| >= 2
    ensures var n := |xs| - 1;
            && RisesOf(xs) == RisesOf(xs[..n]) + [Max(0.0, xs[n] - xs[n - 1])]
            && FallsOf(xs) == FallsOf(xs[..n]) + [Max(0.0, xs[n - 1] - xs[n])]
  {
    hide Max;
  }

  lemma MeanRatio(a: seq<real>, b: seq<real>)
    requires |a| == |b|
    ensures MeanOf(a) * (|a| as real) == Sum(a) && MeanOf(b) * (|a| as real) == Sum(b)
  {
  }

  /** The index of a window says how much of its movement was upwards: twice the rises are the whole movement and
      the change over the window. */
  lemma WindowShare(xs: seq<real>)
    requires xs != []
    ensures var rises, falls := Sum(RisesOf(xs)), Sum(FallsOf(xs));
            && rises - falls == xs[|xs| - 1] - xs[0]
            && (rises + falls > 0.0 ==> RsiWindow(xs) * (rises + falls) == 100.0 * rises)
  {
    hide Strength, MeanOf, Sum, RisesOf, FallsOf;
    MovesTelescope(xs);
    var rises, falls := RisesOf(xs), FallsOf(xs);
    MeanRatio(rises, falls);
    MeanNonNegativeOf(xs);
    StrengthShare(MeanOf(rises), MeanOf(falls));
    ShareScaled(MeanOf(rises), MeanOf(falls), |rises| as real, RsiWindow(xs));
  }

  lemma MeanNonNegativeOf(xs: seq<real>)
    ensures MeanOf(RisesOf(xs)) >= 0.0 && MeanOf(FallsOf(xs)) >= 0.0
  {
    MeanNonNegative(RisesOf(xs));
    MeanNonNegative(FallsOf(xs));
  }

  lemma ShareScaled(gain: real, loss: real, n: real, s: real)
    requires gain >= 0.0 && loss >= 0.0 && n >= 0.0
    requires gain + loss > 0.0 ==> s * (gain + loss) == 100.0 * gain
    ensures gain * n + loss * n > 0.0 ==> s * (gain * n + loss * n) == 100.0 * (gain * n)
  {
    assert gain * n + loss * n == (gain + loss) * n;
    if gain + loss > 0.0 {
      assert s * ((gain + loss) * n) == (s * (gain + loss)) * n == 100.0 * gain * n;
    }
  }

  /** The momentum oscillator is the index on a scale from -100 to 100, but 0 where nothing moves. */
  lemma OscillatorIsIndex(xs: seq<real>)
    ensures CmoWindow(xs) == if Rises(xs) || Falls(xs) then 2.0 * RsiWindow(xs) - 100.0 else 0.0
  {
    hide RsiWindow, Sum, RisesOf, FallsOf, Rises, Falls;
    var rises, falls := Sum(RisesOf(xs)), Sum(FallsOf(xs));
    SumsZeroIff(xs);
    if xs == [] {
      NoMoves(xs);
    } else {
      WindowShare(xs);
      if rises + falls > 0.0 {
        OscillatorShare(rises, falls, RsiWindow(xs));
      }
    }
  }

  lemma SumsZeroIff(xs: seq<real>)
    ensures Sum(RisesOf(xs)) >= 0.0 && Sum(FallsOf(xs)) >= 0.0
    ensures Sum(RisesOf(xs)) == 0.0 <==> !Rises(xs)
    ensures Sum(FallsOf(xs)) == 0.0 <==> !Falls(xs)
  {
    hide Sum, Rises, Falls;
    MovesZeroIff(xs);
    SumZeroIff(RisesOf(xs));
    SumZeroIff(FallsOf(xs));
  }

  lemma OscillatorShare(rises: real, falls: real, s: real)
    requires rises + falls > 0.0 && s * (rises + falls) == 100.0 * rises
    ensures 100.0 * (rises - falls) / (rises + falls) == 2.0 * s - 100.0
  {
    var total := rises + falls;
    assert (2.0 * s - 100.0) * total == 100.0 * (rises - falls);
    SameQuotient(100.0 * (rises - falls), total, 2.0 * s - 100.0);
  }
}
