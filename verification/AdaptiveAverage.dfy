/** `_kama` of core/features/calculators.py, whose efficiency can exceed one. */
module AdaptiveAverage {
  import opened Prelude
  import opened Strategy
  import opened Indicators

  /** The path length inside a window: one step less than the move it is compared with. */
  function Path(xs: seq<real>): real {
    if |xs| <= 1 then 0.0 else Path(xs[..|xs| - 1]) + Abs(xs[|xs| - 1] - xs[|xs| - 2])
  }

  function Efficiency(move: real, volatility: real): real {
    if volatility == 0.0 then 0.0 else Abs(move) / volatility
  }

  const FAST: real := 2.0 / 3.0
  const SLOW: real := 2.0 / 31.0

  function Smoothing(efficiency: real): real {
    var s := efficiency * (FAST - SLOW) + SLOW;
    s * s
  }

  predicate Ready(values: Series, period: nat, index: nat)
    requires 0 < period <= index < |values|
  {
    values[index - period].Some? && AllPresent(Window(values, period, index))
  }

  /** The smoothing at an index. */
  function SmoothingAt(values: Series, period: nat, index: nat): real
    requires 0 < period <= index < |values| && Ready(values, period, index)
  {
    var window := Window(values, period, index);
    Smoothing(Efficiency(window[period - 1].value - values[index - period].value, Path(Numeric(window))))
  }

  /** The running value after `index`: indices that are not ready leave it as it is. */
  function Running(values: Series, period: nat, index: nat): real
    requires 0 < period <= index + 1 <= |values| && AllPresent(values[..period])
    decreases index
  {
    if index == period - 1 then values[..period][index].value
    else
      var previous := Running(values, period, index - 1);
      if Ready(values, period, index)
      then Blend(previous, Window(values, period, index)[period - 1].value, SmoothingAt(values, period, index))
      else previous
  }

  /** A series shorter than the period, unless it misses a value, is an error: the source reads a window
      that is cut short and then writes behind the end of the result. */
  function Kama(values: Series, period: nat): (r: Result<Series, RuleError>)
    requires period > 0
    ensures r.Ok? ==> |r.value| == |values|
  {
    if |values| < period then if AllPresent(values) then Err(IndexOutOfRange) else Ok(Nothing(|values|))
    else if !AllPresent(values[..period]) then Ok(Nothing(|values|))
    else
      Ok(seq(|values|, i requires 0 <= i < |values| =>
        if i + 1 < period || (i >= period && !Ready(values, period, i)) then None
            else Some(Running(values, period, i))))
  }

  /** `_kama`. */
  method KamaLoop(values: Series, period: nat) returns (r: Result<Series, RuleError>)
    requires period > 0
    ensures r == Kama(values, period)
  {
    hide Smoothing, Path, Blend;
    var result := Nothing(|values|);
    var initial := if |values| < period then values else values[..period];
    if !AllPresent(initial) {
      return Ok(result);
    }
    if |values| < period {
      return Err(IndexOutOfRange);
    }
    var current := initial[period - 1].value;
    result := result[period - 1 := Some(current)];
    for index := period to |values|
      invariant |result| == |values| && current == Running(values, period, index - 1)
      invariant forall i | 0 <= i < |values| ::
                  result[i] == if i + 1 < period || i >= index || (i >= period && !Ready(values, period, i)) then None
                               else Some(Running(values, period, i))
    {
      if Ready(values, period, index) {
        current := Blend(current, Window(values, period, index)[period - 1].value, SmoothingAt(values, period, index));
        result := result[index := Some(current)];
      }
    }
    assert result == Kama(values, period).value;
    return Ok(result);
  }

  // ----- Causality

  lemma {:induction false} RunningPrefix(values: Series, period: nat, n: nat, index: nat)
    requires 0 < period <= index + 1 <= n <= |values| && AllPresent(values[..period])
    ensures AllPresent(values[..n][..period])
    ensures Running(values[..n], period, index) == Running(values, period, index)
    ensures index >= period ==> (Ready(values[..n], period, index) <==> Ready(values, period, index))
    decreases index
  {
    hide Blend, Smoothing, Path;
    assert values[..n][..period] == values[..period];
    if index >= period {
      assert Window(values[..n], period, index) == Window(values, period, index);
      RunningPrefix(values, period, n, index - 1);
    }
  }

  lemma KamaLongPrefix(values: Series, period: nat, n: nat)
    requires 0 < period <= n <= |values|
    ensures Kama(values[..n], period) == Ok(Kama(values, period).value[..n])
  {
    hide Running, Ready;
    assert values[..n][..period] == values[..period];
    if AllPresent(values[..period]) {
      forall i | period - 1 <= i < n
        ensures Kama(values[..n], period).value[i] == Kama(values, period).value[i]
      {
        RunningPrefix(values, period, n, i);
      }
      assert Kama(values[..n], period).value == Kama(values, period).value[..n];
    } else {
      assert Nothing(n) == Nothing(|values|)[..n];
    }
  }

  /** The KAMA of a prefix is the prefix of the KAMA unless the prefix is complete and shorter than the
      period: there it raises. */
  lemma KamaPrefixIff(values: Series, period: nat, n: nat)
    requires period > 0 && n <= |values| && Kama(values, period).Ok?
    ensures Kama(values[..n], period) == Ok(Kama(values, period).value[..n])
            <==> n >= period || !AllPresent(values[..n])
  {
    hide Running, Ready;
    if n >= period {
      KamaLongPrefix(values, period, n);
    } else {
      assert Nothing(n) == Nothing(|values|)[..n];
      if |values| >= period {
        assert values[..n] == values[..period][..n];
      }
    }
  }

  /** On data that are long enough the KAMA reads nothing after its index. */
  lemma KamaAgrees(a: Series, b: Series, period: nat, n: nat)
    requires 0 < period <= |a| && period <= |b| && n <= |a| && n <= |b| && a[..n] == b[..n]
    ensures Kama(a, period).Ok? && Kama(b, period).Ok? && Kama(a, period).value[..n] == Kama(b, period).value[..n]
  {
    hide Running, Ready;
    if n >= period {
      KamaLongPrefix(a, period, n);
      KamaLongPrefix(b, period, n);
    }
  }

  /** Where the average has a value: at the end of its first window, if that is complete, and from then on wherever
      the window and the value before it are. */
  lemma KamaDefinedIff(values: Series, period: nat, i: nat)
    requires 0 < period <= |values| && i < |values|
    ensures Kama(values, period).Ok?
    ensures Kama(values, period).value[i].Some? <==>
              && i + 1 >= period
              && (forall k | 0 <= k < period :: values[k].Some?)
              && (i >= period ==> forall k | i - period <= k <= i :: values[k].Some?)
  {
    hide Running;
    assert AllPresent(values[..period]) <==> forall k | 0 <= k < period :: values[k].Some? by {
      assert forall k | 0 <= k < period :: values[..period][k] == values[k];
    }
    if i >= period {
      var window := Window(values, period, i);
      assert forall k | i - period < k <= i :: window[k - (i + 1 - period)] == values[k];
    }
  }

  /** The length of so many steps of a size. */
  function Steps(n: nat, size: real): real {
    n as real * size
  }

  lemma {:induction false} PathOfLine(xs: seq<real>, b: real)
    requires xs != [] && forall k | 0 < k < |xs| :: xs[k] - xs[k - 1] == b
    ensures Path(xs) == Steps(|xs| - 1, Abs(b))
  {
    hide Steps;
    var n := |xs| - 1;
    if n > 0 {
      PathOfLine(xs[..n], b);
      OneMoreStep(n, Abs(b));
    } else {
      NoSteps(Abs(b));
    }
  }

  lemma NoSteps(size: real)
    ensures Steps(0, size) == 0.0
  {
  }

  lemma OneMoreStep(n: nat, size: real)
    requires n > 0
    ensures Steps(n, size) == Steps(n - 1, size) + size
  {
  }

  lemma StepsPositive(n: nat, size: real)
    requires n > 0 && size > 0.0
    ensures Steps(n, size) > 0.0
  {
    ProductPositive(n as real, size);
  }

  /** The efficiency is how often the path goes into the move. */
  lemma EfficiencyIs(move: real, volatility: real)
    requires volatility > 0.0
    ensures Efficiency(move, volatility) * volatility == Abs(move)
    ensures Efficiency(move, volatility) >= 0.0
  {
    var q := Abs(move) / volatility;
    assert q * volatility == Abs(move);
    if q < 0.0 {
      ProductPositive(-q, volatility);
    }
  }

  /** On a straight line that is not flat the efficiency is the period over one less, whatever the slope: always
      above one. */
  lemma EfficiencyOfLine(xs: seq<real>, before: real, b: real)
    requires |xs| > 1 && b != 0.0 && xs[0] - before == b
    requires forall k | 0 < k < |xs| :: xs[k] - xs[k - 1] == b
    ensures Efficiency(xs[|xs| - 1] - before, Path(xs)) * (|xs| as real - 1.0) == |xs| as real
  {
    hide Efficiency, Path;
    var n, size := |xs| as real, Abs(b);
    PathOfLine(xs, b);
    MoveOfLine(xs, before, b);
    StepsPositive(|xs| - 1, size);
    EfficiencyIs(xs[|xs| - 1] - before, Path(xs));
    OutOfBoth(Efficiency(xs[|xs| - 1] - before, Path(xs)), n, size, Path(xs));
  }

  lemma {:induction false} MoveOfLine(xs: seq<real>, before: real, b: real)
    requires xs != [] && xs[0] - before == b && forall k | 0 < k < |xs| :: xs[k] - xs[k - 1] == b
    ensures xs[|xs| - 1] - before == |xs| as real * b
    ensures Abs(xs[|xs| - 1] - before) == |xs| as real * Abs(b)
  {
    if |xs| > 1 {
      MoveOfLine(xs[..|xs| - 1], before, b);
    }
    SizeOfMove(|xs| as real, b);
  }

  lemma SizeOfMove(n: real, b: real)
    requires n > 0.0
    ensures Abs(n * b) == n * Abs(b)
  {
    if b < 0.0 {
      ProductPositive(n, -b);
    } else {
      ProductNotNegative(n, b);
    }
  }

  lemma OutOfBoth(e: real, n: real, size: real, path: real)
    requires size > 0.0 && path == (n - 1.0) * size && e * path == n * size
    ensures e * (n - 1.0) == n
  {
    var gap := e * (n - 1.0) - n;
    assert gap * size == 0.0;
    if gap > 0.0 {
      ProductPositive(gap, size);
    } else if gap < 0.0 {
      ProductPositive(-gap, size);
    }
  }

  /** A step ends between the average and the price exactly when the price has not moved from the
      average, or the efficiency is at most 87/56. */
  lemma StepStaysIff(current: real, price: real, efficiency: real)
    requires efficiency >= 0.0
    ensures var next := Blend(current, price, Smoothing(efficiency));
            (current <= next <= price || price <= next <= current) <==> current == price || efficiency <= 87.0 / 56.0
  {
    hide Smoothing, Scaled, Blend;
    var s, d := Smoothing(efficiency), price - current;
    SmoothingIff(efficiency);
    BlendStep(current, price, s);
    if d > 0.0 {
      ScaledWithin(s, d);
    } else if d < 0.0 {
      ScaledWithin(s, -d);
      ScaledNegative(s, d);
    }
  }

  function Scaled(s: real, d: real): real {
    s * d
  }

  lemma BlendStep(current: real, price: real, s: real)
    ensures Blend(current, price, s) == current + Scaled(s, price - current)
    ensures price == current ==> Scaled(s, price - current) == 0.0
  {
  }

  lemma ScaledNegative(s: real, d: real)
    ensures Scaled(s, -d) == -Scaled(s, d)
  {
  }

  lemma ScaledWithin(s: real, d: real)
    requires s >= 0.0 && d > 0.0
    ensures 0.0 <= Scaled(s, d) && (Scaled(s, d) <= d <==> s <= 1.0)
  {
    ProductNotNegative(s, d);
    if s <= 1.0 {
      ProductNotNegative(1.0 - s, d);
    } else {
      assert (s - 1.0) * d > 0.0;
    }
  }

  lemma SmoothingIff(efficiency: real)
    requires efficiency >= 0.0
    ensures Smoothing(efficiency) >= 0.0
    ensures Smoothing(efficiency) <= 1.0 <==> efficiency <= 87.0 / 56.0
  {
    var s := efficiency * (FAST - SLOW) + SLOW;
    assert FAST - SLOW == 56.0 / 93.0;
    assert s >= 0.0 && (s <= 1.0 <==> efficiency <= 87.0 / 56.0);
    if s > 1.0 {
      ScaledWithin(s, s);
    } else {
      ProductNotNegative(1.0 - s, s);
    }
  }

  /** The source's comparison of a move over `period` steps with a path of one step less lets the
      efficiency exceed that: on the prices 1, 11 and 12 an average of period two leaves their range. */
  lemma KamaOvershoots()
    ensures var values := [Some(1.0), Some(11.0), Some(12.0)];
            && Kama(values, 2).Ok? && Kama(values, 2).value[2].Some? && Kama(values, 2).value[2].value > 40.0
  {
    var values := [Some(1.0), Some(11.0), Some(12.0)];
    var window := Window(values, 2, 2);
    assert window == [Some(11.0), Some(12.0)];
    assert AllPresent(values[..2]) && Ready(values, 2, 2);
    assert Numeric(window) == [11.0, 12.0];
    assert [11.0, 12.0][..1] == [11.0];
    assert Path([11.0, 12.0]) == 1.0;
    assert SmoothingAt(values, 2, 2) == Smoothing(11.0);
    assert Running(values, 2, 1) == 11.0;
    assert Smoothing(11.0) > 30.0 by {
      assert 11.0 * (FAST - SLOW) + SLOW > 6.0;
    }
    assert Running(values, 2, 2) == Blend(11.0, 12.0, Smoothing(11.0)) == 11.0 + Smoothing(11.0) * 1.0;
  }
}
