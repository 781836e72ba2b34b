/** A backtest request as a whole: indicators and features are computed from the bars, the rules read
    them, and the one-symbol engine runs on what the rules say. */
module Backtest {
  import opened Prelude
  import opened Strategy
  import opened Market
  import opened Indicators
  import opened IndicatorCausality
  import opened IndicatorFacts
  import opened AdaptiveAverage
  import opened SingleEngine
  import SingleTwoRuns

  /** A calculator with the parameters it takes. The deviation of a window is a square root, which is given
      here as a function; a band is the middle of a window moved by a share of that. */
  datatype Calculator =
    | SmaOf | EmaOf | WmaOf | HmaOf | DemaOf | TemaOf | WilderOf | KamaOf
    | RsiOf(how: RsiMethod)
    | MacdOf(fast: nat, slow: nat)
    | MacdSignalOf(fast: nat, slow: nat, signal: nat)
    | AtrOf | AdxOf | IbsOf
    | DisparityOf | ChangeOf | RateOfChangeOf | MaximumOf | HighRatioOf | RegimeFilterOf
    | VolumeBreakoutOf
    | ConsecutiveOf(rising: bool)
    | BollingerOf(band: seq<real> -> real)
    | VolatilityOf(deviation: seq<real> -> real)

  datatype IndicatorSpec = IndicatorSpec(calculator: Calculator, period: nat)
  {
    /** The schema asks for a positive period; a MACD whose fast period is not the smaller one is
        refused when it is calculated, and a KAMA raises on fewer bars than its period. */
    predicate Calculable(bars: nat) {
      && period > 0
      && (calculator.MacdOf? || calculator.MacdSignalOf? ==> 0 < calculator.fast < calculator.slow)
      && (calculator.MacdSignalOf? ==> calculator.signal > 0)
      && (calculator.KamaOf? ==> period <= bars)
    }
  }

  /** A feature: values supplied with the request, or calculated like an indicator; then delayed. */
  datatype Feature = Supplied(values: Series, lag: nat) | Computed(spec: IndicatorSpec, lag: nat)

  datatype Plan = Plan(
    indicators: map<string, IndicatorSpec>,
    features: map<string, Feature>,
    entry: RuleSet,
    exit: RuleSet,
    regimeFilters: seq<Condition>)
  {
    function AsRules(): Rules {
      Rules(indicators.Keys, features.Keys, entry, exit, regimeFilters)
    }
  }

  datatype BacktestError = CalculationRefused | LengthMismatch | RunFailed(run: RunError)

  datatype Field = OpenField | HighField | LowField | CloseField | VolumeField

  function Read(bar: Bar, field: Field): real {
    match field
    case OpenField => bar.open
    case HighField => bar.high
    case LowField => bar.low
    case CloseField => bar.close
    case VolumeField => bar.volume
  }

  function Column(bars: seq<Bar>, field: Field): (r: Series)
    ensures |r| == |bars|
  {
    seq(|bars|, i requires 0 <= i < |bars| => Some(Read(bars[i], field)))
  }

  /** The engine's `_indicator` on the columns that each calculator takes. */
  function Calculate(spec: IndicatorSpec, bars: seq<Bar>): (r: Series)
    requires spec.Calculable(|bars|)
    ensures |r| == |bars|
  {
    var closes := Column(bars, CloseField);
    match spec.calculator
    case SmaOf => Sma(closes, spec.period)
    case EmaOf => Ema(closes, spec.period)
    case WmaOf => Wma(closes, spec.period)
    case HmaOf => Hma(closes, spec.period)
    case DemaOf => Dema(closes, spec.period)
    case TemaOf => Tema(closes, spec.period)
    case WilderOf => Wilder(closes, spec.period)
    case KamaOf => Kama(closes, spec.period).value
    case RsiOf(how) => Rsi(closes, spec.period, how)
    case MacdOf(fast, slow) => Macd(closes, fast, slow)
    case MacdSignalOf(fast, slow, signal) => MacdSignal(closes, fast, slow, signal)
    case AtrOf => Atr(Column(bars, HighField), Column(bars, LowField), closes, spec.period)
    case AdxOf => Adx(Column(bars, HighField), Column(bars, LowField), closes, spec.period)
    case IbsOf => Ibs(closes, Column(bars, HighField), Column(bars, LowField))
    case DisparityOf => Disparity(closes, spec.period)
    case ChangeOf => PercentChange(closes, spec.period)
    case RateOfChangeOf => Returns(closes, spec.period)
    case MaximumOf => PreviousMaximum(closes, spec.period)
    case HighRatioOf => HighRatio(closes, spec.period)
    case RegimeFilterOf => RegimeFilter(closes, spec.period)
    case VolumeBreakoutOf => VolumeBreakout(Column(bars, VolumeField), spec.period)
    case ConsecutiveOf(rising) => Streaks(closes, rising)
    case BollingerOf(band) => Rolling(closes, spec.period, band)
    case VolatilityOf(deviation) => Rolling(Returns(closes, 1), spec.period, deviation)
  }

  function PriceColumns(bars: seq<Bar>): Values {
    map["open" := Column(bars, OpenField), "high" := Column(bars, HighField), "low" := Column(bars, LowField),
        "close" := Column(bars, CloseField), "volume" := Column(bars, VolumeField)]
  }

  predicate Calculable(plan: Plan, bars: nat) {
    && (forall name | name in plan.indicators :: plan.indicators[name].Calculable(bars))
    && (forall name | name in plan.features && plan.features[name].Computed? ::
        plan.features[name].spec.Calculable(bars))
  }

  predicate LengthsMatch(plan: Plan, bars: nat) {
    forall name | name in plan.features && plan.features[name].Supplied? :: |plan.features[name].values| == bars
  }

  function FeatureSeries(feature: Feature, bars: seq<Bar>): (r: Series)
    requires feature.Computed? ==> feature.spec.Calculable(|bars|)
  {
    Lag(if feature.Supplied? then feature.values else Calculate(feature.spec, bars), feature.lag)
  }

  /** All series of a run. A price field hides an indicator of its name, and a feature hides both. */
  function AllSeries(plan: Plan, bars: seq<Bar>): Values
    requires Calculable(plan, |bars|)
  {
    (map name | name in plan.indicators :: Calculate(plan.indicators[name], bars))
    + PriceColumns(bars)
    + (map name | name in plan.features :: FeatureSeries(plan.features[name], bars))
  }

  function Cells(plan: Plan, bars: seq<Bar>): (r: seq<Cell>)
    requires Calculable(plan, |bars|)
    ensures |r| == |bars| && forall i | 0 <= i < |bars| :: r[i].bar == bars[i]
  {
    var values := AllSeries(plan, bars);
    seq(|bars|, i requires 0 <= i < |bars| =>
      Cell(bars[i], MatchRules(plan.entry, values, i), MatchRules(plan.exit, values, i)))
  }

  ghost predicate ValidBars(bars: seq<Bar>, symbol: string) {
    forall i | 0 <= i < |bars| :: bars[i].Valid() && bars[i].symbol == symbol
  }

  function RunBacktest(t: Terms, plan: Plan, bars: seq<Bar>): Result<Report, BacktestError>
    requires forall i | 0 <= i < |bars| :: bars[i].open > 0.0
  {
    if t.initialCash <= 0.0 || t.stress < 0.0 then Err(RunFailed(InvalidRequest))
    else if !Calculable(plan, |bars|) then Err(CalculationRefused)
    else if !LengthsMatch(plan, |bars|) then Err(LengthMismatch)
    else
      var r := Outcome(t, Cells(plan, bars));
      if r.Err? then Err(RunFailed(r.error)) else Ok(r.value)
  }

  // ----- No look-ahead

  lemma ColumnPrefix(bars: seq<Bar>, field: Field, n: nat)
    requires n <= |bars|
    ensures Column(bars[..n], field) == Column(bars, field)[..n]
  {
  }

  /** Every calculator but the volume breakout commutes with taking a prefix of the bars, the KAMA with one
      that is not shorter than its period. */
  lemma CalculatePrefix(spec: IndicatorSpec, bars: seq<Bar>, n: nat)
    requires spec.Calculable(|bars|) && !spec.calculator.VolumeBreakoutOf? && n <= |bars|
    requires spec.calculator.KamaOf? ==> spec.period <= n
    ensures Calculate(spec, bars[..n]) == Calculate(spec, bars)[..n]
  {
    hide Rolling, Smooth, Lift, Rsi, Atr, Adx, Hma, Dema, Tema, Ranges, Moves, Directional, Greatest, Mean;
    ColumnPrefix(bars, CloseField, n);
    ColumnPrefix(bars, HighField, n);
    ColumnPrefix(bars, LowField, n);
    var closes, highs, lows := Column(bars, CloseField), Column(bars, HighField), Column(bars, LowField);
    var p := spec.period;
    match spec.calculator
    case SmaOf => RollingPrefix(closes, p, MeanOf, n);
    case EmaOf => EmaPrefix(closes, p, n);
    case WmaOf => RollingPrefix(closes, p, WeightedMean, n);
    case HmaOf => HmaPrefix(closes, p, n);
    case DemaOf => DemaTemaPrefix(closes, p, n);
    case TemaOf => DemaTemaPrefix(closes, p, n);
    case WilderOf => SmoothPrefix(closes, p, 1.0 / p as real, n);
    case KamaOf => KamaLongPrefix(closes, p, n);
    case RsiOf(how) => RsiPrefix(closes, p, how, n);
    case MacdOf(fast, slow) => MacdPrefix(closes, fast, slow, n);
    case MacdSignalOf(fast, slow, signal) => MacdSignalPrefix(closes, fast, slow, signal, n);
    case AtrOf => AtrPrefix(highs, lows, closes, p, n);
    case AdxOf => AdxPrefix(highs, lows, closes, p, n);
    case IbsOf =>
    case DisparityOf => DisparityPrefix(closes, p, n);
    case ChangeOf => PercentChangePrefix(closes, p, n);
    case RateOfChangeOf => ReturnsPrefix(closes, p, n);
    case MaximumOf => PreviousMaximumPrefix(closes, p, n);
    case HighRatioOf => HighRatioPrefix(closes, p, n);
    case RegimeFilterOf => RegimeFilterPrefix(closes, p, n);
    case ConsecutiveOf(rising) => StreaksPrefix(closes, rising, n);
    case BollingerOf(band) => RollingPrefix(closes, p, band, n);
    case VolatilityOf(deviation) =>
      ReturnsPrefix(closes, 1, n);
      RollingPrefix(Returns(closes, 1), p, deviation, n);
  }

  lemma DisparityPrefix(values: Series, period: nat, n: nat)
    requires period > 0 && n <= |values|
    ensures Disparity(values[..n], period) == Disparity(values, period)[..n]
  {
    RollingPrefix(values, period, MeanOf, n);
  }

  lemma PercentChangePrefix(values: Series, period: nat, n: nat)
    requires n <= |values|
    ensures PercentChange(values[..n], period) == PercentChange(values, period)[..n]
  {
    ReturnsPrefix(values, period, n);
  }

  lemma ReturnsPrefix(values: Series, period: nat, n: nat)
    requires n <= |values|
    ensures Returns(values[..n], period) == Returns(values, period)[..n]
  {
  }

  lemma PreviousMaximumPrefix(values: Series, period: nat, n: nat)
    requires period > 0 && n <= |values|
    ensures PreviousMaximum(values[..n], period) == PreviousMaximum(values, period)[..n]
  {
    forall i | 0 <= i < n
      ensures PreviousMaximum(values[..n], period)[i] == PreviousMaximum(values, period)[i]
    {
      if i >= period {
        assert values[..n][i - period..i] == values[i - period..i];
      }
    }
  }

  lemma HighRatioPrefix(values: Series, period: nat, n: nat)
    requires period > 0 && n <= |values|
    ensures HighRatio(values[..n], period) == HighRatio(values, period)[..n]
  {
    RollingPrefix(values, period, Greatest, n);
  }

  lemma RegimeFilterPrefix(values: Series, period: nat, n: nat)
    requires period > 0 && n <= |values|
    ensures RegimeFilter(values[..n], period) == RegimeFilter(values, period)[..n]
  {
    EmaPrefix(values, if period / 2 < 2 then 2 else period / 2, n);
    EmaPrefix(values, period, n);
  }

  /** The one calculator that sees the length of the data must see the same on both sides. */
  ghost predicate SameReach(spec: IndicatorSpec, a: seq<Bar>, b: seq<Bar>) {
    spec.calculator.VolumeBreakoutOf? ==> (|a| > spec.period <==> |b| > spec.period)
  }

  lemma CalculateAgrees(spec: IndicatorSpec, a: seq<Bar>, b: seq<Bar>, n: nat)
    requires spec.Calculable(|a|) && spec.Calculable(|b|) && n <= |a| && n <= |b| && a[..n] == b[..n]
             && SameReach(spec, a, b)
    ensures Calculate(spec, a)[..n] == Calculate(spec, b)[..n]
  {
    hide Rolling, Smooth, Lift, Rsi, Atr, Adx, Hma, Dema, Tema, Kama, VolumeBreakout, Streaks;
    if spec.calculator.VolumeBreakoutOf? {
      ColumnPrefix(a, VolumeField, n);
      ColumnPrefix(b, VolumeField, n);
      VolumeBreakoutAgrees(Column(a, VolumeField), Column(b, VolumeField), spec.period, n);
    } else if spec.calculator.KamaOf? {
      ColumnPrefix(a, CloseField, n);
      ColumnPrefix(b, CloseField, n);
      KamaAgrees(Column(a, CloseField), Column(b, CloseField), spec.period, n);
    } else {
      hide Calculate;
      CalculatePrefix(spec, a, n);
      CalculatePrefix(spec, b, n);
    }
  }

  /** Two plans that differ only in the values supplied for features, and in these only from index `n` on. */
  ghost predicate SamePlanBefore(p: Plan, q: Plan, a: seq<Bar>, b: seq<Bar>, n: nat) {
    && p.indicators == q.indicators && p.entry == q.entry && p.exit == q.exit
    && p.features.Keys == q.features.Keys
    && (forall name | name in p.indicators :: SameReach(p.indicators[name], a, b))
    && (forall name | name in p.features ::
          var f, g := p.features[name], q.features[name];
          && f.lag == g.lag
          && (f.Supplied? <==> g.Supplied?)
          && (f.Supplied? ==> |f.values| >= n && |g.values| >= n && f.values[..n] == g.values[..n])
          && (f.Computed? ==> f.spec == g.spec && SameReach(f.spec, a, b)))
  }

  lemma FeatureAgrees(f: Feature, g: Feature, a: seq<Bar>, b: seq<Bar>, n: nat)
    requires n <= |a| && n <= |b| && a[..n] == b[..n] && f.lag == g.lag && (f.Supplied? <==> g.Supplied?)
    requires f.Supplied? ==> |f.values| >= n && |g.values| >= n && f.values[..n] == g.values[..n]
    requires f.Computed? ==>
               f.spec == g.spec && f.spec.Calculable(|a|) && f.spec.Calculable(|b|) && SameReach(f.spec, a, b)
    ensures |FeatureSeries(f, a)| >= n && |FeatureSeries(g, b)| >= n
    ensures FeatureSeries(f, a)[..n] == FeatureSeries(g, b)[..n]
  {
    hide Calculate, Lag;
    if f.Supplied? {
      LagPrefix(f.values, f.lag, n);
      LagPrefix(g.values, g.lag, n);
    } else {
      CalculateAgrees(f.spec, a, b, n);
      LagPrefix(Calculate(f.spec, a), f.lag, n);
      LagPrefix(Calculate(g.spec, b), g.lag, n);
    }
  }

  lemma PriceColumnsAgree(a: seq<Bar>, b: seq<Bar>, n: nat, name: string)
    requires n <= |a| && n <= |b| && a[..n] == b[..n] && name in PriceColumns(a)
    ensures name in PriceColumns(b) && |PriceColumns(a)[name]| == |a| && |PriceColumns(b)[name]| == |b|
    ensures PriceColumns(a)[name][..n] == PriceColumns(b)[name][..n]
  {
    hide Column;
    var field :=
      if name == "open" then OpenField else if name == "high" then HighField
      else if name == "low" then LowField else if name == "close" then CloseField else VolumeField;
    assert PriceColumns(a)[name] == Column(a, field) && PriceColumns(b)[name] == Column(b, field);
    ColumnPrefix(a, field, n);
    ColumnPrefix(b, field, n);
  }

  lemma SeriesAgree(p: Plan, q: Plan, a: seq<Bar>, b: seq<Bar>, n: nat, name: string)
    requires Calculable(p, |a|) && Calculable(q, |b|) && n <= |a| && n <= |b| && a[..n] == b[..n]
    requires SamePlanBefore(p, q, a, b, n) && name in AllSeries(p, a)
    ensures name in AllSeries(q, b)
    ensures var u, v := AllSeries(p, a)[name], AllSeries(q, b)[name];
            |u| >= n && |v| >= n && u[..n] == v[..n]
  {
    hide Calculate, FeatureSeries, PriceColumns;
    if name in p.features {
      FeatureAgrees(p.features[name], q.features[name], a, b, n);
    } else if name in PriceColumns(a) {
      PriceColumnsAgree(a, b, n, name);
    } else {
      CalculateAgrees(p.indicators[name], a, b, n);
      assert name !in PriceColumns(b) by {
        if name in PriceColumns(b) {
          PriceColumnsAgree(b, a, n, name);
        }
      }
    }
  }

  lemma AllSeriesAgree(p: Plan, q: Plan, a: seq<Bar>, b: seq<Bar>, n: nat, index: nat)
    requires Calculable(p, |a|) && Calculable(q, |b|) && index < n <= |a| && n <= |b| && a[..n] == b[..n]
    requires SamePlanBefore(p, q, a, b, n)
    ensures AgreeThrough(AllSeries(p, a), AllSeries(q, b), index)
  {
    hide AllSeries, SamePlanBefore;
    var u, v := AllSeries(p, a), AllSeries(q, b);
    forall name | name in u
      ensures name in v && |u[name]| > index && |v[name]| > index && u[name][..index + 1] == v[name][..index + 1]
    {
      SeriesAgree(p, q, a, b, n, name);
      assert u[name][..index + 1] == u[name][..n][..index + 1];
      assert v[name][..index + 1] == v[name][..n][..index + 1];
    }
    SameNames(p, q, a, b, n);
  }

  lemma SameNames(p: Plan, q: Plan, a: seq<Bar>, b: seq<Bar>, n: nat)
    requires Calculable(p, |a|) && Calculable(q, |b|) && SamePlanBefore(p, q, a, b, n)
    ensures AllSeries(p, a).Keys == AllSeries(q, b).Keys
  {
    hide Calculate, FeatureSeries, Column;
  }

  lemma CellsAgree(p: Plan, q: Plan, a: seq<Bar>, b: seq<Bar>, n: nat)
    requires Calculable(p, |a|) && Calculable(q, |b|) && n <= |a| && n <= |b| && a[..n] == b[..n]
    requires SamePlanBefore(p, q, a, b, n)
    ensures Cells(p, a)[..n] == Cells(q, b)[..n]
  {
    hide AllSeries, MatchRules, AgreeThrough;
    forall i | 0 <= i < n
      ensures Cells(p, a)[i] == Cells(q, b)[i]
    {
      AllSeriesAgree(p, q, a, b, n, i);
      MatchRulesAgree(p.entry, AllSeries(p, a), AllSeries(q, b), i);
      MatchRulesAgree(p.exit, AllSeries(p, a), AllSeries(q, b), i);
      assert a[i] == a[..n][i] && b[i] == b[..n][i];
    }
  }

  /** For any strategy over these calculators: replacing bar `i`'s high, low, close and volume, every
      later bar, and every supplied value from `i` on, changes no trade filled at or before bar `i`'s
      open and no equity point before `i`. The data may also end at another bar, as long as it stays on
      the same side of the period of every volume breakout. */
  lemma NoLookAhead(t: Terms, p: Plan, q: Plan, a: seq<Bar>, b: seq<Bar>, symbol: string, i: nat)
    requires ValidBars(a, symbol) && ValidBars(b, symbol) && i < |a| && i < |b| && a[..i] == b[..i]
    requires a[i].stamp == b[i].stamp && a[i].day == b[i].day && a[i].open == b[i].open
    requires SamePlanBefore(p, q, a, b, i)
    requires RunBacktest(t, p, a).Ok? && RunBacktest(t, q, b).Ok?
    ensures After(t, Cells(p, a), i + 1).Ok? && After(t, Cells(q, b), i + 1).Ok?
    ensures var filled := After(t, Cells(p, a), i + 1).value.trades;
            && filled == After(t, Cells(q, b), i + 1).value.trades
            && filled <= RunBacktest(t, p, a).value.trades
            && filled <= RunBacktest(t, q, b).value.trades
    ensures |RunBacktest(t, p, a).value.equity| == |a| && |RunBacktest(t, q, b).value.equity| == |b|
    ensures RunBacktest(t, p, a).value.equity[..i] == RunBacktest(t, q, b).value.equity[..i]
  {
    hide Step, Cells, SamePlanBefore;
    CellsAgree(p, q, a, b, i);
    SingleTwoRuns.NoLookAhead(t, Cells(p, a), Cells(q, b), symbol, i);
  }

  // ----- A validated strategy

  lemma SeriesCover(plan: Plan, bars: seq<Bar>)
    requires Calculable(plan, |bars|) && LengthsMatch(plan, |bars|)
    ensures Covers(AllSeries(plan, bars), plan.AsRules().References(), |bars|)
  {
    hide Calculate, FeatureSeries, Column, LengthsMatch;
    forall name | name in plan.AsRules().References()
      ensures name in AllSeries(plan, bars) && |AllSeries(plan, bars)[name]| == |bars|
    {
      if name in plan.features {
        FeatureLength(plan, bars, name);
      }
    }
  }

  lemma FeatureLength(plan: Plan, bars: seq<Bar>, name: string)
    requires Calculable(plan, |bars|) && LengthsMatch(plan, |bars|) && name in plan.features
    ensures |FeatureSeries(plan.features[name], bars)| == |bars|
  {
    hide Calculate;
  }

  /** No literal of the rules is something other than a number. */
  ghost predicate NumericLiterals(plan: Plan) {
    forall c | c in plan.entry.conditions + plan.exit.conditions :: c.literal != Some(NotANumber)
  }

  /** A strategy that the validator accepts, with literals that are numbers, never fails on its rules:
      whatever the bars, the run is completed. */
  lemma ValidatedBacktestCompletes(t: Terms, plan: Plan, bars: seq<Bar>, symbol: string)
    requires t.Valid() && ValidBars(bars, symbol) && Calculable(plan, |bars|) && LengthsMatch(plan, |bars|)
    requires Validate(plan.AsRules()).Ok? && NumericLiterals(plan)
    ensures RunBacktest(t, plan, bars).Ok?
  {
    hide AllSeries, MatchRules, Validate, Covers, Step;
    var values, cells := AllSeries(plan, bars), Cells(plan, bars);
    SeriesCover(plan, bars);
    forall i | 0 <= i < |bars|
      ensures cells[i].entry.Ok? && cells[i].exit.Ok?
    {
      ValidatedRulesAreTotal(plan.AsRules(), values, |bars|, i);
      assert plan.entry in {plan.entry, plan.exit} && plan.exit in {plan.entry, plan.exit};
    }
    QuietRulesComplete(t, cells, |cells|);
  }

  /** Without that condition on the literals, the run ends with the error of such a literal if it does not
      complete. */
  lemma ValidatedBacktestErrs(t: Terms, plan: Plan, bars: seq<Bar>, symbol: string)
    requires t.Valid() && ValidBars(bars, symbol) && Calculable(plan, |bars|) && LengthsMatch(plan, |bars|)
    requires Validate(plan.AsRules()).Ok?
    ensures RunBacktest(t, plan, bars).Err? ==>
            RunBacktest(t, plan, bars).error == RunFailed(RuleFailed(LiteralNotANumber))
  {
    hide AllSeries, MatchRules, Validate, Covers, Step;
    var values, cells := AllSeries(plan, bars), Cells(plan, bars);
    SeriesCover(plan, bars);
    forall i | 0 <= i < |bars|
      ensures OnlyLiterals(cells[i].entry) && OnlyLiterals(cells[i].exit)
    {
      ValidatedRulesAreTotal(plan.AsRules(), values, |bars|, i);
      assert plan.entry in {plan.entry, plan.exit} && plan.exit in {plan.entry, plan.exit};
    }
    OnlyLiteralsEnd(t, cells, |cells|);
  }

  predicate OnlyLiterals(r: Result<bool, RuleError>) {
    r.Err? ==> r.error == LiteralNotANumber
  }

  lemma {:induction false} OnlyLiteralsEnd(t: Terms, cells: seq<Cell>, n: nat)
    requires forall i | 0 <= i < |cells| ::
             cells[i].bar.open > 0.0 && OnlyLiterals(cells[i].entry) && OnlyLiterals(cells[i].exit)
    requires n <= |cells|
    ensures After(t, cells, n).Err? ==> After(t, cells, n).error == LiteralNotANumber
  {
    hide AtOpen, RiskExit;
    if n > 0 {
      OnlyLiteralsEnd(t, cells, n - 1);
    }
  }

  lemma {:induction false} QuietRulesComplete(t: Terms, cells: seq<Cell>, n: nat)
    requires forall i | 0 <= i < |cells| :: cells[i].bar.open > 0.0 && cells[i].entry.Ok? && cells[i].exit.Ok?
    requires n <= |cells|
    ensures After(t, cells, n).Ok?
  {
    hide AtOpen, RiskExit;
    if n > 0 {
      QuietRulesComplete(t, cells, n - 1);
    }
  }

  // ----- Strategies that cannot trade

  /** Without an entry signal nothing is ever traded, and the equity is the initial cash throughout. */
  lemma {:induction false} NoSignalNoTrade(t: Terms, cells: seq<Cell>, n: nat)
    requires forall i | 0 <= i < |cells| :: cells[i].bar.open > 0.0 && cells[i].entry != Ok(true)
    requires n <= |cells| && After(t, cells, n).Ok?
    ensures var a := After(t, cells, n).value;
            && a.trades == [] && a.units == 0.0 && a.cash == t.initialCash && !a.pending.EntryOrder?
            && forall k | 0 <= k < |a.equity| :: a.equity[k] == t.initialCash
  {
    if n > 0 {
      NoSignalNoTrade(t, cells, n - 1);
      IdleStep(t, After(t, cells, n - 1).value, cells[n - 1]);
    }
  }

  lemma IdleStep(t: Terms, a: Account, cell: Cell)
    requires cell.bar.open > 0.0 && cell.entry != Ok(true) && a.units == 0.0 && !a.pending.EntryOrder?
    requires Step(t, a, cell).Ok?
    ensures var b := Step(t, a, cell).value;
            && b.trades == a.trades && b.units == 0.0 && b.cash == a.cash && !b.pending.EntryOrder?
            && b.equity == a.equity + [a.cash]
  {
    hide LossBreached, CostOf, Stake, UnitsBought, ExposureAllows;
    assert Worth(a.cash, 0.0, cell.bar.close) == a.cash;
  }

  /** A calculator that never has a value: DEMA or TEMA of a period over one, an RSI that smooths, or the
      signal line of a MACD. */
  predicate NeverSpeaks(spec: IndicatorSpec) {
    || ((spec.calculator.DemaOf? || spec.calculator.TemaOf?) && spec.period >= 2)
    || (spec.calculator.RsiOf? && !spec.calculator.how.SimpleRsi?)
    || spec.calculator.MacdSignalOf?
  }

  /** A feature without a value: its calculator never has one, nothing was supplied, or its lag is longer
      than the data. */
  ghost predicate NothingFrom(feature: Feature, bars: nat) {
    || feature.lag >= bars
    || (feature.Computed? && NeverSpeaks(feature.spec))
    || (feature.Supplied? && |feature.values| == bars && Never(feature.values))
  }

  /** The name is that of such a feature, or of such an indicator that no feature and no price hides. */
  ghost predicate Silent(plan: Plan, bars: nat, name: string) {
    if name in plan.features then NothingFrom(plan.features[name], bars)
    else name !in PRICE_FIELDS && name in plan.indicators && NeverSpeaks(plan.indicators[name])
  }

  lemma SilentSeries(spec: IndicatorSpec, bars: seq<Bar>)
    requires spec.Calculable(|bars|) && NeverSpeaks(spec)
    ensures Never(Calculate(spec, bars))
  {
    hide Dema, Tema, Rsi, MacdSignal;
    var how := if spec.calculator.RsiOf? then spec.calculator.how else SimpleRsi;
    if spec.calculator.MacdSignalOf? {
      NeverDefined(Column(bars, CloseField), spec.period, how, spec.calculator.fast, spec.calculator.slow,
          spec.calculator.signal);
    } else {
      NeverDefined(Column(bars, CloseField), spec.period, how, 1, 2, 1);
    }
  }

  lemma SilentFeature(feature: Feature, bars: seq<Bar>)
    requires feature.Computed? ==> feature.spec.Calculable(|bars|)
    requires feature.Supplied? ==> |feature.values| == |bars|
    requires NothingFrom(feature, |bars|)
    ensures Never(FeatureSeries(feature, bars))
  {
    hide Calculate;
    if feature.Computed? && NeverSpeaks(feature.spec) {
      SilentSeries(feature.spec, bars);
    }
    var values := if feature.Supplied? then feature.values else Calculate(feature.spec, bars);
    LagPrefix(values, feature.lag, |values|);
  }

  lemma SilentName(plan: Plan, bars: seq<Bar>, name: string)
    requires Calculable(plan, |bars|) && LengthsMatch(plan, |bars|) && Silent(plan, |bars|, name)
    ensures name in AllSeries(plan, bars) && Never(AllSeries(plan, bars)[name])
  {
    hide Calculate, FeatureSeries;
    if name in plan.features {
      SilentFeature(plan.features[name], bars);
      assert AllSeries(plan, bars)[name] == FeatureSeries(plan.features[name], bars);
    } else {
      SilentSeries(plan.indicators[name], bars);
      assert AllSeries(plan, bars)[name] == Calculate(plan.indicators[name], bars);
    }
  }

  /** The condition names the series on one of its sides. */
  predicate Names(c: Condition, name: string) {
    c.left == name || c.right == Some(name)
  }

  lemma SilentCondition(c: Condition, values: Values, name: string, index: nat)
    requires Names(c, name) && name in values && Never(values[name])
    ensures MatchCondition(c, values, index) != Ok(true)
  {
  }

  lemma {:induction false} SilentOutcome(cs: seq<Condition>, c: Condition, values: Values, name: string, index: nat)
    requires c in cs && c.enabled && Names(c, name) && name in values && Never(values[name])
    ensures Outcomes(cs, values, index).Err? || false in Outcomes(cs, values, index).value
  {
    hide MatchCondition;
    if cs[0] == c {
      SilentCondition(c, values, name, index);
      assert MatchCondition(c, values, index).Err? || !MatchCondition(c, values, index).value;
    } else {
      SilentOutcome(cs[1..], c, values, name, index);
    }
  }

  /** An AND entry with an enabled condition that reads, on either side, a series without any value never
      trades, whatever the bars. */
  lemma SilentSeriesNeverTrades(t: Terms, plan: Plan, bars: seq<Bar>, symbol: string, c: Condition, name: string)
    requires ValidBars(bars, symbol) && Calculable(plan, |bars|) && RunBacktest(t, plan, bars).Ok?
    requires plan.entry.logic.And? && c in plan.entry.conditions && c.enabled && Names(c, name)
    requires name in AllSeries(plan, bars) && Never(AllSeries(plan, bars)[name])
    ensures RunBacktest(t, plan, bars).value.trades == []
    ensures forall k | 0 <= k < |RunBacktest(t, plan, bars).value.equity| ::
            RunBacktest(t, plan, bars).value.equity[k] == t.initialCash
  {
    hide Step, AllSeries, Outcomes;
    var values, cells := AllSeries(plan, bars), Cells(plan, bars);
    forall i | 0 <= i < |cells|
      ensures cells[i].entry != Ok(true)
    {
      SilentOutcome(plan.entry.conditions, c, values, name, i);
    }
    NoSignalNoTrade(t, cells, |cells|);
  }

  /** So it is with any indicator or feature that never has a value. */
  lemma SilentIndicatorNeverTrades(t: Terms, plan: Plan, bars: seq<Bar>, symbol: string, c: Condition, name: string)
    requires ValidBars(bars, symbol) && RunBacktest(t, plan, bars).Ok?
    requires plan.entry.logic.And? && c in plan.entry.conditions && c.enabled && Names(c, name)
             && Silent(plan, |bars|, name)
    ensures RunBacktest(t, plan, bars).value.trades == []
    ensures forall k | 0 <= k < |RunBacktest(t, plan, bars).value.equity| ::
            RunBacktest(t, plan, bars).value.equity[k] == t.initialCash
  {
    hide Outcome, AllSeries, Calculable, LengthsMatch, Cells;
    SilentName(plan, bars, name);
    SilentSeriesNeverTrades(t, plan, bars, symbol, c, name);
  }
}
