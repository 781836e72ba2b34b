/** What a strategy document says, from its text to the series and the decisions of a backtest: which values its
    names stand for, what its conditions compare, and what it means when it leaves a field out. */
module DocumentMeaning {
  import opened Prelude
  import opened Strategy
  import opened Market
  import opened Indicators
  import opened AdaptiveAverage
  import opened Backtest
  import opened StrategyDocument
  import opened ChildBacktest
  import opened RuleMeaning
  import M = Mutation

  // ----- Conditions

  /** The number that a literal is: that of a scalar, or what the text is read as. */
  function Threshold(j: Json, k: Reckoning): Option<real> {
    match j
    case Scalar(Whole(n)) => Some(n as real)
    case Scalar(Floating(x)) => Some(x)
    case Scalar(Flag(flag)) => Some(if flag then 1.0 else 0.0)
    case Text(text) =>
      (match k.float(text)
       case Number(x) => Some(x)
       case _ => None)
    case _ => None
  }

  /** The series that a condition's text names, its prefix aside. */
  function Named(m: map<string, Json>, key: string, values: Values, i: nat): Option<real> {
    if key !in m || !m[key].Text? || Plain(m[key].text) !in values || i >= |values[Plain(m[key].text)]| then None
    else values[Plain(m[key].text)][i]
  }

  /** What the right side of a condition is at a bar: the series it names, or its literal if it names none. */
  function RightSide(m: map<string, Json>, values: Values, i: nat, k: Reckoning): Option<real> {
    if "right" in m && m["right"] != NULL then Named(m, "right", values, i)
    else if "value" in m then Threshold(m["value"], k)
    else None
  }

  /** A comparison in a document holds at a bar if and only if both of its sides are there and lie as its word
      says. */
  lemma ComparisonDecides(m: map<string, Json>, r: Reading, k: Reckoning, values: Values, i: nat)
    requires ReadCondition(M.Obj(m), r).Some?
    requires !ReadCondition(M.Obj(m), r).value.op.IsCross()
    ensures m["op"].Text? && "left" in m
    ensures Holds(AsCondition(ReadCondition(M.Obj(m), r).value, k), values, i) <==>
              && Named(m, "left", values, i).Some? && RightSide(m, values, i, k).Some?
              && var word := r.lower(m["op"].text);
                 var x, y := Named(m, "left", values, i).value, RightSide(m, values, i, k).value;
                 (x < y && word in LESS) || (x > y && word in GREATER) || (x == y && word in EVEN)
  {
    hide OperatorOf, Plain, Compare;
    var c := AsCondition(ReadCondition(M.Obj(m), r).value, k);
    WordsDecide(r.lower(m["op"].text), c, values, i);
    assert Current(c, values, i) == Named(m, "left", values, i);
    assert Target(c, values, i) == RightSide(m, values, i, k);
  }

  /** It counts if and only if its flag, or the lack of one, reads as true. */
  lemma EnabledIff(m: map<string, Json>, r: Reading, k: Reckoning)
    requires ReadCondition(M.Obj(m), r).Some?
    ensures AsCondition(ReadCondition(M.Obj(m), r).value, k).enabled
            <==> r.truth(if "enabled" in m then m["enabled"] else M.Scalar(M.Flag(true))) == Some(true)
  {
    hide OperatorOf, Plain;
  }

  /** A crossing in a document crosses the two series it names. */
  lemma CrossingNames(m: map<string, Json>, r: Reading, k: Reckoning)
    requires ReadCondition(M.Obj(m), r).Some?
    requires ReadCondition(M.Obj(m), r).value.op.IsCross() && "right" in m && m["right"].Text?
    ensures m["op"].Text? && m["left"].Text?
    ensures var c := AsCondition(ReadCondition(M.Obj(m), r).value, k);
            && c.left == Plain(m["left"].text) && c.right == Some(Plain(m["right"].text))
            && Crossing(c, if r.lower(m["op"].text) == "cross_above" then CrossAbove else CrossBelow)
            && r.lower(m["op"].text) in {"cross_above", "cross_below"}
  {
    hide OperatorOf, Plain;
    WordsKnown(r.lower(m["op"].text));
  }

  /** A prefix says where a name is from, and stands for nothing else. */
  lemma PrefixesDropped(name: string)
    ensures Plain("features." + name) == name && Plain("indicators." + name) == name
    ensures !("features." <= name) && !("indicators." <= name) ==> Plain(name) == name
  {
    assert ("features." + name)[9..] == name;
    assert ("indicators." + name)[0] == 'i';
    assert ("indicators." + name)[11..] == name;
  }

  // ----- Fields left out

  /** A condition without a flag is switched on, and one without a right side or a literal has none. */
  lemma ConditionDefaults(m: map<string, Json>, r: Reading)
    ensures "enabled" !in m ==>
              ReadCondition(M.Obj(m), r) == ReadCondition(M.Obj(m["enabled" := M.Scalar(M.Flag(true))]), r)
    ensures "right" !in m ==> ReadCondition(M.Obj(m), r) == ReadCondition(M.Obj(m["right" := NULL]), r)
    ensures "value" !in m ==> ReadCondition(M.Obj(m), r) == ReadCondition(M.Obj(m["value" := NULL]), r)
  {
    hide OperatorOf, ReadReference;
  }

  function RiskDefault(field: string): Option<Json> {
    if field == "position_size_pct" then Some(M.Scalar(M.Floating(100.0)))
    else if field == "daily_loss_action" then Some(M.Text("none"))
    else if field in {"trailing_stop_pct", "risk_appetite", "loss_tolerance_pct", "daily_loss_limit_pct",
                      "max_concurrent_positions", "max_total_exposure_pct"} then Some(NULL)
    else None
  }

  /** The fields of a risk section as it reads them. */
  function RiskValues(m: map<string, Json>): map<string, Json> {
    map field | field in RISK_FIELDS && (field in m || RiskDefault(field).Some?) ::
      if field in m then m[field] else RiskDefault(field).value
  }

  /** All that counts of a section is what its fields are once the defaults are put in. */
  lemma RiskByValues(m: map<string, Json>, r: Reading)
    requires m.Keys <= RISK_FIELDS && {"stop_loss_pct", "take_profit_pct"} <= m.Keys
    ensures ReadRisk(M.Obj(m), r) == ReadRisk(M.Obj(RiskValues(m)), r)
  {
    hide ActionOf, RiskDoc.Valid, MaybeNumber, MaybePositive, ReadText;
    var full := RiskValues(m);
    assert full.Keys <= RISK_FIELDS;
    assert full["stop_loss_pct"] == m["stop_loss_pct"] && full["take_profit_pct"] == m["take_profit_pct"];
    forall field | field in RISK_FIELDS && RiskDefault(field).Some?
      ensures Get(full, field, NULL) == Get(full, field, M.Text("none")) == Get(m, field, RiskDefault(field).value)
      ensures Get(full, field, M.Scalar(M.Floating(100.0))) == Get(m, field, RiskDefault(field).value)
    {
    }
    assert RiskDefault("position_size_pct") == Some(M.Scalar(M.Floating(100.0)));
    assert RiskDefault("daily_loss_action") == Some(M.Text("none"));
    hide RiskValues, RiskDefault;
  }

  /** A risk section stakes everything where it names no position size, does nothing about a loss where it names no
      action, and has no limit that it does not name; a stop and a take profit it has to name. */
  lemma RiskDefaults(m: map<string, Json>, r: Reading)
    requires m.Keys <= RISK_FIELDS
    ensures if {"stop_loss_pct", "take_profit_pct"} <= m.Keys
            then ReadRisk(M.Obj(m), r) == ReadRisk(M.Obj(RiskValues(m)), r)
            else ReadRisk(M.Obj(m), r) == None
  {
    if {"stop_loss_pct", "take_profit_pct"} <= m.Keys {
      RiskByValues(m, r);
    }
  }

  lemma FeatureDefaults(m: map<string, Json>, r: Reading)
    ensures "timeframe" !in m ==> ReadFeature(M.Obj(m), r) == ReadFeature(M.Obj(m["timeframe" := M.Text("1d")]), r)
    ensures "lag_bars" !in m ==>
              ReadFeature(M.Obj(m), r) == ReadFeature(M.Obj(m["lag_bars" := M.Scalar(M.Whole(0))]), r)
    ensures "lookback" !in m ==> ReadFeature(M.Obj(m), r) == ReadFeature(M.Obj(m["lookback" := NULL]), r)
  {
    hide ReadParameters, ReadTextList;
  }

  // ----- Bounds

  /** The dump of risk settings is read back if and only if they are in the bounds of the schema. */
  lemma RiskBoundsIff(x: RiskDoc, r: Reading)
    requires r.Faithful() && (x.risk.maxConcurrentPositions.Some? ==> x.risk.maxConcurrentPositions.value > 0)
    ensures var bounded :=
              && x.risk.stopLossPct >= 0.0 && x.risk.takeProfitPct >= 0.0
              && 0.0 < x.risk.positionSizePct <= 100.0
              && (x.trailingStopPct.Some? ==> x.trailingStopPct.value >= 0.0)
              && (x.risk.dailyLossLimitPct.Some? ==> 0.0 <= x.risk.dailyLossLimitPct.value <= 100.0)
              && (x.risk.maxTotalExposurePct.Some? ==> 0.0 < x.risk.maxTotalExposurePct.value <= 100.0)
              && (x.appetite.Some? ==> 0.0 <= x.appetite.value <= 1.0)
              && (x.tolerancePct.Some? ==> 0.0 <= x.tolerancePct.value <= 100.0);
            ReadRisk(DumpRisk(x), r) == if bounded then Some(x) else None
  {
    hide ReadRisk, DumpRisk, Reading.Faithful;
    RiskRound(x, r);
  }

  /** The head of a strategy is read if and only if its version is positive, it has an id and a family, and its
      generation is not negative. */
  lemma HeaderBoundsIff(m: map<string, Json>, h: Header, r: Reading)
    requires HeaderIn(m, h) && r.Faithful()
    ensures REQUIRED <= m.Keys
    ensures ReadHeader(m, r)
         == if h.version > 0 && h.id != "" && h.family != "" && h.generation >= 0 then Some(h) else None
  {
    hide ReadTextList, DumpTexts;
    TextListRound(h.parents);
    assert r.whole(DumpWhole(h.version)) == Some(h.version);
    assert r.whole(DumpWhole(h.generation)) == Some(h.generation);
  }

  /** A text, a number or a truth value. */
  predicate Single(j: Json) {
    match j
    case Text(_) => true
    case Scalar(Flag(_)) => true
    case Scalar(Whole(_)) => true
    case Scalar(Floating(_)) => true
    case Scalar(NotFinite) => true
    case _ => false
  }

  /** The literal of a condition, if it has one, is a text, a number or a truth value. */
  lemma LiteralIff(m: map<string, Json>, value: Json, r: Reading)
    requires ReadCondition(M.Obj(m["value" := NULL]), r).Some?
    ensures ReadCondition(M.Obj(m["value" := value]), r).Some? <==> value == NULL || Single(value)
  {
    hide OperatorOf, ReadReference;
  }

  /** So are the parameters of an indicator or a feature, of which none may be missing. */
  lemma ParametersIff(j: Json)
    ensures ReadParameters(j).Some? <==> j.Obj? && forall key | key in j.fields :: Single(j.fields[key])
    ensures ReadParameters(j).Some? ==> ReadParameters(j).value == j.fields
  {
    assert forall x: Json :: IsScalar(x) == Single(x);
  }

  /** The words for what is done about a daily loss. */
  lemma ActionWords(word: string)
    ensures ActionOf(word) == Some(NoAction) <==> word == "none"
    ensures ActionOf(word) == Some(Reduce) <==> word == "reduce"
    ensures ActionOf(word) == Some(Hold) <==> word == "hold"
    ensures ActionOf(word) == Some(Stop) <==> word == "stop"
  {
  }

  // ----- Refusals

  /** Which indicators of a document have no calculator: a MACD whose parameters are no positive numbers, a Bollinger
      band of an unknown name, a streak that is neither up nor down, and a type that is not one. */
  lemma UnknownIff(x: IndicatorDoc, k: Reckoning)
    requires x.kind in INDICATOR_TYPES
    ensures SpecOf(x, k).None? <==>
              || (x.kind == "MACD" && exists key | key in {"fast_period", "slow_period"} && key in x.parameters ::
                    BadPeriod(x.parameters[key], k))
              || (x.kind == "BOLLINGER" && k.bands(x.parameters).None?)
              || (x.kind == "CONSECUTIVE" && !(k.lower(Parameter(x, "direction", "up")) in {"up", "down"}))
    ensures SpecOf(x, k).Some? ==> SpecOf(x, k).value.period == if x.period.Some? then x.period.value else 1
  {
    if SpecOf(x, k).None? && x.kind == "MACD" {
      var key := if NatOf(x.parameters, "fast_period", 0, k).None? then "fast_period" else "slow_period";
      assert key in x.parameters && BadPeriod(x.parameters[key], k);
    }
  }

  predicate BadPeriod(j: Json, k: Reckoning) {
    k.truncated(j).None? || k.truncated(j).value <= 0
  }

  /** A text among the parameters; something else in its place reads as no text. */
  function Parameter(x: IndicatorDoc, key: string, missing: string): string {
    if key !in x.parameters then missing
    else
      match x.parameters[key]
      case Text(text) => text
      case _ => ""
  }

  /** What the parameters of an indicator choose. */
  lemma ParametersChoose(x: IndicatorDoc, k: Reckoning)
    requires SpecOf(x, k).Some?
    ensures var c := SpecOf(x, k).value.calculator;
            && (x.kind == "RSI" ==>
                  && c.RsiOf?
                  && (c.how == WilderRsi <==> Parameter(x, "method", "sma") == "wilder")
                  && (c.how == EmaRsi <==> Parameter(x, "method", "sma") == "ema"))
            && (x.kind == "CONSECUTIVE" ==>
                  c == ConsecutiveOf(k.lower(Parameter(x, "direction", "up")) == "up"))
            && (x.kind == "MACD" ==>
                  && c.MacdOf?
                  && ("fast_period" in x.parameters ==>
                        Some(c.fast as int) == k.truncated(x.parameters["fast_period"]))
                  && ("slow_period" in x.parameters ==>
                        Some(c.slow as int) == k.truncated(x.parameters["slow_period"])))
            && (x.kind == "BOLLINGER" ==> c.BollingerOf? && k.bands(x.parameters) == Some(c.band))
            && (x.kind in {"VOLATILITY_IND", "VOLATILITY_FILTER"} ==> c == VolatilityOf(k.deviation))
  {
  }

  /** A document has a plan if and only if each of its indicators has a calculator and each of its features is
      delivered; the plan has them under their names, each feature with its own lag on top of the delivered one. */
  lemma PlanIff(d: Document, request: Request, k: Reckoning)
    ensures PlanOf(d, request, k).Some? <==>
              && (forall name | name in d.indicators :: SpecOf(d.indicators[name], k).Some?)
              && (forall name | name in d.features :: request.deliver(name, d.features[name]).Some?)
    ensures PlanOf(d, request, k).Some? ==>
              var plan := PlanOf(d, request, k).value;
              && plan.indicators.Keys == d.indicators.Keys && plan.features.Keys == d.features.Keys
              && (forall name | name in d.indicators :: Some(plan.indicators[name]) == SpecOf(d.indicators[name], k))
              && (forall name | name in d.features ::
                    var delivered := request.deliver(name, d.features[name]).value;
                    plan.features[name] == delivered.(lag := delivered.lag + d.features[name].lag))
  {
    hide SpecOf;
  }

  /** Why a calculator is refused: a period of zero, a MACD whose fast period is zero or not the smaller one, a
      signal period of zero, or a KAMA longer than the data. */
  predicate Refuses(x: IndicatorSpec, bars: nat) {
    || x.period == 0
    || (match x.calculator
        case MacdOf(fast, slow) => fast == 0 || fast >= slow
        case MacdSignalOf(fast, slow, signal) => fast == 0 || fast >= slow || signal == 0
        case KamaOf => x.period > bars
        case _ => false)
  }

  /** A backtest is refused before it runs exactly when its cash or stress is out of bounds, when one of its
      calculators is refused, or when supplied values are not as long as the data. */
  lemma RefusedIff(t: Terms, plan: Plan, bars: seq<Bar>)
    requires forall i | 0 <= i < |bars| :: bars[i].open > 0.0
    ensures var bad := || (exists name | name in plan.indicators :: Refuses(plan.indicators[name], |bars|))
                       || (exists name | name in plan.features :: plan.features[name].Computed?
                             && Refuses(plan.features[name].spec, |bars|));
            var uneven := exists name | name in plan.features :: plan.features[name].Supplied?
                            && |plan.features[name].values| != |bars|;
            var r := RunBacktest(t, plan, bars);
            && (r == Err(CalculationRefused) <==> t.initialCash > 0.0 && t.stress >= 0.0 && bad)
            && (r == Err(LengthMismatch) <==> t.initialCash > 0.0 && t.stress >= 0.0 && !bad && uneven)
            && (t.initialCash <= 0.0 || t.stress < 0.0 ==> r == Err(RunFailed(InvalidRequest)))
  {
    hide Cells;
  }

  // ----- Names

  /** Each name of a run stands for a feature, if one has it; otherwise for a field of the bars, if it is one; and
      otherwise for the indicator. */
  lemma SeriesMean(plan: Plan, bars: seq<Bar>, name: string, i: nat)
    requires Calculable(plan, |bars|) && i < |bars|
    ensures var values := AllSeries(plan, bars);
            && (name in plan.features ==> name in values && values[name] == FeatureSeries(plan.features[name], bars))
            && (name !in plan.features && name in PRICE_FIELDS ==>
                  && name in values && |values[name]| == |bars|
                  && values[name][i] == Some(if name == "open" then bars[i].open
                                             else if name == "high" then bars[i].high
                                             else if name == "low" then bars[i].low
                                             else if name == "close" then bars[i].close else bars[i].volume))
            && (name !in plan.features && name !in PRICE_FIELDS ==>
                  && (name in values <==> name in plan.indicators)
                  && (name in values ==> values[name] == Calculate(plan.indicators[name], bars)))
  {
    hide Calculate, FeatureSeries;
  }

  /** A lag delays a series by so many bars. */
  lemma LagMeans(values: Series, lag: nat, i: nat)
    requires i < |values|
    ensures Lag(values, lag)[i] == if i < lag then None else values[i - lag]
  {
  }

  /** What the indicators of a document are calculated by, under their names there: the
      averages of the closes. */
  lemma CloseIndicators(x: IndicatorDoc, k: Reckoning, bars: seq<Bar>, closes: Series)
    requires SpecOf(x, k).Some? && SpecOf(x, k).value.Calculable(|bars|)
    requires |closes| == |bars| && forall i | 0 <= i < |bars| :: closes[i] == Some(bars[i].close)
    ensures var n, s := if x.period.Some? then x.period.value else 1, Calculate(SpecOf(x, k).value, bars);
            && n > 0
            && (x.kind == "SMA" ==> s == Sma(closes, n)) && (x.kind == "EMA" ==> s == Ema(closes, n))
            && (x.kind == "WMA" ==> s == Wma(closes, n)) && (x.kind == "HMA" ==> s == Hma(closes, n))
            && (x.kind == "DEMA" ==> s == Dema(closes, n)) && (x.kind == "TEMA" ==> s == Tema(closes, n))
            && (x.kind == "WILDER" ==> s == Wilder(closes, n))
  {
    hide Sma, Ema, Wma, Hma, Dema, Tema, Wilder, Kama, Returns, PercentChange, PreviousMaximum, HighRatio, Disparity,
         RegimeFilter, Rsi, Macd;
    assert Column(bars, CloseField) == closes;
  }

  lemma KamaIndicator(x: IndicatorDoc, k: Reckoning, bars: seq<Bar>, closes: Series)
    requires SpecOf(x, k).Some? && SpecOf(x, k).value.Calculable(|bars|) && x.kind == "KAMA"
    requires |closes| == |bars| && forall i | 0 <= i < |bars| :: closes[i] == Some(bars[i].close)
    ensures var n := if x.period.Some? then x.period.value else 1;
            n > 0 && Kama(closes, n) == Ok(Calculate(SpecOf(x, k).value, bars))
  {
    hide Running, Ready;
    assert Column(bars, CloseField) == closes;
  }

  /** And the others on the closes. */
  lemma ChangeIndicators(x: IndicatorDoc, k: Reckoning, bars: seq<Bar>, closes: Series)
    requires SpecOf(x, k).Some? && SpecOf(x, k).value.Calculable(|bars|)
    requires |closes| == |bars| && forall i | 0 <= i < |bars| :: closes[i] == Some(bars[i].close)
    ensures var n, s := if x.period.Some? then x.period.value else 1, Calculate(SpecOf(x, k).value, bars);
            && n > 0
            && (x.kind == "ROC" ==> s == Returns(closes, n)) && (x.kind == "CHANGE" ==> s == PercentChange(closes, n))
            && (x.kind == "MAXIMUM" ==> s == PreviousMaximum(closes, n))
            && (x.kind == "52_WEEK_HIGH" ==> s == HighRatio(closes, n))
            && (x.kind == "DISPARITY" ==> s == Disparity(closes, n))
            && (x.kind == "REGIME_FILTER" ==> s == RegimeFilter(closes, n))
  {
    hide Sma, Ema, Wma, Hma, Dema, Tema, Wilder, Kama, Returns, PercentChange, PreviousMaximum, HighRatio, Disparity,
         RegimeFilter, Rsi, Macd;
    assert Column(bars, CloseField) == closes;
  }

  /** An RSI without a method is the simple one, and a MACD without parameters has half its period, but at least
      two, as the fast one. */
  lemma DefaultIndicators(x: IndicatorDoc, k: Reckoning, bars: seq<Bar>, closes: Series)
    requires SpecOf(x, k).Some? && SpecOf(x, k).value.Calculable(|bars|)
    requires |closes| == |bars| && forall i | 0 <= i < |bars| :: closes[i] == Some(bars[i].close)
    ensures var n, s := if x.period.Some? then x.period.value else 1, Calculate(SpecOf(x, k).value, bars);
            && n > 0
            && (x.kind == "RSI" && "method" !in x.parameters ==> s == Rsi(closes, n, SimpleRsi))
            && (x.kind == "MACD" && x.parameters == map[] ==>
                  n > 1 && s == Macd(closes, if n / 2 < 2 then 2 else n / 2, n))
  {
    hide Sma, Ema, Wma, Hma, Dema, Tema, Wilder, Kama, Returns, PercentChange, PreviousMaximum, HighRatio, Disparity,
         RegimeFilter, Rsi, Macd;
    assert Column(bars, CloseField) == closes;
  }

  /** Those on other columns. */
  lemma BarIndicators(x: IndicatorDoc, k: Reckoning, bars: seq<Bar>)
    requires SpecOf(x, k).Some? && SpecOf(x, k).value.Calculable(|bars|)
    ensures var n, s := if x.period.Some? then x.period.value else 1, Calculate(SpecOf(x, k).value, bars);
            var high, low, close := Column(bars, HighField), Column(bars, LowField), Column(bars, CloseField);
            && n > 0
            && (x.kind == "ATR" ==> s == Atr(high, low, close, n))
            && (x.kind == "ADX" ==> s == Adx(high, low, close, n))
            && (x.kind == "IBS" ==> s == Ibs(close, high, low))
            && (x.kind == "VOLUME_BREAKOUT" ==> s == VolumeBreakout(Column(bars, VolumeField), n))
  {
    hide Atr, Adx, Ibs, VolumeBreakout;
  }
}
