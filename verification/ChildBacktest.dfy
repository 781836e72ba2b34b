/** The child that a list of operations makes of a strategy, and its backtest: from the edited document
    through schema and validator to the run. */
module ChildBacktest {
  import opened Prelude
  import opened Costs
  import opened Strategy
  import opened Market
  import opened Indicators
  import opened SingleEngine
  import opened Backtest
  import opened StrategyDocument
  import M = Mutation

  /** What Python makes of texts and parameters where the backtest needs numbers, which the model leaves
      open; and the deviation of a window. */
  datatype Reckoning = Reckoning(
    float: string -> Literal,
    lower: string -> string,
    truncated: Json -> Option<int>,
    bands: map<string, Json> -> Option<seq<real> -> real>,
    deviation: seq<real> -> real)

  // ----- From the document to the rules

  function LiteralOf(value: Json, k: Reckoning): Option<Literal> {
    match value
    case Text(text) => Some(k.float(text))
    case Scalar(Null) => None
    case Scalar(Flag(flag)) => Some(Number(if flag then 1.0 else 0.0))
    case Scalar(Whole(n)) => Some(Number(n as real))
    case Scalar(Floating(x)) => Some(Number(x))
    case Scalar(NotFinite) => Some(Literal.NotFinite)
    case _ => Some(NotANumber)
  }

  function AsCondition(c: ConditionDoc, k: Reckoning): Condition {
    Condition(c.op, c.left, c.right, LiteralOf(c.value, k), c.enabled)
  }

  function AsConditions(cs: seq<ConditionDoc>, k: Reckoning): (r: seq<Condition>)
    ensures |r| == |cs| && forall i | 0 <= i < |cs| :: r[i] == AsCondition(cs[i], k)
  {
    seq(|cs|, i requires 0 <= i < |cs| => AsCondition(cs[i], k))
  }

  function AsRuleSet(rules: RuleDoc, k: Reckoning): RuleSet {
    RuleSet(rules.logic, AsConditions(rules.conditions, k))
  }

  function AsRules(d: Document, k: Reckoning): Rules {
    Rules(d.indicators.Keys, d.features.Keys, AsRuleSet(d.entry, k), AsRuleSet(d.exit, k),
        AsConditions(d.regimeFilters, k))
  }

  // ----- From the document to the calculators

  function TextOf(parameters: map<string, Json>, key: string, missing: string): string {
    if key !in parameters then missing else if parameters[key].Text? then parameters[key].text else ""
  }

  function NatOf(parameters: map<string, Json>, key: string, missing: nat, k: Reckoning): Option<nat> {
    if key !in parameters then Some(missing)
    else
      var n :- k.truncated(parameters[key]);
      if n > 0 then Some(n) else None
  }

  /** The calculator of an indicator, unless its parameters are refused. */
  function CalculatorOf(kind: string, period: nat, parameters: map<string, Json>, k: Reckoning): Option<Calculator> {
    if kind == "SMA" then Some(SmaOf)
    else if kind == "EMA" then Some(EmaOf)
    else if kind == "WMA" then Some(WmaOf)
    else if kind == "HMA" then Some(HmaOf)
    else if kind == "DEMA" then Some(DemaOf)
    else if kind == "TEMA" then Some(TemaOf)
    else if kind == "KAMA" then Some(KamaOf)
    else if kind == "WILDER" then Some(WilderOf)
    else if kind == "RSI" then
      var how := TextOf(parameters, "method", "sma");
      Some(RsiOf(if how == "wilder" then WilderRsi else if how == "ema" then EmaRsi else SimpleRsi))
    else if kind == "MACD" then
      var fast :- NatOf(parameters, "fast_period", if period / 2 < 2 then 2 else period / 2, k);
      var slow :- NatOf(parameters, "slow_period", period, k);
      Some(MacdOf(fast, slow))
    else if kind == "ATR" then Some(AtrOf)
    else if kind == "ADX" then Some(AdxOf)
    else if kind == "BOLLINGER" then
      var band :- k.bands(parameters);
      Some(BollingerOf(band))
    else if kind == "IBS" then Some(IbsOf)
    else if kind == "DISPARITY" then Some(DisparityOf)
    else if kind == "CONSECUTIVE" then
      var direction := k.lower(TextOf(parameters, "direction", "up"));
      if direction == "up" then Some(ConsecutiveOf(true)) else if direction == "down" then Some(ConsecutiveOf(false))
          else None
    else if kind == "VOLATILITY_IND" || kind == "VOLATILITY_FILTER" then Some(VolatilityOf(k.deviation))
    else if kind == "CHANGE" then Some(ChangeOf)
    else if kind == "MAXIMUM" then Some(MaximumOf)
    else if kind == "ROC" then Some(RateOfChangeOf)
    else if kind == "VOLUME_BREAKOUT" then Some(VolumeBreakoutOf)
    else if kind == "52_WEEK_HIGH" then Some(HighRatioOf)
    else if kind == "REGIME_FILTER" then Some(RegimeFilterOf)
    else None
  }

  /** A missing period counts as one. */
  function SpecOf(x: IndicatorDoc, k: Reckoning): Option<IndicatorSpec> {
    var period := if x.period.Some? then x.period.value else 1;
    var calculator :- CalculatorOf(x.kind, period, x.parameters, k);
    Some(IndicatorSpec(calculator, period))
  }

  /** What a request adds to a strategy: the costs, the cash, and the values or the calculator of each
      feature with the lag of its own. */
  datatype Request =
    Request(costs: Option<CostModel>, stress: real, initialCash: real, deliver: (string, FeatureRef) -> Option<Feature>)

  function FeatureOf(name: string, ref: FeatureRef, request: Request): Option<Feature> {
    var feature :- request.deliver(name, ref);
    Some(feature.(lag := feature.lag + ref.lag))
  }

  function PlanOf(d: Document, request: Request, k: Reckoning): Option<Plan> {
    if || (exists name | name in d.indicators :: SpecOf(d.indicators[name], k).None?)
       || (exists name | name in d.features :: FeatureOf(name, d.features[name], request).None?)
    then None
    else
      Some(Plan(
             map name | name in d.indicators :: SpecOf(d.indicators[name], k).value,
             map name | name in d.features :: FeatureOf(name, d.features[name], request).value,
             AsRuleSet(d.entry, k),
             AsRuleSet(d.exit, k),
             AsConditions(d.regimeFilters, k)))
  }

  function TermsOf(d: Document, request: Request): Terms {
    Terms(d.risk.risk, request.costs, request.stress, request.initialCash)
  }

  /** The backtest of a strategy. */
  function RunStrategy(d: Document, request: Request, k: Reckoning, bars: seq<Bar>): Result<Report, BacktestError>
    requires forall i | 0 <= i < |bars| :: bars[i].open > 0.0
  {
    var plan := PlanOf(d, request, k);
    if plan.None? then Err(CalculationRefused) else RunBacktest(TermsOf(d, request), plan.value, bars)
  }

  // ----- The child

  /** `apply_operations`: dump, edit, read, validate. */
  function Child(parent: Document, ops: seq<M.Operation>, r: Reading, k: Reckoning): Option<Document> {
    var data := M.Run(Dump(parent), ops);
    if data.Err? then None
    else
      var child :- ReadDocument(data.value, r);
      if Validate(AsRules(child, k)).Ok? then Some(child) else None
  }

  /** Without operations the child is the parent, if and only if no reference of the parent starts with a
      prefix any more. */
  lemma ChildOfNothing(parent: Document, r: Reading, k: Reckoning)
    requires Fits(parent) && r.Faithful() && Validate(AsRules(parent, k)).Ok?
    ensures Child(parent, [], r, k) == Some(parent) <==> AllSettled(parent)
  {
    hide Dump, ReadDocument, Fits, Reading.Faithful, Validate;
    RoundTripIff(parent, r);
  }

  /** The names that the rules may use are the same in the document and in its plan. */
  lemma PlanRules(d: Document, request: Request, k: Reckoning)
    requires PlanOf(d, request, k).Some?
    ensures PlanOf(d, request, k).value.AsRules() == AsRules(d, k)
  {
    hide SpecOf, FeatureOf, AsConditions;
    var plan := PlanOf(d, request, k).value;
    assert plan.indicators.Keys == d.indicators.Keys && plan.features.Keys == d.features.Keys;
  }

  /** The only error that a run of a child can end with is a literal that is not a number; and it does not
      end with that if no literal of its rules is such a text. */
  lemma ChildRuns(parent: Document, ops: seq<M.Operation>, child: Document, request: Request, r: Reading, k: Reckoning,
                  bars: seq<Bar>,
                  symbol: string)
    requires Child(parent, ops, r, k) == Some(child) && request.initialCash > 0.0 && request.stress >= 0.0
             && ValidBars(bars, symbol)
    requires PlanOf(child, request, k).Some? && Calculable(PlanOf(child, request, k).value, |bars|)
             && LengthsMatch(PlanOf(child, request, k).value, |bars|)
    ensures var run := RunStrategy(child, request, k, bars);
            && (run.Err? ==> run.error == RunFailed(RuleFailed(LiteralNotANumber)))
            && (NumericLiterals(PlanOf(child, request, k).value) ==> run.Ok?)
  {
    hide M.Run, Dump, ReadDocument, PlanOf, Validate, Calculable, LengthsMatch, RunBacktest, NumericLiterals, Fits,
         Terms.Valid;
    var plan := PlanOf(child, request, k).value;
    ReadFits(M.Run(Dump(parent), ops).value, r);
    PlanRules(child, request, k);
    FitTerms(child, request);
    ValidatedBacktestErrs(TermsOf(child, request), plan, bars, symbol);
    if NumericLiterals(plan) {
      ValidatedBacktestCompletes(TermsOf(child, request), plan, bars, symbol);
    }
  }

  lemma FitTerms(d: Document, request: Request)
    requires Fits(d) && request.initialCash > 0.0 && request.stress >= 0.0
    ensures TermsOf(d, request).Valid()
  {
  }

  // ----- A change of the risk settings

  /** The document with one risk setting changed. */
  function WithRisk(d: Document, op: M.OpName, x: real): Document
    requires M.RiskField(op).Some?
  {
    match op
    case CHANGE_STOP => d.(risk := d.risk.(risk := d.risk.risk.(stopLossPct := x)))
    case CHANGE_TAKE_PROFIT => d.(risk := d.risk.(risk := d.risk.risk.(takeProfitPct := x)))
    case CHANGE_TRAILING_STOP => d.(risk := d.risk.(trailingStopPct := Some(x)))
    case CHANGE_POSITION_SIZE => d.(risk := d.risk.(risk := d.risk.risk.(positionSizePct := x)))
  }

  lemma RiskFieldSet(d: Document, op: M.OpName, x: real)
    requires M.RiskField(op).Some?
    ensures DumpRisk(d.risk).Obj? && M.RiskField(op).value in DumpRisk(d.risk).fields
    ensures DumpRisk(WithRisk(d, op, x).risk) == M.Obj(DumpRisk(d.risk).fields[M.RiskField(op).value := DumpNumber(x)])
  {
    hide DumpMaybeNumber, DumpMaybeWhole, DumpNumber, DumpRisk;
    MaybeNumberDump(x);
    DumpRiskIn(d.risk);
    DumpRiskIn(WithRisk(d, op, x).risk);
    assert DumpRisk(WithRisk(d, op, x).risk).fields == DumpRisk(d.risk).fields[M.RiskField(op).value := DumpNumber(x)];
  }

  lemma MaybeNumberDump(x: real)
    ensures DumpMaybeNumber(Some(x)) == DumpNumber(x)
  {
  }

  /** Changing a section of a dump is dumping the changed document. */
  lemma RiskSection(d: Document, op: M.OpName, x: real)
    requires M.RiskField(op).Some?
    ensures Dump(d).Obj? && "risk" in Dump(d).fields && Dump(d).fields["risk"] == DumpRisk(d.risk)
    ensures Dump(WithRisk(d, op, x)) == M.Obj(Dump(d).fields["risk" := DumpRisk(WithRisk(d, op, x).risk)])
  {
    hide DumpWhole, DumpRules, DumpConditions, DumpRisk, DumpResearch, DumpProvenance, DumpIndicators, DumpFeatures,
         DumpTexts;
    assert Dump(WithRisk(d, op, x)).fields == Dump(d).fields["risk" := DumpRisk(WithRisk(d, op, x).risk)];
  }

  /** The child by a change of a risk setting is the parent with that setting changed and nothing else, if
      the schema allows the new setting, and there is no child if it does not. */
  lemma RiskOperationChild(parent: Document, op: M.OpName, x: real, r: Reading, k: Reckoning)
    requires M.RiskField(op).Some? && Fits(parent) && AllSettled(parent) && r.Faithful()
             && Validate(AsRules(parent, k)).Ok?
    ensures var changed := WithRisk(parent, op, x);
            Child(parent, [M.Operation(op, None, DumpNumber(x), None)], r, k) == if changed.risk.Valid()
                then Some(changed) else None
  {
    hide Dump, DumpRisk, ReadDocument, Validate, Reading.Faithful, FitsCondition, FitsFeature, FitsIndicator, Settled;
    var o, changed := M.Operation(op, None, DumpNumber(x), None), WithRisk(parent, op, x);
    var field := M.RiskField(op).value;
    RiskFieldSet(parent, op, x);
    RiskSection(parent, op, x);
    assert M.Run(Dump(parent), [o]) == M.Applied(Dump(parent), o) by {
      assert [o][..0] == [];
    }
    EditTwice(Dump(parent).fields, field, DumpNumber(x));
    assert M.Run(Dump(parent), [o]) == Ok(Dump(changed));
    if changed.risk.Valid() {
      RoundTripIff(changed, r);
    } else {
      BadRiskRefused(changed, r);
    }
  }

  /** A field of a section is set. */
  lemma EditTwice(m: map<string, Json>, field: string, value: Json)
    requires "risk" in m && m["risk"].Obj? && field in m["risk"].fields
    ensures M.Edited(M.Obj(m), ["risk", field], M.SetTo(value, false))
            == Ok(M.Obj(m["risk" := M.Obj(m["risk"].fields[field := value])]))
  {
    assert ["risk", field][1..] == [field] && [field][1..] == [];
    assert M.Edited(m["risk"], [field], M.SetTo(value, false)) == Ok(M.Obj(m["risk"].fields[field := value]));
  }

  lemma BadRiskRefused(d: Document, r: Reading)
    requires r.Faithful() && !d.risk.Valid() && (d.risk.risk.maxConcurrentPositions.Some? ==>
             d.risk.risk.maxConcurrentPositions.value > 0)
    ensures ReadDocument(Dump(d), r).None?
  {
    hide Dump, ReadHeader, ReadIndicators, ReadFeatures, ReadRules, ReadConditions, ReadRisk, ReadOrigin,
         Reading.Faithful, DumpRisk;
    DumpSectionsIn(d);
    RiskRound(d.risk, r);
  }
}
