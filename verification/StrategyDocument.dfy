/** A strategy as a document: the dump of strategy_ir/schema.py and its validation, and what
    mutation/engine.py makes of both when it edits a strategy. */
module StrategyDocument {
  import opened Prelude
  import opened Strategy
  import M = Mutation

  type Json = M.Json

  const NULL: Json := M.Scalar(M.Null)

  /** What pydantic makes of a scalar where a truth value, an integer or a number is asked for, and of
      text in another case or with blanks around it. An infinite number is no number here. */
  datatype Reading = Reading(
    truth: Json -> Option<bool>,
    whole: Json -> Option<int>,
    number: Json -> Option<real>,
    lower: string -> string,
    upper: string -> string)
  {
    /** Values of the type asked for, and the words of the schema, are read as they are. */
    ghost predicate Faithful() {
      && (forall b :: truth(M.Scalar(M.Flag(b))) == Some(b))
      && (forall n :: whole(M.Scalar(M.Whole(n))) == Some(n))
      && (forall x :: number(M.Scalar(M.Floating(x))) == Some(x))
      && (forall op: Operator :: lower(OperatorName(op)) == OperatorName(op))
      && (forall kind | kind in INDICATOR_TYPES :: upper(kind) == kind)
    }
  }

  // ----- The document

  /** A condition with its literal as it stands. */
  datatype ConditionDoc = ConditionDoc(op: Operator, left: string, right: Option<string>, value: Json, enabled: bool)

  datatype RuleDoc = RuleDoc(logic: Logic, conditions: seq<ConditionDoc>)

  datatype IndicatorDoc = IndicatorDoc(kind: string, period: Option<nat>, parameters: map<string, Json>)

  datatype FeatureRef =
    FeatureRef(featureId: string, timeframe: string, lag: nat, lookback: Option<nat>, inputs: seq<string>,
        parameters: map<string, Json>)

  datatype RiskDoc = RiskDoc(risk: Risk, trailingStopPct: Option<real>, appetite: Option<real>,
      tolerancePct: Option<real>)
  {
    predicate Valid() {
      && risk.Valid()
      && (trailingStopPct.Some? ==> 0.0 <= trailingStopPct.value)
      && (appetite.Some? ==> 0.0 <= appetite.value <= 1.0)
      && (tolerancePct.Some? ==> 0.0 <= tolerancePct.value <= 100.0)
    }
  }

  datatype Origin = Origin(mutation: seq<string>, parentScore: Option<real>, path: string, hash: string, kind: string)

  datatype Header = Header(version: int, id: string, family: string, generation: int, parents: seq<string>)
  {
    predicate Valid() {
      version > 0 && id != "" && family != "" && generation >= 0
    }
  }

  datatype Document = Document(
    header: Header,
    indicators: map<string, IndicatorDoc>,
    features: map<string, FeatureRef>,
    entry: RuleDoc,
    exit: RuleDoc,
    regimeFilters: seq<ConditionDoc>,
    risk: RiskDoc,
    origin: Origin)

  // ----- The words of the schema

  function OperatorName(op: Operator): string {
    match op
    case CrossAbove => "cross_above"
    case CrossBelow => "cross_below"
    case LessThan => "less_than"
    case LessEqual => "less_equal"
    case GreaterThan => "greater_than"
    case GreaterEqual => "greater_equal"
    case Equal => "equal"
  }

  function OperatorOf(name: string): Option<Operator> {
    if name == "cross_above" then Some(CrossAbove)
    else if name == "cross_below" then Some(CrossBelow)
    else if name == "less_than" || name == "lt" then Some(LessThan)
    else if name == "less_equal" || name == "lte" || name == "le" then Some(LessEqual)
    else if name == "greater_than" || name == "gt" then Some(GreaterThan)
    else if name == "greater_equal" || name == "gte" || name == "ge" then Some(GreaterEqual)
    else if name == "equal" || name == "eq" then Some(Equal)
    else None
  }

  const INDICATOR_TYPES: set<string> :=
    { "SMA", "EMA", "WMA", "HMA", "DEMA", "TEMA", "KAMA", "WILDER", "RSI", "MACD", "ATR", "ADX", "BOLLINGER", "IBS",
      "DISPARITY", "CONSECUTIVE", "VOLATILITY_IND", "CHANGE", "MAXIMUM", "ROC", "VOLUME_BREAKOUT", "52_WEEK_HIGH",
      "VOLATILITY_FILTER", "REGIME_FILTER" }

  const TIMEFRAMES: set<string> := { "1m", "5m", "15m", "1h", "1d", "1w", "1mo" }

  function ActionName(action: LossAction): string {
    match action
    case NoAction => "none"
    case Reduce => "reduce"
    case Hold => "hold"
    case Stop => "stop"
  }

  function ActionOf(name: string): Option<LossAction> {
    if name == "none" then Some(NoAction)
    else if name == "reduce" then Some(Reduce)
    else if name == "hold" then Some(Hold)
    else if name == "stop" then Some(Stop)
    else None
  }

  // ----- Reading the parts

  function Get(m: map<string, Json>, key: string, missing: Json): Json {
    if key in m then m[key] else missing
  }

  function ReadText(j: Json): Option<string> {
    if j.Text? then Some(j.text) else None
  }

  function ReadTexts(xs: seq<Json>): Option<seq<string>> {
    if xs == [] then Some([])
    else
      var front :- ReadTexts(xs[..|xs| - 1]);
      var last :- ReadText(xs[|xs| - 1]);
      Some(front + [last])
  }

  function ReadTextList(j: Json): Option<seq<string>> {
    if j.Arr? then ReadTexts(j.items)
    else if j.Scalar? && j.atom.Texts? then Some(j.atom.texts)
    else None
  }

  function MaybeNumber(j: Json, r: Reading): Option<Option<real>> {
    if j == NULL then Some(None)
    else
      var x :- r.number(j);
      Some(Some(x))
  }

  /** An optional integer above zero. */
  function MaybePositive(j: Json, r: Reading): Option<Option<nat>> {
    if j == NULL then Some(None)
    else
      var n :- r.whole(j);
      if n > 0 then Some(Some(n)) else None
  }

  /** A number, text or truth value. */
  predicate IsScalar(j: Json) {
    j.Text? || (j.Scalar? && !j.atom.Null? && !j.atom.Texts?)
  }

  function ReadParameters(j: Json): Option<map<string, Json>> {
    if j.Obj? && forall k | k in j.fields :: IsScalar(j.fields[k]) then Some(j.fields) else None
  }

  /** One prefix of a reference is taken off. */
  function Plain(name: string): string {
    if "features." <= name then name[9..]
    else if "indicators." <= name then name[11..]
    else name
  }

  function ReadReference(j: Json): Option<Option<string>> {
    if j == NULL then Some(None)
    else
      var name :- ReadText(j);
      Some(Some(Plain(name)))
  }

  function ReadCondition(j: Json, r: Reading): Option<ConditionDoc> {
    if !j.Obj? || !(j.fields.Keys <= {"op", "left", "right", "value", "enabled"})
        || !({"op", "left"} <= j.fields.Keys) then None
    else
      var word :- ReadText(j.fields["op"]);
      var op :- OperatorOf(r.lower(word));
      var left :- ReadReference(j.fields["left"]);
      var right :- ReadReference(Get(j.fields, "right", NULL));
      var value := Get(j.fields, "value", NULL);
      var enabled :- r.truth(Get(j.fields, "enabled", M.Scalar(M.Flag(true))));
      if left.None? || left.value == "" || !(value == NULL || IsScalar(value)) then None
      else Some(ConditionDoc(op, left.value, right, value, enabled))
  }

  function ReadConditions(xs: seq<Json>, r: Reading): Option<seq<ConditionDoc>> {
    if xs == [] then Some([])
    else
      var front :- ReadConditions(xs[..|xs| - 1], r);
      var last :- ReadCondition(xs[|xs| - 1], r);
      Some(front + [last])
  }

  function ReadConditionList(j: Json, r: Reading): Option<seq<ConditionDoc>> {
    if j.Arr? then ReadConditions(j.items, r) else None
  }

  function ReadRules(j: Json, r: Reading): Option<RuleDoc> {
    if !j.Obj? || !(j.fields.Keys <= {"logic", "conditions"}) || "logic" !in j.fields then None
    else
      var conditions :- ReadConditionList(Get(j.fields, "conditions", M.Arr([])), r);
      if j.fields["logic"] == M.Text("AND") then Some(RuleDoc(And, conditions))
      else if j.fields["logic"] == M.Text("OR") then Some(RuleDoc(Or, conditions))
      else None
  }

  function ReadIndicator(j: Json, r: Reading): Option<IndicatorDoc> {
    if !j.Obj? || !(j.fields.Keys <= {"type", "period", "parameters"}) || "type" !in j.fields then None
    else
      var word :- ReadText(j.fields["type"]);
      var kind := if r.upper(word) == "HIGHEST" then "MAXIMUM" else r.upper(word);
      var period :- MaybePositive(Get(j.fields, "period", NULL), r);
      var parameters :- ReadParameters(Get(j.fields, "parameters", M.Obj(map[])));
      if kind in INDICATOR_TYPES then Some(IndicatorDoc(kind, period, parameters)) else None
  }

  function ReadIndicators(j: Json, r: Reading): Option<map<string, IndicatorDoc>> {
    if !j.Obj? || j.fields == map[] || exists k | k in j.fields :: ReadIndicator(j.fields[k], r).None? then None
    else Some(map k | k in j.fields :: ReadIndicator(j.fields[k], r).value)
  }

  function ReadFeature(j: Json, r: Reading): Option<FeatureRef> {
    if || !j.Obj? || "feature_id" !in j.fields
       || !(j.fields.Keys <= {"feature_id", "timeframe", "lag_bars", "lookback", "inputs", "parameters"})
    then None
    else
      var featureId :- ReadText(j.fields["feature_id"]);
      var timeframe :- ReadText(Get(j.fields, "timeframe", M.Text("1d")));
      var lag :- r.whole(Get(j.fields, "lag_bars", M.Scalar(M.Whole(0))));
      var lookback :- MaybePositive(Get(j.fields, "lookback", NULL), r);
      var inputs :- ReadTextList(Get(j.fields, "inputs", M.Scalar(M.Texts([]))));
      var parameters :- ReadParameters(Get(j.fields, "parameters", M.Obj(map[])));
      if featureId != "" && timeframe in TIMEFRAMES && lag >= 0
      then Some(FeatureRef(featureId, timeframe, lag, lookback, inputs, parameters))
      else None
  }

  function ReadFeatures(j: Json, r: Reading): Option<map<string, FeatureRef>> {
    if !j.Obj? || exists k | k in j.fields :: ReadFeature(j.fields[k], r).None? then None
    else Some(map k | k in j.fields :: ReadFeature(j.fields[k], r).value)
  }

  const RISK_FIELDS: set<string> :=
    { "stop_loss_pct", "take_profit_pct", "trailing_stop_pct", "position_size_pct", "risk_appetite",
        "loss_tolerance_pct",
      "daily_loss_limit_pct", "daily_loss_action", "max_concurrent_positions", "max_total_exposure_pct" }

  function ReadRisk(j: Json, r: Reading): Option<RiskDoc> {
    if !j.Obj? || !(j.fields.Keys <= RISK_FIELDS) || !({"stop_loss_pct", "take_profit_pct"} <= j.fields.Keys) then None
    else
      var stop :- r.number(j.fields["stop_loss_pct"]);
      var take :- r.number(j.fields["take_profit_pct"]);
      var trailing :- MaybeNumber(Get(j.fields, "trailing_stop_pct", NULL), r);
      var size :- r.number(Get(j.fields, "position_size_pct", M.Scalar(M.Floating(100.0))));
      var appetite :- MaybeNumber(Get(j.fields, "risk_appetite", NULL), r);
      var tolerance :- MaybeNumber(Get(j.fields, "loss_tolerance_pct", NULL), r);
      var limit :- MaybeNumber(Get(j.fields, "daily_loss_limit_pct", NULL), r);
      var word :- ReadText(Get(j.fields, "daily_loss_action", M.Text("none")));
      var action :- ActionOf(word);
      var positions :- MaybePositive(Get(j.fields, "max_concurrent_positions", NULL), r);
      var exposure :- MaybeNumber(Get(j.fields, "max_total_exposure_pct", NULL), r);
      var risk := RiskDoc(Risk(stop, take, size, limit, action, positions, exposure), trailing, appetite, tolerance);
      if risk.Valid() then Some(risk) else None
  }

  function ReadOrigin(research: Json, provenance: Json, r: Reading): Option<Origin> {
    if || !research.Obj? || !(research.fields.Keys <= {"mutation", "parent_score"})
       || !provenance.Obj? || !(provenance.fields.Keys <= {"source_path", "source_hash", "source_type"})
    then None
    else
      var mutation :- ReadTextList(Get(research.fields, "mutation", M.Arr([])));
      var score :- MaybeNumber(Get(research.fields, "parent_score", NULL), r);
      var path :- ReadText(Get(provenance.fields, "source_path", M.Text("")));
      var hash :- ReadText(Get(provenance.fields, "source_hash", M.Text("")));
      var kind :- ReadText(Get(provenance.fields, "source_type", M.Text("structured")));
      Some(Origin(mutation, score, path, hash, kind))
  }

  const FIELDS: set<string> :=
    { "schema_version", "strategy_id", "id", "family", "generation", "parents", "indicators", "features", "entry",
        "exit",
      "regime_filters", "risk", "research", "provenance" }

  const REQUIRED: set<string> := { "schema_version", "family", "generation", "indicators", "entry", "exit", "risk" }

  /** The strategy may be wrapped in a field of that name. */
  function Unwrapped(m: map<string, Json>): map<string, Json> {
    if "strategy" !in m || !m["strategy"].Obj? then m
    else
      var nested := m["strategy"].fields;
      if "schema_version" in m && "schema_version" !in nested then nested["schema_version" := m["schema_version"]]
          else nested
  }

  function ReadHeader(m: map<string, Json>, r: Reading): Option<Header>
    requires REQUIRED <= m.Keys
  {
    var version :- r.whole(m["schema_version"]);
    var id :- ReadText(Get(m, "id", Get(m, "strategy_id", NULL)));
    var family :- ReadText(m["family"]);
    var generation :- r.whole(m["generation"]);
    var parents :- ReadTextList(Get(m, "parents", M.Arr([])));
    var header := Header(version, id, family, generation, parents);
    if header.Valid() then Some(header) else None
  }

  /** The validation of a document by the schema. A strategy goes by its id or its alias, not both. */
  function ReadDocument(j: Json, r: Reading): Option<Document> {
    if !j.Obj? then None
    else
      var m := Unwrapped(j.fields);
      if !(m.Keys <= FIELDS) || !(REQUIRED <= m.Keys) || ("id" in m && "strategy_id" in m) then None
      else
        var header :- ReadHeader(m, r);
        var indicators :- ReadIndicators(m["indicators"], r);
        var features :- ReadFeatures(Get(m, "features", M.Obj(map[])), r);
        var entry :- ReadRules(m["entry"], r);
        var exit :- ReadRules(m["exit"], r);
        var filters :- ReadConditionList(Get(m, "regime_filters", M.Arr([])), r);
        var risk :- ReadRisk(m["risk"], r);
        var origin :- ReadOrigin(Get(m, "research", M.Obj(map[])), Get(m, "provenance", M.Obj(map[])), r);
        Some(Document(header, indicators, features, entry, exit, filters, risk, origin))
  }

  // ----- Dumping

  function DumpWhole(n: int): Json {
    M.Scalar(M.Whole(n))
  }

  function DumpNumber(x: real): Json {
    M.Scalar(M.Floating(x))
  }

  function DumpMaybeNumber(x: Option<real>): Json {
    if x.None? then NULL else DumpNumber(x.value)
  }

  function DumpMaybeWhole(n: Option<nat>): Json {
    if n.None? then NULL else DumpWhole(n.value)
  }

  function DumpTexts(texts: seq<string>): Json {
    M.Arr(seq(|texts|, i requires 0 <= i < |texts| => M.Text(texts[i])))
  }

  function DumpCondition(c: ConditionDoc): Json {
    M.Obj(map[
      "op" := M.Text(OperatorName(c.op)),
      "left" := M.Text(c.left),
      "right" := if c.right.None? then NULL else M.Text(c.right.value),
      "value" := c.value,
      "enabled" := M.Scalar(M.Flag(c.enabled))])
  }

  function DumpConditions(cs: seq<ConditionDoc>): seq<Json> {
    seq(|cs|, i requires 0 <= i < |cs| => DumpCondition(cs[i]))
  }

  function DumpRules(rules: RuleDoc): Json {
    M.Obj(map["logic" := M.Text(if rules.logic.And? then "AND" else "OR"),
        "conditions" := M.Arr(DumpConditions(rules.conditions))])
  }

  function DumpIndicator(x: IndicatorDoc): Json {
    M.Obj(map["type" := M.Text(x.kind), "period" := DumpMaybeWhole(x.period), "parameters" := M.Obj(x.parameters)])
  }

  function DumpFeature(x: FeatureRef): Json {
    M.Obj(map[
      "feature_id" := M.Text(x.featureId),
      "timeframe" := M.Text(x.timeframe),
      "lag_bars" := DumpWhole(x.lag),
      "lookback" := DumpMaybeWhole(x.lookback),
      "inputs" := M.Scalar(M.Texts(x.inputs)),
      "parameters" := M.Obj(x.parameters)])
  }

  function DumpIndicators(xs: map<string, IndicatorDoc>): Json {
    M.Obj(map k | k in xs :: DumpIndicator(xs[k]))
  }

  function DumpFeatures(xs: map<string, FeatureRef>): Json {
    M.Obj(map k | k in xs :: DumpFeature(xs[k]))
  }

  function DumpRisk(x: RiskDoc): Json {
    M.Obj(map[
      "stop_loss_pct" := DumpNumber(x.risk.stopLossPct),
      "take_profit_pct" := DumpNumber(x.risk.takeProfitPct),
      "trailing_stop_pct" := DumpMaybeNumber(x.trailingStopPct),
      "position_size_pct" := DumpNumber(x.risk.positionSizePct),
      "risk_appetite" := DumpMaybeNumber(x.appetite),
      "loss_tolerance_pct" := DumpMaybeNumber(x.tolerancePct),
      "daily_loss_limit_pct" := DumpMaybeNumber(x.risk.dailyLossLimitPct),
      "daily_loss_action" := M.Text(ActionName(x.risk.dailyLossAction)),
      "max_concurrent_positions" := DumpMaybeWhole(x.risk.maxConcurrentPositions),
      "max_total_exposure_pct" := DumpMaybeNumber(x.risk.maxTotalExposurePct)])
  }

  function DumpResearch(x: Origin): Json {
    M.Obj(map["mutation" := DumpTexts(x.mutation), "parent_score" := DumpMaybeNumber(x.parentScore)])
  }

  function DumpProvenance(x: Origin): Json {
    M.Obj(map["source_path" := M.Text(x.path), "source_hash" := M.Text(x.hash), "source_type" := M.Text(x.kind)])
  }

  /** The dump that the operations are made on. */
  function Dump(d: Document): Json {
    M.Obj(map[
      "schema_version" := DumpWhole(d.header.version),
      "strategy_id" := M.Text(d.header.id),
      "family" := M.Text(d.header.family),
      "generation" := DumpWhole(d.header.generation),
      "parents" := DumpTexts(d.header.parents),
      "indicators" := DumpIndicators(d.indicators),
      "features" := DumpFeatures(d.features),
      "entry" := DumpRules(d.entry),
      "exit" := DumpRules(d.exit),
      "regime_filters" := M.Arr(DumpConditions(d.regimeFilters)),
      "risk" := DumpRisk(d.risk),
      "research" := DumpResearch(d.origin),
      "provenance" := DumpProvenance(d.origin)])
  }

  // ----- The round trip

  predicate FitsIndicator(x: IndicatorDoc) {
    && x.kind in INDICATOR_TYPES
    && (x.period.Some? ==> x.period.value > 0)
    && forall k | k in x.parameters :: IsScalar(x.parameters[k])
  }

  predicate FitsFeature(x: FeatureRef) {
    && x.featureId != "" && x.timeframe in TIMEFRAMES
    && (x.lookback.Some? ==> x.lookback.value > 0)
    && forall k | k in x.parameters :: IsScalar(x.parameters[k])
  }

  predicate FitsCondition(c: ConditionDoc) {
    c.left != "" && (c.value == NULL || IsScalar(c.value))
  }

  /** What the schema holds of every document it returns. */
  predicate Fits(d: Document) {
    && d.header.Valid()
    && d.indicators != map[] && (forall k | k in d.indicators :: FitsIndicator(d.indicators[k]))
    && (forall k | k in d.features :: FitsFeature(d.features[k]))
    && (forall c | c in d.entry.conditions :: FitsCondition(c))
    && (forall c | c in d.exit.conditions :: FitsCondition(c))
    && (forall c | c in d.regimeFilters :: FitsCondition(c))
    && d.risk.Valid()
  }

  /** No reference of the condition still starts with a prefix. */
  predicate Settled(c: ConditionDoc) {
    Plain(c.left) == c.left && (c.right.Some? ==> Plain(c.right.value) == c.right.value)
  }

  lemma ReadConditionFits(j: Json, r: Reading)
    requires ReadCondition(j, r).Some?
    ensures FitsCondition(ReadCondition(j, r).value)
  {
    hide OperatorOf, ReadReference, IsScalar;
  }

  lemma {:induction false} ReadConditionsFit(xs: seq<Json>, r: Reading)
    requires ReadConditions(xs, r).Some?
    ensures forall c | c in ReadConditions(xs, r).value :: FitsCondition(c)
  {
    hide ReadCondition, FitsCondition;
    if xs != [] {
      ReadConditionsFit(xs[..|xs| - 1], r);
      ReadConditionFits(xs[|xs| - 1], r);
    }
  }

  lemma ReadIndicatorFits(j: Json, r: Reading)
    requires ReadIndicator(j, r).Some?
    ensures FitsIndicator(ReadIndicator(j, r).value)
  {
    hide IsScalar, INDICATOR_TYPES;
  }

  lemma ReadFeatureFits(j: Json, r: Reading)
    requires ReadFeature(j, r).Some?
    ensures FitsFeature(ReadFeature(j, r).value)
  {
    hide IsScalar, ReadTextList;
  }

  lemma ReadRulesFit(j: Json, r: Reading)
    requires ReadRules(j, r).Some?
    ensures forall c | c in ReadRules(j, r).value.conditions :: FitsCondition(c)
  {
    hide ReadConditions, FitsCondition;
    ReadConditionsFit(Get(j.fields, "conditions", M.Arr([])).items, r);
  }

  lemma ReadIndicatorsFit(j: Json, r: Reading)
    requires ReadIndicators(j, r).Some?
    ensures var xs := ReadIndicators(j, r).value; xs != map[] && forall k | k in xs :: FitsIndicator(xs[k])
  {
    hide ReadIndicator, FitsIndicator;
    var xs := ReadIndicators(j, r).value;
    assert xs.Keys == j.fields.Keys;
    forall k | k in xs
      ensures FitsIndicator(xs[k])
    {
      ReadIndicatorFits(j.fields[k], r);
    }
  }

  lemma ReadFeaturesFit(j: Json, r: Reading)
    requires ReadFeatures(j, r).Some?
    ensures var xs := ReadFeatures(j, r).value; forall k | k in xs :: FitsFeature(xs[k])
  {
    hide ReadFeature, FitsFeature;
    var xs := ReadFeatures(j, r).value;
    forall k | k in xs
      ensures FitsFeature(xs[k])
    {
      ReadFeatureFits(j.fields[k], r);
    }
  }

  lemma ReadListFits(j: Json, r: Reading)
    requires ReadConditionList(j, r).Some?
    ensures forall c | c in ReadConditionList(j, r).value :: FitsCondition(c)
  {
    hide ReadConditions, FitsCondition;
    ReadConditionsFit(j.items, r);
  }

  lemma ReadRiskValid(j: Json, r: Reading)
    requires ReadRisk(j, r).Some?
    ensures ReadRisk(j, r).value.Valid()
  {
    hide RiskDoc.Valid, MaybeNumber, MaybePositive;
  }

  lemma ReadHeaderValid(m: map<string, Json>, r: Reading)
    requires REQUIRED <= m.Keys && ReadHeader(m, r).Some?
    ensures ReadHeader(m, r).value.Valid()
  {
    hide Header.Valid, ReadTextList;
  }

  /** Whatever the document, what the schema returns fits the schema. */
  lemma ReadFits(j: Json, r: Reading)
    requires ReadDocument(j, r).Some?
    ensures Fits(ReadDocument(j, r).value)
  {
    hide ReadHeader, ReadIndicators, ReadFeatures, ReadRules, ReadConditionList, ReadRisk, ReadOrigin, FitsCondition,
         FitsIndicator, FitsFeature,
         RiskDoc.Valid, Header.Valid;
    var m := Unwrapped(j.fields);
    ReadHeaderValid(m, r);
    ReadIndicatorsFit(m["indicators"], r);
    ReadFeaturesFit(Get(m, "features", M.Obj(map[])), r);
    ReadRulesFit(m["entry"], r);
    ReadRulesFit(m["exit"], r);
    ReadListFits(Get(m, "regime_filters", M.Arr([])), r);
    ReadRiskValid(m["risk"], r);
  }

  lemma {:induction false} TextsRound(texts: seq<string>)
    ensures ReadTexts(DumpTexts(texts).items) == Some(texts)
  {
    if texts != [] {
      var n := |texts| - 1;
      TextsRound(texts[..n]);
      assert DumpTexts(texts).items[..n] == DumpTexts(texts[..n]).items;
      assert texts == texts[..n] + [texts[n]];
    }
  }

  lemma ConditionFields(c: ConditionDoc)
    ensures var m := DumpCondition(c).fields;
            && m.Keys == {"op", "left", "right", "value", "enabled"}
            && m["op"] == M.Text(OperatorName(c.op)) && m["left"] == M.Text(c.left) && m["value"] == c.value
            && m["right"] == (if c.right.None? then NULL else M.Text(c.right.value))
                && m["enabled"] == M.Scalar(M.Flag(c.enabled))
  {
    hide OperatorName;
  }

  lemma ConditionRound(c: ConditionDoc, r: Reading)
    requires FitsCondition(c) && r.Faithful()
    ensures ReadCondition(DumpCondition(c), r) == Some(c) <==> Settled(c)
  {
    hide IsScalar, Plain, DumpCondition;
    ConditionFields(c);
    assert DumpCondition(c).Obj? by {
      IsObject(c);
    }
    assert OperatorOf(OperatorName(c.op)) == Some(c.op);
    assert r.lower(OperatorName(c.op)) == OperatorName(c.op);
    assert r.truth(M.Scalar(M.Flag(c.enabled))) == Some(c.enabled);
  }

  lemma IsObject(c: ConditionDoc)
    ensures DumpCondition(c).Obj?
  {
  }

  lemma {:induction false} ConditionsRound(cs: seq<ConditionDoc>, r: Reading)
    requires (forall c | c in cs :: FitsCondition(c)) && r.Faithful()
    ensures ReadConditions(DumpConditions(cs), r) == Some(cs) <==> forall c | c in cs :: Settled(c)
  {
    hide ReadCondition, DumpCondition, FitsCondition, Settled;
    if cs != [] {
      var n := |cs| - 1;
      ConditionsRound(cs[..n], r);
      assert DumpConditions(cs)[..n] == DumpConditions(cs[..n]);
      assert cs == cs[..n] + [cs[n]];
      ConditionRound(cs[n], r);
    }
  }

  lemma RulesRound(rules: RuleDoc, r: Reading)
    requires (forall c | c in rules.conditions :: FitsCondition(c)) && r.Faithful()
    ensures ReadRules(DumpRules(rules), r) == Some(rules) <==> forall c | c in rules.conditions :: Settled(c)
  {
    hide ReadConditions, DumpConditions, FitsCondition, Settled;
    ConditionsRound(rules.conditions, r);
    var m := DumpRules(rules).fields;
    assert m["conditions"] == M.Arr(DumpConditions(rules.conditions));
  }

  lemma MaybeRound(n: Option<nat>, x: Option<real>, r: Reading)
    requires (n.Some? ==> n.value > 0) && r.Faithful()
    ensures MaybePositive(DumpMaybeWhole(n), r) == Some(n) && MaybeNumber(DumpMaybeNumber(x), r) == Some(x)
  {
    if n.Some? {
      assert r.whole(M.Scalar(M.Whole(n.value))) == Some(n.value);
    }
    if x.Some? {
      assert r.number(M.Scalar(M.Floating(x.value))) == Some(x.value);
    }
  }

  lemma IndicatorRound(x: IndicatorDoc, r: Reading)
    requires FitsIndicator(x) && r.Faithful()
    ensures ReadIndicator(DumpIndicator(x), r) == Some(x)
  {
    hide IsScalar;
    MaybeRound(x.period, None, r);
    assert r.upper(x.kind) == x.kind;
    assert "HIGHEST" !in INDICATOR_TYPES;
  }

  lemma IndicatorsRound(xs: map<string, IndicatorDoc>, r: Reading)
    requires xs != map[] && (forall k | k in xs :: FitsIndicator(xs[k])) && r.Faithful()
    ensures ReadIndicators(DumpIndicators(xs), r) == Some(xs)
  {
    hide ReadIndicator, DumpIndicator, FitsIndicator;
    var fields := DumpIndicators(xs).fields;
    forall k | k in xs
      ensures ReadIndicator(fields[k], r) == Some(xs[k])
    {
      IndicatorRound(xs[k], r);
    }
    assert fields.Keys == xs.Keys;
    assert ReadIndicators(DumpIndicators(xs), r).value == xs;
  }

  lemma FeatureFields(x: FeatureRef)
    ensures var m := DumpFeature(x).fields;
            && m.Keys == {"feature_id", "timeframe", "lag_bars", "lookback", "inputs", "parameters"}
            && m["feature_id"] == M.Text(x.featureId) && m["timeframe"] == M.Text(x.timeframe)
                && m["lag_bars"] == DumpWhole(x.lag)
            && m["lookback"] == DumpMaybeWhole(x.lookback) && m["inputs"] == M.Scalar(M.Texts(x.inputs))
            && m["parameters"] == M.Obj(x.parameters)
  {
    hide DumpMaybeWhole, DumpWhole;
  }

  lemma FeatureRound(x: FeatureRef, r: Reading)
    requires FitsFeature(x) && r.Faithful()
    ensures ReadFeature(DumpFeature(x), r) == Some(x)
  {
    hide IsScalar, MaybePositive, DumpMaybeWhole;
    FeatureFields(x);
    MaybeRound(x.lookback, None, r);
    assert r.whole(M.Scalar(M.Whole(x.lag))) == Some(x.lag);
    assert DumpFeature(x) == M.Obj(DumpFeature(x).fields);
    hide DumpFeature;
  }

  lemma FeaturesRound(xs: map<string, FeatureRef>, r: Reading)
    requires (forall k | k in xs :: FitsFeature(xs[k])) && r.Faithful()
    ensures ReadFeatures(DumpFeatures(xs), r) == Some(xs)
  {
    hide ReadFeature, DumpFeature, FitsFeature;
    var fields := DumpFeatures(xs).fields;
    forall k | k in xs
      ensures ReadFeature(fields[k], r) == Some(xs[k])
    {
      FeatureRound(xs[k], r);
    }
    assert fields.Keys == xs.Keys;
    assert ReadFeatures(DumpFeatures(xs), r).value == xs;
  }

  /** What stands in the fields of a risk section. */
  ghost predicate RiskIn(m: map<string, Json>, x: RiskDoc) {
    && m.Keys == RISK_FIELDS
    && m["stop_loss_pct"] == DumpNumber(x.risk.stopLossPct)
    && m["take_profit_pct"] == DumpNumber(x.risk.takeProfitPct)
    && m["trailing_stop_pct"] == DumpMaybeNumber(x.trailingStopPct)
    && m["position_size_pct"] == DumpNumber(x.risk.positionSizePct)
    && m["risk_appetite"] == DumpMaybeNumber(x.appetite)
    && m["loss_tolerance_pct"] == DumpMaybeNumber(x.tolerancePct)
    && m["daily_loss_limit_pct"] == DumpMaybeNumber(x.risk.dailyLossLimitPct)
    && m["daily_loss_action"] == M.Text(ActionName(x.risk.dailyLossAction))
    && m["max_concurrent_positions"] == DumpMaybeWhole(x.risk.maxConcurrentPositions)
    && m["max_total_exposure_pct"] == DumpMaybeNumber(x.risk.maxTotalExposurePct)
  }

  lemma DumpRiskIn(x: RiskDoc)
    ensures DumpRisk(x).Obj? && RiskIn(DumpRisk(x).fields, x)
  {
    hide DumpMaybeNumber, DumpMaybeWhole, DumpNumber, ActionName;
  }

  lemma RiskRound(x: RiskDoc, r: Reading)
    requires r.Faithful() && (x.risk.maxConcurrentPositions.Some? ==> x.risk.maxConcurrentPositions.value > 0)
    ensures ReadRisk(DumpRisk(x), r) == if x.Valid() then Some(x) else None
  {
    hide MaybeNumber, MaybePositive, DumpMaybeNumber, DumpMaybeWhole, DumpRisk;
    DumpRiskIn(x);
    MaybeRound(x.risk.maxConcurrentPositions, x.trailingStopPct, r);
    MaybeRound(None, x.appetite, r);
    MaybeRound(None, x.tolerancePct, r);
    MaybeRound(None, x.risk.dailyLossLimitPct, r);
    MaybeRound(None, x.risk.maxTotalExposurePct, r);
    assert ActionOf(ActionName(x.risk.dailyLossAction)) == Some(x.risk.dailyLossAction);
    assert forall y :: r.number(DumpNumber(y)) == Some(y);
  }

  lemma OriginRound(x: Origin, r: Reading)
    requires r.Faithful()
    ensures ReadOrigin(DumpResearch(x), DumpProvenance(x), r) == Some(x)
  {
    hide ReadTexts, DumpTexts;
    TextsRound(x.mutation);
    MaybeRound(None, x.parentScore, r);
    TextListRound(x.mutation);
  }

  lemma TextListRound(texts: seq<string>)
    ensures ReadTextList(DumpTexts(texts)) == Some(texts)
  {
    TextsRound(texts);
  }

  /** What stands in the fields of a dump. */
  ghost predicate HeaderIn(m: map<string, Json>, h: Header) {
    && m.Keys == FIELDS - {"id"}
    && m["schema_version"] == DumpWhole(h.version)
    && m["strategy_id"] == M.Text(h.id)
    && m["family"] == M.Text(h.family)
    && m["generation"] == DumpWhole(h.generation)
    && m["parents"] == DumpTexts(h.parents)
  }

  ghost predicate SectionsIn(m: map<string, Json>, d: Document) {
    && m.Keys == FIELDS - {"id"}
    && m["indicators"] == DumpIndicators(d.indicators)
    && m["features"] == DumpFeatures(d.features)
    && m["entry"] == DumpRules(d.entry)
    && m["exit"] == DumpRules(d.exit)
    && m["regime_filters"] == M.Arr(DumpConditions(d.regimeFilters))
    && m["risk"] == DumpRisk(d.risk)
    && m["research"] == DumpResearch(d.origin)
    && m["provenance"] == DumpProvenance(d.origin)
  }

  lemma DumpHeaderIn(d: Document)
    ensures Dump(d).Obj? && HeaderIn(Dump(d).fields, d.header)
  {
    hide DumpWhole, DumpRules, DumpConditions, DumpRisk, DumpResearch, DumpProvenance, DumpIndicators, DumpFeatures,
         DumpTexts;
  }

  lemma DumpSectionsIn(d: Document)
    ensures Dump(d).Obj? && SectionsIn(Dump(d).fields, d)
  {
    hide DumpWhole, DumpRules, DumpConditions, DumpRisk, DumpResearch, DumpProvenance, DumpIndicators, DumpFeatures,
         DumpTexts;
  }

  lemma HeaderRound(m: map<string, Json>, h: Header, r: Reading)
    requires HeaderIn(m, h) && h.Valid() && r.Faithful()
    ensures REQUIRED <= m.Keys && ReadHeader(m, r) == Some(h)
  {
    hide ReadTextList, DumpTexts;
    TextListRound(h.parents);
    assert r.whole(DumpWhole(h.version)) == Some(h.version);
    assert r.whole(DumpWhole(h.generation)) == Some(h.generation);
  }

  ghost predicate AllSettled(d: Document) {
    forall c | c in d.entry.conditions + d.exit.conditions + d.regimeFilters :: Settled(c)
  }

  /** Validating the dump of a document gives the document back, if and only if none of its references
      starts with a prefix any more: one prefix is taken off each time. */
  lemma RoundTripIff(d: Document, r: Reading)
    requires Fits(d) && r.Faithful()
    ensures ReadDocument(Dump(d), r) == Some(d) <==> AllSettled(d)
  {
    hide Dump, ReadHeader, ReadIndicators, ReadFeatures, ReadRules, ReadConditions, ReadRisk, ReadOrigin, FitsIndicator,
         FitsFeature, FitsCondition,
         Settled, DumpRules, DumpConditions, DumpRisk, DumpResearch, DumpProvenance, DumpIndicators, DumpFeatures,
             DumpTexts,
         Reading.Faithful, HeaderIn, Header.Valid, ReadTextList;
    DumpHeaderIn(d);
    DumpSectionsIn(d);
    HeaderRound(Dump(d).fields, d.header, r);
    IndicatorsRound(d.indicators, r);
    FeaturesRound(d.features, r);
    RulesRound(d.entry, r);
    RulesRound(d.exit, r);
    ConditionsRound(d.regimeFilters, r);
    RiskRound(d.risk, r);
    OriginRound(d.origin, r);
  }
}
