/** The strategy document (strategy_ir/schema.py), its validator (strategy_ir/validator.py) and the
    engine's rule evaluator (core/backtest/engine.py), with the theorem that ties the last two. */
module Strategy {
  import opened Prelude

  datatype Operator =
    | CrossAbove | CrossBelow
    | LessThan | LessEqual | GreaterThan | GreaterEqual | Equal
  {
    predicate IsCross() {
      CrossAbove? || CrossBelow?
    }
  }

  /** What `float()` makes of a condition's literal, whose type the schema leaves open:
      a number, an infinity or NaN, or an error. */
  datatype Literal = Number(value: real) | NotFinite | NotANumber

  datatype Condition =
    Condition(op: Operator, left: string, right: Option<string>, literal: Option<Literal>, enabled: bool)

  datatype Logic = And | Or

  datatype RuleSet = RuleSet(logic: Logic, conditions: seq<Condition>)

  datatype LossAction = NoAction | Reduce | Hold | Stop

  datatype Risk = Risk(
    stopLossPct: real,
    takeProfitPct: real,
    positionSizePct: real,
    dailyLossLimitPct: Option<real>,
    dailyLossAction: LossAction,
    maxConcurrentPositions: Option<nat>,
    maxTotalExposurePct: Option<real>)
  {
    /** The bounds that the schema puts on the fields. */
    predicate Valid() {
      && 0.0 <= stopLossPct
      && 0.0 <= takeProfitPct
      && 0.0 < positionSizePct <= 100.0
      && (dailyLossLimitPct.Some? ==> 0.0 <= dailyLossLimitPct.value <= 100.0)
      && (maxConcurrentPositions.Some? ==> 0 < maxConcurrentPositions.value)
      && (maxTotalExposurePct.Some? ==> 0.0 < maxTotalExposurePct.value <= 100.0)
    }
  }

  /** The parts of a strategy that the validator and the rule evaluator read: the names of its
      indicators and features, and its rules. */
  datatype Rules = Rules(
    indicators: set<string>,
    features: set<string>,
    entry: RuleSet,
    exit: RuleSet,
    regimeFilters: seq<Condition>)
  {
    function References(): set<string> {
      indicators + features + PRICE_FIELDS
    }
  }

  const PRICE_FIELDS: set<string> := {"open", "high", "low", "close", "volume"}

  // ----- The validator

  datatype Section = EntrySection | ExitSection | RegimeSection

  datatype ValidationError =
    | NoConditions(section: Section)
    | UnknownReference(section: Section)
    | CrossWithValue(section: Section)
    | NoTarget(section: Section)
    | TwoTargets(section: Section)

  function ValidateCondition(c: Condition, references: set<string>, section: Section): Result<(), ValidationError> {
    if c.left !in references then Err(UnknownReference(section))
    else if c.op.IsCross() then
      if c.right.None? || c.right.value !in references then Err(UnknownReference(section))
      else if c.literal.Some? then Err(CrossWithValue(section))
      else Ok(())
    else if c.right.None? && c.literal.None? then Err(NoTarget(section))
    else if c.right.Some? then
      if c.right.value !in references then Err(UnknownReference(section))
      else if c.literal.Some? then Err(TwoTargets(section))
      else Ok(())
    else Ok(())
  }

  /** The first condition that fails decides, in the order of the list. */
  function ValidateConditions(cs: seq<Condition>, references: set<string>, section: Section): Result<(),
                              ValidationError> {
    if cs == [] then Ok(())
    else
      var first := ValidateCondition(cs[0], references, section);
      if first.Err? then first else ValidateConditions(cs[1..], references, section)
  }

  function ValidateSection(rules: RuleSet, references: set<string>, section: Section): Result<(), ValidationError> {
    if rules.conditions == [] then Err(NoConditions(section))
    else ValidateConditions(rules.conditions, references, section)
  }

  function Validate(s: Rules): Result<(), ValidationError> {
    var entry := ValidateSection(s.entry, s.References(), EntrySection);
    if entry.Err? then entry else
    var exit := ValidateSection(s.exit, s.References(), ExitSection);
    if exit.Err? then exit else
    ValidateConditions(s.regimeFilters, s.References(), RegimeSection)
  }

  /** What a usable condition is, said without the validator: every series it names exists, and it
      has exactly one target, which for a crossing is a series. */
  ghost predicate Usable(c: Condition, references: set<string>) {
    && c.left in references
    && (c.right.Some? ==> c.right.value in references)
    && (c.right.Some? <==> c.literal.None?)
    && (c.op.IsCross() ==> c.right.Some?)
  }

  lemma {:induction false} ValidateConditionsIff(cs: seq<Condition>, references: set<string>, section: Section)
    ensures ValidateConditions(cs, references, section).Ok? <==> forall c | c in cs :: Usable(c, references)
  {
    if cs != [] {
      ValidateConditionsIff(cs[1..], references, section);
      assert ValidateCondition(cs[0], references, section).Ok? <==> Usable(cs[0], references);
      assert cs == [cs[0]] + cs[1..];
    }
  }

  /** The validator accepts exactly the strategies with a condition in each rule and only usable ones; a name is
      usable when an indicator, a feature or a field of the bars has it. */
  lemma ValidateIff(s: Rules)
    ensures forall name ::
              name in s.References() <==> || name in s.indicators || name in s.features
                                          || name in {"open", "high", "low", "close", "volume"}
    ensures Validate(s).Ok? <==>
            && s.entry.conditions != []
            && s.exit.conditions != []
            && forall c | c in s.entry.conditions + s.exit.conditions + s.regimeFilters :: Usable(c, s.References())
  {
    ValidateConditionsIff(s.entry.conditions, s.References(), EntrySection);
    ValidateConditionsIff(s.exit.conditions, s.References(), ExitSection);
    ValidateConditionsIff(s.regimeFilters, s.References(), RegimeSection);
  }

  // ----- The rule evaluator

  type Series = seq<Option<real>>

  type Values = map<string, Series>

  /** The exceptions of the evaluator: a missing key, an index past the end, the assertion on the
      target, and a literal that is not a number. */
  datatype RuleError = MissingSeries | IndexOutOfRange | NoTargetAsserted | LiteralNotANumber

  function Lookup(values: Values, name: string, index: nat): Result<Option<real>, RuleError> {
    if name !in values then Err(MissingSeries)
    else if index >= |values[name]| then Err(IndexOutOfRange)
    else Ok(values[name][index])
  }

  function Compare(op: Operator, current: real, target: real): bool
    requires !op.IsCross()
  {
    match op
    case LessThan => current < target
    case LessEqual => current <= target
    case GreaterThan => current > target
    case GreaterEqual => current >= target
    case Equal => current == target
  }

  function MatchCross(c: Condition, current: real, values: Values, index: nat): Result<bool, RuleError>
    requires c.op.IsCross()
  {
    if index == 0 || c.right.None? then Ok(false) else
    var right := Lookup(values, c.right.value, index);
    if right.Err? then Err(right.error) else
    var previousLeft := Lookup(values, c.left, index - 1);
    if previousLeft.Err? then Err(previousLeft.error) else
    var previousRight := Lookup(values, c.right.value, index - 1);
    if previousRight.Err? then Err(previousRight.error)
    else if right.value.None? || previousLeft.value.None? || previousRight.value.None? then Ok(false)
    else if c.op.CrossAbove? then
      Ok(previousLeft.value.value <= previousRight.value.value && current > right.value.value)
    else
      Ok(previousLeft.value.value >= previousRight.value.value && current < right.value.value)
  }

  function MatchCondition(c: Condition, values: Values, index: nat): Result<bool, RuleError> {
    var current := Lookup(values, c.left, index);
    if current.Err? then Err(current.error)
    else if current.value.None? then Ok(false)
    else if c.op.IsCross() then MatchCross(c, current.value.value, values, index)
    else if c.right.Some? then
      var target := Lookup(values, c.right.value, index);
      if target.Err? then Err(target.error)
      else if target.value.None? then Ok(false)
      else Ok(Compare(c.op, current.value.value, target.value.value))
    else
      match c.literal
      case None => Err(NoTargetAsserted)
      case Some(NotANumber) => Err(LiteralNotANumber)
      case Some(NotFinite) => Ok(false)
      case Some(Number(target)) => Ok(Compare(c.op, current.value.value, target))
  }

  /** The outcomes of the enabled conditions in order; the first exception ends the evaluation. */
  function Outcomes(cs: seq<Condition>, values: Values, index: nat): Result<seq<bool>, RuleError> {
    if cs == [] then Ok([])
    else if !cs[0].enabled then Outcomes(cs[1..], values, index)
    else
      var first := MatchCondition(cs[0], values, index);
      if first.Err? then Err(first.error) else
      var rest := Outcomes(cs[1..], values, index);
      if rest.Err? then rest else Ok([first.value] + rest.value)
  }

  function MatchRules(rules: RuleSet, values: Values, index: nat): Result<bool, RuleError> {
    var outcomes := Outcomes(rules.conditions, values, index);
    if outcomes.Err? then Err(outcomes.error)
    else if rules.logic.And? then Ok(outcomes.value != [] && false !in outcomes.value)
    else Ok(true in outcomes.value)
  }

  /** Every name that a rule may use has a series, and all series are as long as the bars. */
  ghost predicate Covers(values: Values, references: set<string>, bars: nat) {
    forall name | name in references :: name in values && |values[name]| == bars
  }

  ghost predicate Holds(c: Condition, values: Values, index: nat) {
    MatchCondition(c, values, index) == Ok(true)
  }

  /** The one way left for a usable condition to raise: its literal is not a number, and the series
      on its left has a value at this bar. */
  ghost predicate Trips(c: Condition, values: Values, index: nat) {
    && c.enabled
    && !c.op.IsCross()
    && c.literal == Some(NotANumber)
    && c.left in values
    && index < |values[c.left]|
    && values[c.left][index].Some?
  }

  lemma UsableTrips(c: Condition, values: Values, references: set<string>, bars: nat, index: nat)
    requires Usable(c, references) && Covers(values, references, bars) && index < bars && c.enabled
    ensures MatchCondition(c, values, index).Err? <==> Trips(c, values, index)
    ensures MatchCondition(c, values, index).Err? ==> MatchCondition(c, values, index) == Err(LiteralNotANumber)
  {
  }

  lemma {:induction false} OutcomesMeaning(cs: seq<Condition>, values: Values, references: set<string>, bars: nat,
                                           index: nat)
    requires forall c | c in cs :: Usable(c, references)
    requires Covers(values, references, bars) && index < bars
    ensures var o := Outcomes(cs, values, index);
            && (o.Err? <==> exists c | c in cs :: Trips(c, values, index))
            && (o.Err? ==> o == Err(LiteralNotANumber))
            && (o.Ok? ==>
                  && (o.value == [] <==> forall c | c in cs :: !c.enabled)
                  && (true in o.value <==> exists c | c in cs :: c.enabled && Holds(c, values, index))
                  && (false in o.value <==> exists c | c in cs :: c.enabled && !Holds(c, values, index)))
  {
    if cs != [] {
      assert forall c | c in cs :: c == cs[0] || c in cs[1..];
      OutcomesMeaning(cs[1..], values, references, bars, index);
      if cs[0].enabled {
        UsableTrips(cs[0], values, references, bars, index);
      }
      assert cs[0] in cs;
      assert forall c | c in cs[1..] :: c in cs;
    }
  }

  /** What a rule decides when evaluated: never on an empty set of enabled conditions. */
  ghost predicate Fires(rules: RuleSet, values: Values, index: nat) {
    && (exists c | c in rules.conditions :: c.enabled)
    && if rules.logic.And?
       then forall c | c in rules.conditions && c.enabled :: Holds(c, values, index)
       else exists c | c in rules.conditions && c.enabled :: Holds(c, values, index)
  }

  /** For a validated strategy over series that cover its references, evaluating the entry or exit
      rule at any bar raises exactly when some enabled condition trips on a literal that is not a
      number; no series is missing, no index is out of range, and the assertion never fails. When
      it does not raise it decides what the rule means. */
  lemma ValidatedRulesAreTotal(s: Rules, values: Values, bars: nat, index: nat)
    requires Validate(s).Ok? && Covers(values, s.References(), bars) && index < bars
    ensures forall rules | rules in {s.entry, s.exit} ::
              var outcome := MatchRules(rules, values, index);
              && (outcome.Err? <==> exists c | c in rules.conditions :: Trips(c, values, index))
              && (outcome.Err? ==> outcome.error == LiteralNotANumber)
              && (outcome.Ok? ==> outcome.value == Fires(rules, values, index))
  {
    ValidateIff(s);
    forall rules | rules in {s.entry, s.exit}
      ensures var outcome := MatchRules(rules, values, index);
              && (outcome.Err? <==> exists c | c in rules.conditions :: Trips(c, values, index))
              && (outcome.Err? ==> outcome.error == LiteralNotANumber)
              && (outcome.Ok? ==> outcome.value == Fires(rules, values, index))
    {
      OutcomesMeaning(rules.conditions, values, s.References(), bars, index);
    }
  }

  /** The validator does not look at the type of a literal, so it accepts a strategy whose entry rule
      raises on the first bar. */
  lemma ValidatedRuleCanRaise()
    ensures exists s: Rules, values: Values ::
              Validate(s).Ok? && Covers(values, s.References(), 1)
                  && MatchRules(s.entry, values, 0) == Err(LiteralNotANumber)
  {
    var c := Condition(GreaterThan, "close", None, Some(NotANumber), true);
    var rules := RuleSet(And, [c]);
    var s := Rules({}, {}, rules, rules, []);
    var values: Values := map name | name in PRICE_FIELDS :: [Some(1.0)];
    ValidateIff(s);
    assert c in rules.conditions && Trips(c, values, 0);
    ValidatedRulesAreTotal(s, values, 1, 0);
    assert rules in {s.entry, s.exit};
  }

  // ----- Two evaluations at the same bar over series that agree so far

  /** Both hold the same series, which agree up to and including `index`. */
  ghost predicate AgreeThrough(a: Values, b: Values, index: nat) {
    && a.Keys == b.Keys
    && forall name | name in a ::
         && |a[name]| > index && |b[name]| > index
         && a[name][..index + 1] == b[name][..index + 1]
  }

  lemma LookupAgrees(a: Values, b: Values, index: nat, name: string, at: nat)
    requires AgreeThrough(a, b, index) && at <= index
    ensures Lookup(a, name, at) == Lookup(b, name, at)
  {
    if name in a {
      assert a[name][at] == a[name][..index + 1][at];
      assert b[name][at] == b[name][..index + 1][at];
    }
  }

  lemma {:induction false} OutcomesAgree(cs: seq<Condition>, a: Values, b: Values, index: nat)
    requires AgreeThrough(a, b, index)
    ensures Outcomes(cs, a, index) == Outcomes(cs, b, index)
  {
    if cs != [] {
      OutcomesAgree(cs[1..], a, b, index);
      var c := cs[0];
      LookupAgrees(a, b, index, c.left, index);
      if c.right.Some? {
        LookupAgrees(a, b, index, c.right.value, index);
      }
      if index > 0 {
        LookupAgrees(a, b, index, c.left, index - 1);
        if c.right.Some? {
          LookupAgrees(a, b, index, c.right.value, index - 1);
        }
      }
    }
  }

  /** A rule reads nothing after the bar it is evaluated at. */
  lemma MatchRulesAgree(rules: RuleSet, a: Values, b: Values, index: nat)
    requires AgreeThrough(a, b, index)
    ensures MatchRules(rules, a, index) == MatchRules(rules, b, index)
  {
    OutcomesAgree(rules.conditions, a, b, index);
  }
}
