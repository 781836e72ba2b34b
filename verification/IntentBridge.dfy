/** From the operations of an intent to those made on a strategy: research/llm/intent_bridge.py. What it
    refuses, and what its reordering does to the child. */
module IntentBridge {
  import opened Prelude
  import opened Strategy
  import opened StrategyDocument
  import opened ChildBacktest
  import M = Mutation

  /** `CannotAssert` is the failed assertion on the path, which is not a refusal of the bridge's own kind. */
  datatype BridgeError = PathTarget | ValueType | FeatureRefused | CannotAssert

  type Path = seq<string>

  /** An operation as an intent has it, with a canonical path split at its dots. The feature is what the
      registry makes of the reference, if it does not refuse it. */
  datatype Proposed =
    | Retain
    | Proposed(op: M.OpName, path: Option<Path>, value: Json, condition: Option<ConditionDoc>,
               indicator: Option<Json>, feature: Option<Json>, logic: Option<Logic>)

  /** The dump of a condition without what is missing or as by default. */
  function ShortCondition(c: ConditionDoc): Json {
    M.Obj(
      map["op" := M.Text(OperatorName(c.op)), "left" := M.Text(c.left)]
      + (if c.right.None? then map[] else map["right" := M.Text(c.right.value)])
      + (if c.value == NULL then map[] else map["value" := c.value])
      + (if c.enabled then map[] else map["enabled" := M.Scalar(M.Flag(false))]))
  }

  predicate Under(path: Option<Path>, section: string) {
    path.Some? && |path.value| > 1 && path.value[0] == section
  }

  /** The path leads to or through a list of conditions. */
  predicate OnConditions(path: Option<Path>) {
    path.Some? && exists i | 1 <= i < |path.value| :: path.value[i] == "conditions"
  }

  const RISK_PATHS: set<Path> := set field | field in RISK_FIELDS :: ["risk", field]

  predicate IsParameterPath(path: Path) {
    if path != [] && path[0] == "indicators" && |path| > 1 then
      || path[|path| - 1] == "period"
      || exists i | 1 <= i < |path| - 1 :: path[i] == "parameters"
    else path in RISK_PATHS
  }

  predicate Edits(op: M.OpName) {
    op in {M.REMOVE_RULE, M.REMOVE_FEATURE, M.REMOVE_INDICATOR, M.REMOVE_REGIME_FILTER, M.ENABLE_RULE, M.DISABLE_RULE}
  }

  function WithCondition(op: M.OpName, path: Path, condition: Option<ConditionDoc>): Result<Option<M.Operation>,
                         BridgeError> {
    if condition.None? then Err(ValueType)
    else Ok(Some(M.Operation(op, Some(path), ShortCondition(condition.value), None)))
  }

  /** `_typed_operation_from_model`. */
  function Bridge(i: Proposed): Result<Option<M.Operation>, BridgeError> {
    match i
    case Retain => Ok(None)
    case Proposed(op, path, value, condition, indicator, feature, logic) =>
      if op == M.ADD_REGIME_FILTER then
        if path in {None, Some(["regime_filters"])} then WithCondition(op, ["regime_filters"], condition)
            else Err(PathTarget)
      else if op == M.ADD_RULE then
        if path in {Some(["entry", "conditions"]), Some(["exit", "conditions"])}
            then WithCondition(op, path.value, condition)
        else Err(PathTarget)
      else if op == M.REPLACE_RULE && condition.Some? then
        if OnConditions(path) then WithCondition(op, path.value, condition) else Err(PathTarget)
      else if op == M.ADD_FEATURE then
        if !Under(path, "features") then Err(PathTarget)
        else if feature.None? then Err(FeatureRefused)
        else Ok(Some(M.Operation(op, path, feature.value, feature)))
      else if op in {M.ADD_INDICATOR, M.SWAP_INDICATOR} then
        if !Under(path, "indicators") then Err(PathTarget)
        else if indicator.None? then Err(ValueType)
        else Ok(Some(M.Operation(op, path, indicator.value, None)))
      else if op == M.CHANGE_AND_OR then
        if path !in {Some(["entry", "logic"]), Some(["exit", "logic"])} then Err(PathTarget)
        else
          var word := if logic.None? then NULL else M.Text(if logic.value.And? then "AND" else "OR");
          Ok(Some(M.Operation(op, path, word, None)))
      else if op == M.SET_PARAMETER then
        if path.Some? && IsParameterPath(path.value) then Ok(Some(M.Operation(op, path, value, None)))
            else Err(PathTarget)
      else if Edits(op) && path.None? then Err(PathTarget)
      else if path.None? then Err(CannotAssert)
      else if op == M.REMOVE_REGIME_FILTER && path == Some(["regime_filters"]) then Err(PathTarget)
      else if op == M.REMOVE_FEATURE && !Under(path, "features") then Err(PathTarget)
      else if op == M.REMOVE_INDICATOR && !Under(path, "indicators") then Err(PathTarget)
      else Ok(Some(M.Operation(op, path, value, None)))
  }

  /** The operations that are not retained, until one is refused. */
  function Bridged(items: seq<Proposed>): Result<seq<M.Operation>, BridgeError> {
    if items == [] then Ok([])
    else
      var front := Bridged(items[..|items| - 1]);
      if front.Err? then front else
      var last := Bridge(items[|items| - 1]);
      if last.Err? then Err(last.error)
      else Ok(front.value + if last.value.Some? then [last.value.value] else [])
  }

  /** `intent_to_operations`; `selected` are the features that the intent selects. */
  function IntentOperations(items: seq<Proposed>, selected: seq<M.Operation>): Result<seq<M.Operation>, BridgeError> {
    var operations := Bridged(items);
    if operations.Err? then operations else Ok(M.Ordered(operations.value + selected))
  }

  /** The loop over the operations of an intent. */
  method BridgeLoop(items: seq<Proposed>) returns (r: Result<seq<M.Operation>, BridgeError>)
    ensures r == Bridged(items)
  {
    var operations := [];
    for i := 0 to |items|
      invariant Bridged(items[..i]) == Ok(operations)
    {
      assert items[..i + 1][..i] == items[..i];
      var next := Bridge(items[i]);
      if next.Err? {
        BridgeStops(items, i + 1);
        return Err(next.error);
      }
      operations := operations + if next.value.Some? then [next.value.value] else [];
    }
    assert items[..|items|] == items;
    return Ok(operations);
  }

  lemma {:induction false} BridgeStops(items: seq<Proposed>, i: nat)
    requires i <= |items| && Bridged(items[..i]).Err?
    ensures Bridged(items) == Bridged(items[..i])
  {
    hide Bridge;
    if i == |items| {
      assert items[..i] == items;
    } else {
      assert items[..|items| - 1][..i] == items[..i];
      BridgeStops(items[..|items| - 1], i);
    }
  }

  // ----- What is refused

  /** A change of a risk setting needs no path, since its field is fixed; but without one the assertion on
      the path fails, and it fails on nothing else but a rule replaced by no condition. */
  lemma AssertionIff(i: Proposed)
    requires i.Proposed? ==> i.op != M.OTHER_OP && i.op != M.CHANGE_ENTRY && i.op != M.CHANGE_EXIT
    ensures Bridge(i) == Err(CannotAssert)
            <==> && i.Proposed? && i.path.None?
                 && (M.RiskField(i.op).Some? || (i.op == M.REPLACE_RULE && i.condition.None?))
  {
    hide IsParameterPath, OnConditions;
  }

  /** A parameter is set in an indicator or in the risk settings, and nowhere else: never in a rule. */
  lemma ParameterIff(path: Option<Path>, value: Json)
    ensures Bridge(Proposed(M.SET_PARAMETER, path, value, None, None, None, None)).Ok?
            <==> path.Some? && IsParameterPath(path.value)
    ensures path.Some? && IsParameterPath(path.value) ==> path.value != [] && path.value[0] in {"indicators", "risk"}
  {
  }

  // ----- The reordering changes the child

  /** The document with other entry conditions. */
  function WithEntry(d: Document, cs: seq<ConditionDoc>): Document {
    d.(entry := d.entry.(conditions := cs))
  }

  lemma ShortFields(c: ConditionDoc)
    ensures ShortCondition(c).Obj?
    ensures var m := ShortCondition(c).fields;
            && m.Keys <= {"op", "left", "right", "value", "enabled"} && {"op", "left"} <= m.Keys
            && m["op"] == M.Text(OperatorName(c.op)) && m["left"] == M.Text(c.left)
            && Get(m, "right", NULL) == (if c.right.None? then NULL else M.Text(c.right.value))
            && Get(m, "value", NULL) == c.value
            && Get(m, "enabled", M.Scalar(M.Flag(true))) == M.Scalar(M.Flag(c.enabled))
            && ("enabled" in m <==> !c.enabled)
  {
    hide OperatorName;
  }

  /** The short dump of a condition is read as the condition. */
  lemma ShortRead(c: ConditionDoc, r: Reading)
    requires FitsCondition(c) && Settled(c) && r.Faithful()
    ensures ReadCondition(ShortCondition(c), r) == Some(c)
  {
    hide IsScalar, Plain, ShortCondition;
    ShortFields(c);
    assert OperatorOf(OperatorName(c.op)) == Some(c.op);
    assert r.lower(OperatorName(c.op)) == OperatorName(c.op);
    assert r.truth(M.Scalar(M.Flag(c.enabled))) == Some(c.enabled);
  }

  lemma {:induction false} ReadCons(j: Json, js: seq<Json>, c: ConditionDoc, cs: seq<ConditionDoc>, r: Reading)
    requires ReadCondition(j, r) == Some(c) && ReadConditions(js, r) == Some(cs)
    ensures ReadConditions([j] + js, r) == Some([c] + cs)
  {
    hide ReadCondition;
    if js == [] {
      assert [j] + js == [j] && [j][..0] == [];
      assert [] + [c] == [c] + cs;
      assert ReadConditions([j], r) == Some([] + [c]);
    } else {
      var n := |js| - 1;
      assert ([j] + js)[..n + 1] == [j] + js[..n];
      var front, last := ReadConditions(js[..n], r).value, ReadCondition(js[n], r).value;
      ReadCons(j, js[..n], c, front, r);
      assert [c] + (front + [last]) == [c] + front + [last];
    }
  }

  /** The dump of a document with the list of its entry conditions replaced. */
  function EntryReplaced(d: Document, js: seq<Json>): Json {
    M.EntryWith(Dump(d).fields, DumpRules(d.entry).fields, js)
  }

  lemma DumpEntry(d: Document)
    ensures Dump(d) == EntryReplaced(d, DumpConditions(d.entry.conditions))
  {
    hide Dump, DumpConditions;
    DumpSectionsIn(d);
    var g := DumpRules(d.entry).fields;
    assert g["conditions" := M.Arr(DumpConditions(d.entry.conditions))] == g;
    assert Dump(d).fields["entry" := DumpRules(d.entry)] == Dump(d).fields;
  }

  lemma RulesRead(rules: RuleDoc, js: seq<Json>, cs: seq<ConditionDoc>, r: Reading)
    requires ReadConditions(js, r) == Some(cs)
    ensures ReadRules(M.Obj(DumpRules(rules).fields["conditions" := M.Arr(js)]), r) == Some(rules.(conditions := cs))
  {
    hide ReadConditions, DumpConditions;
  }

  /** What stands in the fields of such a document. */
  lemma EntryIn(d: Document, js: seq<Json>)
    ensures EntryReplaced(d, js).Obj?
    ensures var m := EntryReplaced(d, js).fields;
            && HeaderIn(m, d.header)
            && DumpRules(d.entry).Obj?
            && m["entry"] == M.Obj(DumpRules(d.entry).fields["conditions" := M.Arr(js)])
            && SectionsIn(m["entry" := DumpRules(d.entry)], d)
            && m.Keys == FIELDS - {"id"}
  {
    hide Dump, DumpRules, DumpConditions, DumpRisk, DumpResearch, DumpProvenance, DumpIndicators, DumpFeatures,
         DumpTexts, DumpWhole;
    DumpObjects(d);
    DumpHeaderIn(d);
    DumpSectionsIn(d);
    var m, entry := Dump(d).fields, M.Obj(DumpRules(d.entry).fields["conditions" := M.Arr(js)]);
    assert EntryReplaced(d, js) == M.Obj(m["entry" := entry]);
    assert m["entry" := entry]["entry" := DumpRules(d.entry)] == m;
    hide EntryReplaced, SectionsIn;
  }

  lemma DumpObjects(d: Document)
    ensures Dump(d).Obj? && DumpRules(d.entry).Obj?
  {
  }

  /** Such a document is read as the document with the conditions that the list is read as. */
  lemma EntryRead(d: Document, js: seq<Json>, cs: seq<ConditionDoc>, r: Reading)
    requires Fits(d) && AllSettled(d) && r.Faithful() && ReadConditions(js, r) == Some(cs)
    ensures ReadDocument(EntryReplaced(d, js), r) == Some(WithEntry(d, cs))
  {
    hide Dump, ReadHeader, ReadIndicators, ReadFeatures, ReadRules, ReadConditions, ReadRisk, ReadOrigin, FitsIndicator,
         FitsFeature, FitsCondition, Settled, DumpRules, DumpConditions, DumpRisk, DumpResearch, DumpProvenance,
         DumpIndicators, DumpFeatures, DumpTexts, Reading.Faithful, Header.Valid, ReadTextList, HeaderIn;
    DumpHeaderIn(d);
    EntryIn(d, js);
    HeaderRound(EntryReplaced(d, js).fields, d.header, r);
    hide EntryReplaced;
    IndicatorsRound(d.indicators, r);
    FeaturesRound(d.features, r);
    RulesRead(d.entry, js, cs, r);
    RulesRound(d.exit, r);
    ConditionsRound(d.regimeFilters, r);
    RiskRound(d.risk, r);
    OriginRound(d.origin, r);
  }

  lemma ConditionsRead(cs: seq<ConditionDoc>, r: Reading)
    requires (forall c | c in cs :: FitsCondition(c) && Settled(c)) && r.Faithful()
    ensures ReadConditions(DumpConditions(cs), r) == Some(cs)
  {
    ConditionsRound(cs, r);
  }

  function Rule(op: M.OpName, path: Path, condition: Option<ConditionDoc>): Proposed {
    Proposed(op, Some(path), NULL, condition, None, None, None)
  }

  lemma BridgeTwo(a: Proposed, b: Proposed)
    requires Bridge(a).Ok? && Bridge(a).value.Some? && Bridge(b).Ok? && Bridge(b).value.Some?
    ensures Bridged([a, b]) == Ok([Bridge(a).value.value, Bridge(b).value.value])
  {
    hide Bridge;
    var x, y := Bridge(a).value.value, Bridge(b).value.value;
    assert [a, b][..1] == [a] && [a][..0] == [] && [] + [x] == [x] && [x] + [y] == [x, y];
    assert Bridged([]) == Ok([]);
    assert Bridged([a]) == Ok([x]);
  }

  lemma RuleBridged(op: M.OpName, path: Path, condition: Option<ConditionDoc>)
    requires OnConditions(Some(path))
    requires (op == M.REPLACE_RULE && condition.Some?) || (op in {M.REMOVE_RULE, M.DISABLE_RULE} && condition.None?)
    ensures Bridge(Rule(op, path, condition))
         == Ok(Some(M.Operation(op, Some(path), if condition.Some? then ShortCondition(condition.value) else NULL,
             None)))
  {
    hide ShortCondition, OnConditions;
  }

  const FIRST: Path := M.FIRST_CONDITION
  const ZERO: Path := ["entry", "conditions", "00"]

  lemma FirstChanges(value: Json)
    ensures OnConditions(Some(FIRST))
    ensures M.ChangeOf(M.Operation(M.REMOVE_RULE, Some(FIRST), value, None)) == Ok(M.Change(FIRST, M.Remove))
    ensures M.ChangeOf(M.Operation(M.REPLACE_RULE, Some(FIRST), value, None))
            == Ok(M.Change(FIRST, M.SetTo(value, false)))
  {
    assert FIRST[1] == "conditions" && "" !in FIRST;
  }

  lemma ZeroChanges(value: Json)
    ensures OnConditions(Some(ZERO))
    ensures M.ChangeOf(M.Operation(M.DISABLE_RULE, Some(ZERO), value, None))
         == Ok(M.Change(M.ZERO_ENABLED, M.SetTo(M.Scalar(M.Flag(false)), false)))
  {
    assert ZERO[1] == "conditions" && "" !in ZERO;
    assert ZERO + ["enabled"] == M.ZERO_ENABLED;
  }

  /** What two operations leave of a dump, in either order. */
  lemma RunPair(d: Json, a: M.Operation, b: M.Operation)
    requires M.Priority(a.op) > M.Priority(b.op)
    ensures M.Run(d, [a, b]) == if M.Applied(d, a).Err? then M.Applied(d, a) else M.Applied(M.Applied(d, a).value, b)
    ensures M.Run(d, M.Ordered([a, b])) == if M.Applied(d, b).Err? then M.Applied(d, b)
            else M.Applied(M.Applied(d, b).value, a)
  {
    hide M.Applied;
    M.RunTwo(d, a, b);
    M.RunTwo(d, b, a);
    M.OrderedTwo(a, b);
  }

  /** The edits of the first of two entry conditions: removed and the next one replaced, or replaced and
      removed. */
  lemma RemoveReplace(d: Document, value: Json)
    requires |d.entry.conditions| >= 2
    ensures var js := DumpConditions(d.entry.conditions);
            var remove := M.Operation(M.REMOVE_RULE, Some(FIRST), NULL, None);
            var replace := M.Operation(M.REPLACE_RULE, Some(FIRST), value, None);
            && M.Run(Dump(d), [remove, replace]) == Ok(EntryReplaced(d, [value] + js[2..]))
            && M.Run(Dump(d), M.Ordered([remove, replace])) == Ok(EntryReplaced(d, js[1..]))
  {
    hide M.Edited, M.Run, M.ChangeOf, M.EntryWith, Dump, DumpRules, DumpCondition;
    DumpObjects(d);
    var js := DumpConditions(d.entry.conditions);
    var m, g := Dump(d).fields, DumpRules(d.entry).fields;
    var remove := M.Operation(M.REMOVE_RULE, Some(FIRST), NULL, None);
    var replace := M.Operation(M.REPLACE_RULE, Some(FIRST), value, None);
    DumpEntry(d);
    FirstChanges(NULL);
    FirstChanges(value);
    M.EditFirst(m, g, js, M.Remove);
    M.EditFirst(m, g, js[1..], M.SetTo(value, false));
    M.EditFirst(m, g, js, M.SetTo(value, false));
    M.EditFirst(m, g, [value] + js[1..], M.Remove);
    assert js[1..][1..] == js[2..] && ([value] + js[1..])[1..] == js[1..];
    RunPair(Dump(d), remove, replace);
  }

  /** The first entry condition disabled and then replaced, or replaced and then disabled: the flag that a
      condition has in the dump is missing from the short dump of the replacement. */
  lemma DisableReplace(d: Document, value: Json)
    requires d.entry.conditions != [] && value.Obj? && "enabled" !in value.fields
    ensures var js := DumpConditions(d.entry.conditions);
            var disable := M.Operation(M.DISABLE_RULE, Some(ZERO), NULL, None);
            var replace := M.Operation(M.REPLACE_RULE, Some(FIRST), value, None);
            && M.Run(Dump(d), [disable, replace]) == Ok(EntryReplaced(d, [value] + js[1..]))
            && M.Run(Dump(d), M.Ordered([disable, replace])) == Err(M.PathNotFound)
  {
    hide M.Edited, M.Run, M.ChangeOf, M.EntryWith, Dump, DumpRules, DumpCondition;
    DumpObjects(d);
    var js := DumpConditions(d.entry.conditions);
    var m, g := Dump(d).fields, DumpRules(d.entry).fields;
    var disable := M.Operation(M.DISABLE_RULE, Some(ZERO), NULL, None);
    var replace := M.Operation(M.REPLACE_RULE, Some(FIRST), value, None);
    var off := M.Scalar(M.Flag(false));
    DumpEntry(d);
    FirstChanges(value);
    ZeroChanges(NULL);
    IsObject(d.entry.conditions[0]);
    ConditionFields(d.entry.conditions[0]);
    assert js == [js[0]] + js[1..];
    M.EditZero(m, g, js[0], js[1..], off);
    var flagged := M.Obj(js[0].fields["enabled" := off]);
    M.EditFirst(m, g, [flagged] + js[1..], M.SetTo(value, false));
    assert ([flagged] + js[1..])[1..] == js[1..];
    M.EditFirst(m, g, js, M.SetTo(value, false));
    M.EditZero(m, g, value, js[1..], off);
    RunPair(Dump(d), disable, replace);
  }

  /** The rules stay valid when conditions of the entry go, but not all. */
  lemma FewerValid(d: Document, n: nat, k: Reckoning)
    requires Validate(AsRules(d, k)).Ok? && n < |d.entry.conditions|
    ensures Validate(AsRules(WithEntry(d, d.entry.conditions[n..]), k)).Ok?
  {
    hide Validate, AsCondition, Usable;
    var fewer := WithEntry(d, d.entry.conditions[n..]);
    ValidateIff(AsRules(d, k));
    ValidateIff(AsRules(fewer, k));
    var cs := AsConditions(d.entry.conditions, k);
    assert AsConditions(fewer.entry.conditions, k) == cs[n..];
    var all, some := AsRules(d, k), AsRules(fewer, k);
    forall c | c in some.entry.conditions + some.exit.conditions + some.regimeFilters
      ensures Usable(c, some.References())
    {
      assert c in all.entry.conditions + all.exit.conditions + all.regimeFilters;
    }
  }

  /** Removing the first entry condition and then replacing the one that takes its place is accepted, and
      gives the child that it says; what the reordering makes of it, for any parent with two conditions or
      more, is the child without the first condition and without the new one. The two are the same only
      if the new condition is the one it replaces. */
  lemma OrderCanChangeMeaning(parent: Document, c: ConditionDoc, r: Reading, k: Reckoning)
    requires Fits(parent) && AllSettled(parent) && r.Faithful() && Validate(AsRules(parent, k)).Ok?
    requires |parent.entry.conditions| >= 2 && FitsCondition(c) && Settled(c)
    requires Validate(AsRules(WithEntry(parent, [c] + parent.entry.conditions[2..]), k)).Ok?
    ensures var items := [Rule(M.REMOVE_RULE, FIRST, None), Rule(M.REPLACE_RULE, FIRST, Some(c))];
            && Bridged(items).Ok? && IntentOperations(items, []).Ok?
            && Child(parent, Bridged(items).value, r, k) == Some(WithEntry(parent, [c] + parent.entry.conditions[2..]))
            && Child(parent, IntentOperations(items, []).value, r, k)
                == Some(WithEntry(parent, parent.entry.conditions[1..]))
    ensures WithEntry(parent, [c] + parent.entry.conditions[2..]) == WithEntry(parent, parent.entry.conditions[1..])
            <==> c == parent.entry.conditions[1]
  {
    hide Fits, AllSettled, Validate, M.Run, M.Ordered, Dump, ReadDocument, Bridge, Bridged, EntryReplaced,
         ShortCondition, Rule,
         Reading.Faithful, AsRules, DumpCondition, ReadConditions, FitsCondition, Settled, OnConditions;
    var cs := parent.entry.conditions;
    var remove, replace := Rule(M.REMOVE_RULE, FIRST, None), Rule(M.REPLACE_RULE, FIRST, Some(c));
    FirstChanges(NULL);
    RuleBridged(M.REMOVE_RULE, FIRST, None);
    RuleBridged(M.REPLACE_RULE, FIRST, Some(c));
    BridgeTwo(remove, replace);
    RemoveReplace(parent, ShortCondition(c));
    var js := DumpConditions(cs);
    assert js[1..] == DumpConditions(cs[1..]) && js[2..] == DumpConditions(cs[2..]);
    SettledParts(parent);
    ConditionsRead(cs[1..], r);
    ConditionsRead(cs[2..], r);
    ShortRead(c, r);
    ReadCons(ShortCondition(c), js[2..], c, cs[2..], r);
    EntryRead(parent, js[1..], cs[1..], r);
    EntryRead(parent, [ShortCondition(c)] + js[2..], [c] + cs[2..], r);
    FewerValid(parent, 1, k);
    var ops := Bridged([remove, replace]).value;
    assert ops + [] == ops;
    assert cs[1..] == [cs[1]] + cs[2..];
    assert ([c] + cs[2..])[0] == c && cs[1..][0] == cs[1];
  }

  lemma SettledParts(d: Document)
    requires Fits(d) && AllSettled(d)
    ensures forall c | c in d.entry.conditions :: FitsCondition(c) && Settled(c)
  {
  }

  /** A position with a leading zero: neither path is a prefix of the other, and yet both lead to the first
      condition. Disabling it as 00 and then replacing it as 0 is accepted and gives the child with the
      replacement; after the reordering there is no child, whatever the parent and the replacement. */
  lemma LeadingZeroChangesMeaning(parent: Document, c: ConditionDoc, r: Reading, k: Reckoning)
    requires Fits(parent) && AllSettled(parent) && r.Faithful() && parent.entry.conditions != []
    requires FitsCondition(c) && Settled(c) && c.enabled
    requires Validate(AsRules(WithEntry(parent, [c] + parent.entry.conditions[1..]), k)).Ok?
    ensures !(FIRST <= M.ZERO_ENABLED) && !(M.ZERO_ENABLED <= FIRST)
    ensures var items := [Rule(M.DISABLE_RULE, ZERO, None), Rule(M.REPLACE_RULE, FIRST, Some(c))];
            && Bridged(items).Ok? && IntentOperations(items, []).Ok?
            && Child(parent, Bridged(items).value, r, k) == Some(WithEntry(parent, [c] + parent.entry.conditions[1..]))
            && Child(parent, IntentOperations(items, []).value, r, k) == None
  {
    hide Fits, AllSettled, Validate, M.Run, M.Ordered, Dump, ReadDocument, Bridge, Bridged, EntryReplaced,
         ShortCondition, Rule,
         Reading.Faithful, AsRules, DumpCondition, ReadConditions, FitsCondition, Settled, OnConditions;
    assert FIRST[2] != M.ZERO_ENABLED[2];
    var cs := parent.entry.conditions;
    var disable, replace := Rule(M.DISABLE_RULE, ZERO, None), Rule(M.REPLACE_RULE, FIRST, Some(c));
    FirstChanges(NULL);
    ZeroChanges(NULL);
    RuleBridged(M.DISABLE_RULE, ZERO, None);
    RuleBridged(M.REPLACE_RULE, FIRST, Some(c));
    BridgeTwo(disable, replace);
    ShortFields(c);
    DisableReplace(parent, ShortCondition(c));
    var js := DumpConditions(cs);
    assert js[1..] == DumpConditions(cs[1..]);
    SettledParts(parent);
    ConditionsRead(cs[1..], r);
    ShortRead(c, r);
    ReadCons(ShortCondition(c), js[1..], c, cs[1..], r);
    EntryRead(parent, [ShortCondition(c)] + js[1..], [c] + cs[1..], r);
    var ops := Bridged([disable, replace]).value;
    assert ops + [] == ops;
  }
}
