/** What the bridge from an intent accepts, what it makes of it, how far an accepted operation can reach in the
    document, and in which order the operations are made. */
module IntentMeaning {
  import opened Prelude
  import opened Strategy
  import opened StrategyDocument
  import opened IntentBridge
  import M = Mutation

  // ----- What is accepted

  /** The path leads into the section, past its name. */
  ghost predicate Inside(path: Option<Path>, section: string) {
    exists name: string, rest: Path :: path == Some([section, name] + rest)
  }

  lemma InsideIff(path: Option<Path>, section: string)
    ensures Under(path, section) <==> Inside(path, section)
  {
    if Under(path, section) {
      assert path.value == [section, path.value[1]] + path.value[2..];
    }
  }

  /** The path leads to the period of an indicator, or to one of its parameters or through them. */
  ghost predicate LeadsToParameter(path: Path) {
    || (exists rest: Path :: path == ["indicators"] + rest + ["period"])
    || (exists above: Path, below: Path :: below != [] && path == ["indicators"] + above + ["parameters"] + below)
  }

  lemma ParameterPathIff(path: Path)
    ensures IsParameterPath(path) <==>
              || LeadsToParameter(path)
              || exists field | field in RISK_FIELDS :: path == ["risk", field]
  {
    if path != [] && path[0] == "indicators" && |path| > 1 {
      if path[|path| - 1] == "period" {
        assert path == ["indicators"] + path[1..|path| - 1] + ["period"];
      }
      if i :| 1 <= i < |path| - 1 && path[i] == "parameters" {
        assert path == ["indicators"] + path[1..i] + ["parameters"] + path[i + 1..];
      }
    }
    if rest: Path :| path == ["indicators"] + rest + ["period"] {
      assert path[0] == "indicators" && path[|path| - 1] == "period";
    }
    if above: Path, below: Path :| below != [] && path == ["indicators"] + above + ["parameters"] + below {
      assert path[0] == "indicators" && path[1 + |above|] == "parameters";
    }
  }

  const SPECIAL: set<M.OpName> :=
    {M.ADD_REGIME_FILTER, M.ADD_RULE, M.REPLACE_RULE, M.ADD_FEATURE, M.ADD_INDICATOR, M.SWAP_INDICATOR,
     M.CHANGE_AND_OR, M.SET_PARAMETER, M.REMOVE_REGIME_FILTER, M.REMOVE_FEATURE, M.REMOVE_INDICATOR}

  /** Which operations on rules the bridge lets through: each with a path of its own and with what it puts there. */
  lemma AcceptedRuleIff(i: Proposed)
    requires i.Proposed?
    ensures i.op == M.ADD_REGIME_FILTER ==>
              (Bridge(i).Ok? <==> i.condition.Some? && (i.path == None || i.path == Some(["regime_filters"])))
    ensures i.op == M.ADD_RULE ==>
              (Bridge(i).Ok? <==>
                 && i.condition.Some?
                 && (i.path == Some(["entry", "conditions"]) || i.path == Some(["exit", "conditions"])))
    ensures i.op == M.REPLACE_RULE ==>
              (Bridge(i).Ok? <==> i.path.Some? && (i.condition.None? || "conditions" in i.path.value[Least(i.path)..]))
    ensures i.op == M.CHANGE_AND_OR ==>
              (Bridge(i).Ok? <==> i.path == Some(["entry", "logic"]) || i.path == Some(["exit", "logic"]))
  {
    hide ShortCondition, IsParameterPath, Under;
    if i.path.Some? {
      if k :| 1 <= k < |i.path.value| && i.path.value[k] == "conditions" {
        assert i.path.value[1..][k - 1] == "conditions";
      }
      if |i.path.value| > 0 && "conditions" in i.path.value[1..] {
        var k :| 0 <= k < |i.path.value| - 1 && i.path.value[1..][k] == "conditions";
        assert i.path.value[k + 1] == "conditions";
      }
    }
  }

  /** And which other ones. */
  lemma AcceptedIff(i: Proposed)
    requires i.Proposed?
    ensures i.op == M.ADD_FEATURE ==> (Bridge(i).Ok? <==> i.feature.Some? && Inside(i.path, "features"))
    ensures i.op == M.ADD_INDICATOR || i.op == M.SWAP_INDICATOR ==>
              (Bridge(i).Ok? <==> i.indicator.Some? && Inside(i.path, "indicators"))
    ensures i.op == M.SET_PARAMETER ==>
              (Bridge(i).Ok? <==>
                 && i.path.Some?
                 && (|| LeadsToParameter(i.path.value)
                     || exists field | field in RISK_FIELDS :: i.path.value == ["risk", field]))
    ensures i.op == M.REMOVE_REGIME_FILTER ==> (Bridge(i).Ok? <==> i.path.Some? && i.path != Some(["regime_filters"]))
    ensures i.op == M.REMOVE_FEATURE ==> (Bridge(i).Ok? <==> Inside(i.path, "features"))
    ensures i.op == M.REMOVE_INDICATOR ==> (Bridge(i).Ok? <==> Inside(i.path, "indicators"))
    ensures i.op !in SPECIAL ==> (Bridge(i).Ok? <==> i.path.Some?)
  {
    hide ShortCondition, IsParameterPath, OnConditions, LeadsToParameter, Inside;
    InsideIff(i.path, "features");
    InsideIff(i.path, "indicators");
    if i.path.Some? {
      ParameterPathIff(i.path.value);
    }
  }

  /** Past the first part of a path, if it has one. */
  function Least(path: Option<Path>): (n: nat)
    ensures path.Some? ==> n <= |path.value|
  {
    if path.Some? && path.value != [] then 1 else 0
  }

  /** What comes through is the same operation at the same place, with what the intent puts there. */
  lemma PassedOn(i: Proposed, o: M.Operation, r: Reading)
    requires i.Proposed? && Bridge(i) == Ok(Some(o)) && r.Faithful()
    requires i.condition.Some? ==> FitsCondition(i.condition.value) && Settled(i.condition.value)
    ensures o.op == i.op
    ensures o.path == if i.op == M.ADD_REGIME_FILTER then Some(["regime_filters"]) else i.path
    ensures i.op in {M.ADD_REGIME_FILTER, M.ADD_RULE, M.REPLACE_RULE} && i.condition.Some? ==>
              ReadCondition(o.value, r) == i.condition
    ensures i.op == M.ADD_FEATURE ==> o.feature == i.feature && i.feature.Some?
    ensures i.op in {M.ADD_INDICATOR, M.SWAP_INDICATOR} ==> Some(o.value) == i.indicator
    ensures i.op == M.CHANGE_AND_OR ==>
              o.value == match i.logic
                         case None => NULL
                         case Some(And) => M.Text("AND")
                         case Some(Or) => M.Text("OR")
    ensures i.op !in SPECIAL || i.op == M.SET_PARAMETER ==> o.value == i.value
  {
    hide ShortCondition, IsParameterPath, Under, Reading.Faithful, ReadCondition, FitsCondition, Settled;
    if i.condition.Some? {
      ShortRead(i.condition.value, r);
    }
    assert i.path.Some? ==> Some(i.path.value) == i.path;
  }

  // ----- How far an accepted operation reaches

  /** An edit of an object stays in the field that its path begins with. */
  lemma StaysInField(m: map<string, Json>, p: Path, e: M.Final)
    requires p != [] && M.Edited(M.Obj(m), p, e).Ok?
    ensures M.Edited(M.Obj(m), p, e).value.Obj?
    ensures M.Edited(M.Obj(m), p, e).value.fields - {p[0]} == m - {p[0]}
  {
    hide M.Changed;
  }

  /** The section that an operation of a kind is confined to. */
  function Confines(op: M.OpName): set<string> {
    match op
    case ADD_FEATURE | REMOVE_FEATURE => {"features"}
    case ADD_INDICATOR | SWAP_INDICATOR | REMOVE_INDICATOR => {"indicators"}
    case ADD_RULE | CHANGE_AND_OR => {"entry", "exit"}
    case ADD_REGIME_FILTER => {"regime_filters"}
    case SET_PARAMETER => {"indicators", "risk"}
    case CHANGE_STOP | CHANGE_TAKE_PROFIT | CHANGE_TRAILING_STOP | CHANGE_POSITION_SIZE => {"risk"}
    case _ => {}
  }

  /** Whatever the intent says, an accepted operation of one of these kinds leaves all of the document as it was but
      the sections it is for: features and indicators never touch the rules, rules never the risk settings. */
  lemma AcceptedStaysInside(i: Proposed, o: M.Operation, m: map<string, Json>)
    requires i.Proposed? && Bridge(i) == Ok(Some(o)) && Confines(i.op) != {} && M.Applied(M.Obj(m), o).Ok?
    ensures M.Applied(M.Obj(m), o).value.Obj?
    ensures M.Applied(M.Obj(m), o).value.fields - Confines(i.op) == m - Confines(i.op)
  {
    hide M.Edited, ShortCondition;
    var c := M.ChangeOf(o).value;
    StaysInField(m, c.parts, c.e);
    var after := M.Edited(M.Obj(m), c.parts, c.e).value.fields;
    assert c.parts[0] in Confines(i.op);
    assert after - Confines(i.op) == (after - {c.parts[0]}) - Confines(i.op);
    assert m - Confines(i.op) == (m - {c.parts[0]}) - Confines(i.op);
  }

  // ----- The order

  /** The operations of some kinds, in the order given. */
  function Among(ops: seq<M.Operation>, kinds: set<M.OpName>): seq<M.Operation> {
    if ops == [] then []
    else Among(ops[..|ops| - 1], kinds) + if ops[|ops| - 1].op in kinds then [ops[|ops| - 1]] else []
  }

  const DECLARES: set<M.OpName> := {M.ADD_INDICATOR, M.ADD_FEATURE}

  const SETS: set<M.OpName> := {M.SET_PARAMETER, M.SWAP_INDICATOR}

  const RULES: set<M.OpName> := {M.ADD_RULE, M.REPLACE_RULE, M.ADD_REGIME_FILTER}

  const OTHERS: set<M.OpName> :=
    {M.REMOVE_RULE, M.ENABLE_RULE, M.DISABLE_RULE, M.CHANGE_AND_OR, M.REMOVE_FEATURE, M.REMOVE_INDICATOR,
     M.REMOVE_REGIME_FILTER, M.CHANGE_ENTRY, M.CHANGE_EXIT, M.CHANGE_STOP, M.CHANGE_TAKE_PROFIT,
     M.CHANGE_TRAILING_STOP, M.CHANGE_POSITION_SIZE, M.OTHER_OP}

  lemma {:induction false} LevelAmong(ops: seq<M.Operation>, priority: nat, kinds: set<M.OpName>)
    requires forall op :: M.Priority(op) == priority <==> op in kinds
    ensures M.Level(ops, priority) == Among(ops, kinds)
  {
    hide M.Priority;
    if ops != [] {
      LevelAmong(ops[..|ops| - 1], priority, kinds);
    }
  }

  lemma KindsRanked(op: M.OpName)
    ensures M.Priority(op) == if op in DECLARES then 0 else if op in SETS then 1 else if op in RULES then 2 else 3
    ensures op in OTHERS <==> op !in DECLARES && op !in SETS && op !in RULES
    ensures DECLARES !! SETS && DECLARES !! RULES && SETS !! RULES
  {
  }

  /** The operations are made in this order: what declares an indicator or a feature, what sets or swaps one, what
      adds or replaces conditions, and all others; inside these groups in the order of the intent. */
  lemma OrderedByKind(ops: seq<M.Operation>)
    ensures M.Ordered(ops) == Among(ops, DECLARES) + Among(ops, SETS) + Among(ops, RULES) + Among(ops, OTHERS)
  {
    hide M.Ordered, M.Priority, DECLARES, SETS, RULES, OTHERS;
    M.OrderedIsStable(ops);
    forall op
      ensures M.Priority(op) == if op in DECLARES then 0 else if op in SETS then 1 else if op in RULES then 2 else 3
      ensures op in OTHERS <==> op !in DECLARES && op !in SETS && op !in RULES
      ensures DECLARES !! SETS && DECLARES !! RULES && SETS !! RULES
    {
      KindsRanked(op);
    }
    LevelAmong(ops, 0, DECLARES);
    LevelAmong(ops, 1, SETS);
    LevelAmong(ops, 2, RULES);
    LevelAmong(ops, 3, OTHERS);
  }
}
