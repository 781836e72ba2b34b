/** What the conditions of a rule mean over whole series: when crossings fire, how the comparisons divide the
    bars between them, and which operator a document's word stands for. */
module RuleMeaning {
  import opened Prelude
  import opened Strategy
  import D = StrategyDocument

  // ----- Crossings

  /** The series has a value at every bar from `i` to `j`. */
  predicate Known(values: Values, name: string, i: nat, j: nat) {
    name in values && i <= j < |values[name]| && forall k | i <= k <= j :: values[name][k].Some?
  }

  function Value(values: Values, name: string, k: nat): real
    requires Known(values, name, k, k)
  {
    values[name][k].value
  }

  lemma KnownPart(values: Values, name: string, i: nat, j: nat, a: nat, b: nat)
    requires Known(values, name, i, j) && i <= a <= b <= j
    ensures Known(values, name, a, b)
  {
  }

  /** The left series is above the right one at `k`. */
  ghost predicate Above(values: Values, left: string, right: string, k: nat) {
    Known(values, left, k, k) && Known(values, right, k, k) && Value(values, left, k) > Value(values, right, k)
  }

  /** A crossing of two named series. */
  predicate Crossing(c: Condition, op: Operator) {
    c.op == op && c.right.Some?
  }

  /** A crossing at one bar. */
  lemma CrossStep(c: Condition, values: Values, k: nat)
    requires c.op.IsCross() && c.right.Some? && k > 0
    requires Known(values, c.left, k - 1, k) && Known(values, c.right.value, k - 1, k)
    ensures c.op.CrossAbove? ==>
              (Holds(c, values, k) <==>
                 !Above(values, c.left, c.right.value, k - 1) && Above(values, c.left, c.right.value, k))
    ensures c.op.CrossBelow? ==>
              (Holds(c, values, k) <==>
                 !Above(values, c.right.value, c.left, k - 1) && Above(values, c.right.value, c.left, k))
  {
  }

  /** Between two bars over which both series have values and at the first of which the left one is not above
      the right one, `cross_above` fires if and only if the left one is above the right one at some bar. */
  lemma {:induction false} CrossAboveIff(c: Condition, values: Values, i: nat, j: nat)
    requires Crossing(c, CrossAbove)
    requires Known(values, c.left, i, j) && Known(values, c.right.value, i, j)
    requires !Above(values, c.left, c.right.value, i)
    ensures (exists k: nat :: i < k <= j && Holds(c, values, k))
            <==> exists k: nat :: i < k <= j && Above(values, c.left, c.right.value, k)
    decreases j
  {
    hide Holds, Above, Known;
    if i < j {
      KnownBefore(values, c, i, j);
      CrossAboveIff(c, values, i, j - 1);
      CrossStep(c, values, j);
    }
  }

  lemma KnownBefore(values: Values, c: Condition, i: nat, j: nat)
    requires c.right.Some? && i < j && Known(values, c.left, i, j) && Known(values, c.right.value, i, j)
    ensures Known(values, c.left, i, j - 1) && Known(values, c.right.value, i, j - 1)
    ensures Known(values, c.left, j - 1, j) && Known(values, c.right.value, j - 1, j)
  {
  }

  /** The same for `cross_below`, with the two series in the other places. */
  lemma {:induction false} CrossBelowIff(c: Condition, values: Values, i: nat, j: nat)
    requires Crossing(c, CrossBelow)
    requires Known(values, c.left, i, j) && Known(values, c.right.value, i, j)
    requires !Above(values, c.right.value, c.left, i)
    ensures (exists k: nat :: i < k <= j && Holds(c, values, k))
            <==> exists k: nat :: i < k <= j && Above(values, c.right.value, c.left, k)
    decreases j
  {
    hide Holds, Above, Known;
    if i < j {
      KnownBefore(values, c, i, j);
      CrossBelowIff(c, values, i, j - 1);
      CrossStep(c, values, j);
    }
  }

  /** Between two bars at which `cross_above` fires there is one at which the left series is not above. */
  lemma {:induction false} CrossingsAlternate(c: Condition, values: Values, i: nat, j: nat)
    requires Crossing(c, CrossAbove) && 0 < i < j
    requires Known(values, c.left, i - 1, j) && Known(values, c.right.value, i - 1, j)
    requires Holds(c, values, i) && Holds(c, values, j)
    ensures exists k: nat :: i < k < j && !Above(values, c.left, c.right.value, k)
  {
    KnownPart(values, c.left, i - 1, j, i - 1, i);
    KnownPart(values, c.right.value, i - 1, j, i - 1, i);
    KnownPart(values, c.left, i - 1, j, j - 1, j);
    KnownPart(values, c.right.value, i - 1, j, j - 1, j);
    CrossStep(c, values, i);
    CrossStep(c, values, j);
    hide Holds, Above, Known;
    assert !Above(values, c.left, c.right.value, j - 1);
  }

  // ----- Comparisons

  /** What a condition that is no crossing compares with at a bar, if there is something. */
  function Target(c: Condition, values: Values, k: nat): Option<real> {
    if c.right.Some? then
      if c.right.value in values && k < |values[c.right.value]| then values[c.right.value][k] else None
    else
      match c.literal
      case Some(Number(x)) => Some(x)
      case _ => None
  }

  function Current(c: Condition, values: Values, k: nat): Option<real> {
    if c.left in values && k < |values[c.left]| then values[c.left][k] else None
  }

  /** The same condition with another operator. */
  function With(c: Condition, op: Operator): Condition {
    c.(op := op)
  }

  /** Where there is nothing to compare no comparison holds. Otherwise exactly one of less, equal and greater does,
      and the two others are their unions. */
  lemma ComparisonsDivide(c: Condition, values: Values, k: nat)
    ensures var less, equal, greater :=
              Holds(With(c, LessThan), values, k), Holds(With(c, Equal), values, k),
              Holds(With(c, GreaterThan), values, k);
            && (Current(c, values, k).None? || Target(c, values, k).None? <==> !less && !equal && !greater)
            && !(less && equal) && !(less && greater) && !(equal && greater)
            && (Holds(With(c, LessEqual), values, k) <==> less || equal)
            && (Holds(With(c, GreaterEqual), values, k) <==> equal || greater)
  {
  }

  /** Raising the value on the left never turns a greater condition off nor a less condition on, and far enough
      up every greater condition holds and no less condition does; far enough down it is the other way round. */
  lemma RaisingTurns(c: Condition, values: Values, k: nat, x: real)
    requires !c.op.IsCross() && !c.op.Equal? && c.left in values && k < |values[c.left]| && values[c.left][k].Some?
    requires c.right != Some(c.left) && Target(c, values, k).Some?
    ensures var moved := values[c.left := values[c.left][k := Some(x)]];
            var greater := c.op.GreaterThan? || c.op.GreaterEqual?;
            && (x >= values[c.left][k].value && Holds(c, values, k) == greater ==> Holds(c, moved, k) == greater)
            && (x > Target(c, values, k).value ==> Holds(c, moved, k) == greater)
            && (x < Target(c, values, k).value ==> Holds(c, moved, k) == !greater)
  {
  }

  /** A series is never above or below itself. */
  lemma AgainstItself(c: Condition, values: Values, k: nat)
    requires !c.op.IsCross() && c.right == Some(c.left) && Current(c, values, k).Some?
    ensures Holds(c, values, k) <==> c.op in {Equal, LessEqual, GreaterEqual}
  {
  }

  // ----- Words

  const LESS: set<string> := {"less_than", "lt", "less_equal", "lte", "le"}

  const GREATER: set<string> := {"greater_than", "gt", "greater_equal", "gte", "ge"}

  const EVEN: set<string> := {"less_equal", "lte", "le", "greater_equal", "gte", "ge", "equal", "eq"}

  lemma WordsKnown(word: string)
    ensures D.OperatorOf(word).Some? <==> word in LESS + GREATER + EVEN + {"cross_above", "cross_below"}
    ensures D.OperatorOf(word) == Some(CrossAbove) <==> word == "cross_above"
    ensures D.OperatorOf(word) == Some(CrossBelow) <==> word == "cross_below"
  {
  }

  /** A comparison read from a word holds where two values are there and lie as the word says. */
  lemma WordsDecide(word: string, c: Condition, values: Values, k: nat)
    requires D.OperatorOf(word) == Some(c.op) && !c.op.IsCross()
    ensures Holds(c, values, k) <==>
              && Current(c, values, k).Some? && Target(c, values, k).Some?
              && var x, y := Current(c, values, k).value, Target(c, values, k).value;
                 (x < y && word in LESS) || (x > y && word in GREATER) || (x == y && word in EVEN)
  {
  }
}
