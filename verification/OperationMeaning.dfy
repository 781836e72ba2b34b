/** What each operation on a document does, read back from the document: where it puts what, when it is refused, and
    which operations take each other back. */
module OperationMeaning {
  import opened Prelude
  import opened Mutation

  // ----- Positions

  /** The place in a list that decimal digits mean: counted from its start, or with a minus from its end, the last
      item being minus one; and none outside the list. */
  lemma PlacesOfDigits(digits: string, n: nat)
    requires digits != "" && Decimal(digits).Some?
    ensures var k := Decimal(digits).value;
            && Position(n, digits) == Position(n, "+" + digits) == (if k < n then Some(k) else None)
            && Position(n, "-" + digits)
               == (if k == 0 then (if n > 0 then Some(0) else None) else if k <= n then Some(n - k) else None)
  {
    DigitsOnly(digits);
    assert digits[0] in digits;
    assert ("+" + digits)[0] == '+' && ("+" + digits)[1..] == digits;
    assert ("-" + digits)[0] == '-' && ("-" + digits)[1..] == digits;
  }

  lemma {:induction false} DigitsOnly(digits: string)
    ensures Decimal(digits).Some? <==> forall c | c in digits :: '0' <= c <= '9'
  {
    if digits != [] {
      var front, last := digits[..|digits| - 1], digits[|digits| - 1];
      DigitsOnly(front);
      assert last in digits && forall c | c in front :: c in digits;
      assert forall c | c in digits :: c in front || c == last;
    }
  }

  // ----- The three kinds of change

  /** Setting needs a place that is there, and puts the value in it. */
  lemma {:induction false} SetMeans(d: Json, p: seq<string>, value: Json)
    requires p != []
    ensures Edited(d, p, SetTo(value, false)).Ok? <==> Read(d, p).Some?
    ensures Edited(d, p, SetTo(value, false)).Ok? ==> Read(Edited(d, p, SetTo(value, false)).value, p) == Some(value)
    decreases |p|
  {
    hide Edited, Read;
    if |p| > 1 {
      ReadFirst(d, p);
      Descend(d, p, SetTo(value, false));
      if Read(d, [p[0]]).Some? {
        var c := Read(d, [p[0]]).value;
        SetMeans(c, p[1..], value);
        if Edited(c, p[1..], SetTo(value, false)).Ok? {
          var x := Edited(c, p[1..], SetTo(value, false)).value;
          SetSlot(d, p[0], x, x);
          ReadFirst(Edited(d, p, SetTo(value, false)).value, p);
        }
      }
    } else {
      assert p == [p[0]];
      SetOne(d, p[0], value);
    }
  }

  lemma SetOne(d: Json, part: string, value: Json)
    ensures Edited(d, [part], SetTo(value, false)).Ok? <==> Read(d, [part]).Some?
    ensures Edited(d, [part], SetTo(value, false)).Ok? ==>
              Read(Edited(d, [part], SetTo(value, false)).value, [part]) == Some(value)
  {
    assert [part][1..] == [];
  }

  /** Setting back restores the document. */
  lemma {:induction false} SetBack(d: Json, p: seq<string>, value: Json)
    requires p != [] && Read(d, p).Some?
    ensures Edited(d, p, SetTo(value, false)).Ok?
    ensures Edited(Edited(d, p, SetTo(value, false)).value, p, SetTo(Read(d, p).value, false)) == Ok(d)
    decreases |p|
  {
    hide Edited, Read;
    var was := Read(d, p).value;
    if |p| > 1 {
      ReadFirst(d, p);
      var c := Read(d, [p[0]]).value;
      SetBack(c, p[1..], value);
      Descend(d, p, SetTo(value, false));
      var x := Edited(c, p[1..], SetTo(value, false)).value;
      SetSlot(d, p[0], x, c);
      Descend(Edited(d, p, SetTo(value, false)).value, p, SetTo(was, false));
      SetSame(d, p[0]);
    } else {
      assert p == [p[0]];
      SetSlot(d, p[0], value, was);
      SetSame(d, p[0]);
    }
  }

  lemma SetSame(d: Json, part: string)
    requires Read(d, [part]).Some?
    ensures Edited(d, [part], SetTo(Read(d, [part]).value, false)) == Ok(d)
  {
    assert [part][1..] == [];
    match d
    case Obj(m) => assert m[part := m[part]] == m;
    case Arr(xs) =>
      var i := Position(|xs|, part).value;
      assert xs[i := xs[i]] == xs;
    case _ =>
  }

  /** Setting where something may be new needs the container alone: an object takes any name, a list only a place
      that it has. */
  lemma AddMeans(d: Json, p: seq<string>, value: Json)
    requires p != [] && Edited(d, p, SetTo(value, true)).Ok?
    ensures Read(Edited(d, p, SetTo(value, true)).value, p) == Some(value)
    ensures Read(d, p).None? ==> Read(d, p[..|p| - 1]).Some? && Read(d, p[..|p| - 1]).value.Obj?
  {
    hide Edited, Read;
    EditedInside(d, p, SetTo(value, true));
    var n := |p| - 1;
    var after := Edited(d, p, SetTo(value, true)).value;
    assert p == p[..n] + [p[n]];
    ReadLast(d, p[..n], p[n]);
    ReadLast(after, p[..n], p[n]);
    AddOne(Read(d, p[..n]).value, p[n], value);
  }

  lemma AddOne(d: Json, part: string, value: Json)
    requires Edited(d, [part], SetTo(value, true)).Ok?
    ensures Read(Edited(d, [part], SetTo(value, true)).value, [part]) == Some(value)
    ensures Read(d, [part]).None? ==> d.Obj?
  {
    assert [part][1..] == [];
    match d
    case Arr(xs) => ReadNothing(xs[Position(|xs|, part).value]);
    case _ =>
  }

  lemma {:induction false} ReadLast(d: Json, front: seq<string>, last: string)
    ensures Read(d, front + [last]) == if Read(d, front).Some? then Read(Read(d, front).value, [last]) else None
    decreases |front|
  {
    hide Read;
    if front == [] {
      assert front + [last] == [last];
      ReadNothing(d);
    } else {
      assert (front + [last])[1..] == front[1..] + [last];
      ReadFirst(d, front + [last]);
      ReadFirst(d, front);
      if Read(d, [front[0]]).Some? {
        ReadLast(Read(d, [front[0]]).value, front[1..], last);
      }
    }
  }

  lemma ReadNothing(d: Json)
    ensures Read(d, []) == Some(d)
  {
  }

  /** Appending needs a list, and makes it longer by the value at its end. */
  lemma {:induction false} AppendMeans(d: Json, p: seq<string>, value: Json)
    requires p != []
    ensures Edited(d, p, AppendTo(value)).Ok? <==> Read(d, p).Some? && Read(d, p).value.Arr?
    ensures Edited(d, p, AppendTo(value)).Ok? ==>
              Read(Edited(d, p, AppendTo(value)).value, p) == Some(Arr(Read(d, p).value.items + [value]))
    decreases |p|
  {
    hide Edited, Read;
    if |p| > 1 {
      ReadFirst(d, p);
      Descend(d, p, AppendTo(value));
      if Read(d, [p[0]]).Some? {
        var c := Read(d, [p[0]]).value;
        AppendMeans(c, p[1..], value);
        if Edited(c, p[1..], AppendTo(value)).Ok? {
          var x := Edited(c, p[1..], AppendTo(value)).value;
          SetSlot(d, p[0], x, x);
          ReadFirst(Edited(d, p, AppendTo(value)).value, p);
        }
      }
    } else {
      assert p == [p[0]];
      AppendOne(d, p[0], value);
    }
  }

  lemma AppendOne(d: Json, part: string, value: Json)
    ensures Edited(d, [part], AppendTo(value)).Ok? <==> Read(d, [part]).Some? && Read(d, [part]).value.Arr?
    ensures Edited(d, [part], AppendTo(value)).Ok? ==>
              Read(Edited(d, [part], AppendTo(value)).value, [part]) == Some(Arr(Read(d, [part]).value.items + [value]))
  {
    assert [part][1..] == [];
  }

  /** Removing needs a place that is there; its container goes without it. */
  lemma RemoveMeans(d: Json, p: seq<string>)
    requires p != []
    ensures Edited(d, p, Remove).Ok? <==> Read(d, p).Some?
    ensures Edited(d, p, Remove).Ok? ==>
              var last := p[|p| - 1];
              var before, after := Read(d, p[..|p| - 1]), Read(Edited(d, p, Remove).value, p[..|p| - 1]);
              && before.Some?
              && after == Some(match before.value
                               case Obj(m) => Obj(m - {last})
                               case Arr(xs) =>
                                 var i := Position(|xs|, last);
                                 if i.Some? then Arr(Without(xs, i.value)) else Arr(xs)
                               case other => other)
  {
    hide Edited, Read;
    var n := |p| - 1;
    RemoveIff(d, p);
    if Edited(d, p, Remove).Ok? {
      EditedInside(d, p, Remove);
      RemoveOne(Read(d, p[..n]).value, p[n]);
    }
  }

  lemma {:induction false} RemoveIff(d: Json, p: seq<string>)
    requires p != []
    ensures Edited(d, p, Remove).Ok? <==> Read(d, p).Some?
    decreases |p|
  {
    hide Edited, Read;
    if |p| > 1 {
      ReadFirst(d, p);
      Descend(d, p, Remove);
      if Read(d, [p[0]]).Some? {
        RemoveIff(Read(d, [p[0]]).value, p[1..]);
      }
    } else {
      assert p == [p[0]];
      RemoveOne(d, p[0]);
    }
  }

  lemma RemoveOne(d: Json, part: string)
    ensures Edited(d, [part], Remove).Ok? <==> Read(d, [part]).Some?
    ensures Edited(d, [part], Remove).Ok? ==>
              Edited(d, [part], Remove).value ==
                match d
                case Obj(m) => Obj(m - {part})
                case Arr(xs) =>
                  var i := Position(|xs|, part);
                  if i.Some? then Arr(Without(xs, i.value)) else Arr(xs)
                case other => other
  {
    assert [part][1..] == [];
  }

  /** An edit below one name of an object leaves everything below its other names as it was. */
  lemma OtherNamesStay(d: Json, front: seq<string>, a: string, below: seq<string>, e: Final, b: string,
                       rest: seq<string>)
    requires a != b && Index(a).None?
    requires Edited(d, front + [a] + below, e).Ok?
    ensures Read(Edited(d, front + [a] + below, e).value, front + [b] + rest) == Read(d, front + [b] + rest)
  {
    hide Edited, Read, Elsewhere;
    NamesElsewhere(front, a, below, e, b, rest);
    EditedElsewhere(d, front + [a] + below, e, front + [b] + rest);
  }

  lemma {:induction false} NamesElsewhere(front: seq<string>, a: string, below: seq<string>, e: Final, b: string,
                                          rest: seq<string>)
    requires a != b && Index(a).None?
    ensures Elsewhere(front + [a] + below, e, front + [b] + rest)
  {
    hide Index;
    var p, q := front + [a] + below, front + [b] + rest;
    if front == [] {
      assert p[0] == a && q[0] == b;
    } else {
      NamesElsewhere(front[1..], a, below, e, b, rest);
      assert p[0] == q[0] == front[0];
      assert p[1..] == front[1..] + [a] + below && q[1..] == front[1..] + [b] + rest;
    }
  }

  // ----- The operations

  /** The path that an operation names is usable. */
  predicate Usable(o: Operation) {
    o.path.Some? && o.path.value != [] && "" !in o.path.value
  }

  const PUTS: set<OpName> :=
    {SET_PARAMETER, REPLACE_RULE, SWAP_INDICATOR, CHANGE_ENTRY, CHANGE_EXIT}

  /** The operations that put their value in a place that is there do just that, or are refused. */
  lemma PutMeans(d: Json, o: Operation)
    requires o.op in PUTS || (o.op == CHANGE_AND_OR && o.value in {Text("AND"), Text("OR")})
    ensures Applied(d, o).Ok? <==> Usable(o) && Read(d, o.path.value).Some?
    ensures Applied(d, o).Ok? ==>
              && Read(Applied(d, o).value, o.path.value) == Some(o.value)
              && Applied(Applied(d, o).value, o.(value := Read(d, o.path.value).value, op := SET_PARAMETER)) == Ok(d)
  {
    hide Edited, Read;
    if Usable(o) {
      SetMeans(d, o.path.value, o.value);
      if Read(d, o.path.value).Some? {
        SetBack(d, o.path.value, o.value);
      }
    }
  }

  lemma LogicChecked(d: Json, o: Operation)
    requires o.op == CHANGE_AND_OR && o.value !in {Text("AND"), Text("OR")}
    ensures Applied(d, o) == Err(InvalidLogic)
  {
  }

  /** A rule or a regime filter is added at the end of its list, and can be removed there again; without a path a
      filter goes into the list of all filters. */
  lemma AppendOperationMeans(d: Json, o: Operation)
    requires o.op == ADD_RULE || o.op == ADD_REGIME_FILTER
    ensures var path := if o.op == ADD_REGIME_FILTER && (o.path.None? || o.path.value == [])
                        then Some(["regime_filters"])
                        else if Usable(o) then o.path else None;
            && (Applied(d, o).Ok? <==> path.Some? && Read(d, path.value).Some? && Read(d, path.value).value.Arr?)
            && (Applied(d, o).Ok? ==>
                  Read(Applied(d, o).value, path.value) == Some(Arr(Read(d, path.value).value.items + [o.value])))
  {
    hide Edited, Read;
    AppendMeans(d, ["regime_filters"], o.value);
    if Usable(o) {
      AppendMeans(d, o.path.value, o.value);
    }
  }

  /** An indicator or a feature is put under a name that may be new. */
  lemma AddOperationMeans(d: Json, o: Operation)
    requires o.op == ADD_INDICATOR || (o.op == ADD_FEATURE && o.feature.Some?)
    requires Applied(d, o).Ok?
    ensures Usable(o)
    ensures Read(Applied(d, o).value, o.path.value) == Some(if o.op == ADD_INDICATOR then o.value else o.feature.value)
  {
    hide Edited, Read;
    AddMeans(d, o.path.value, if o.op == ADD_INDICATOR then o.value else o.feature.value);
  }

  const REMOVES: set<OpName> := {REMOVE_RULE, REMOVE_FEATURE, REMOVE_INDICATOR, REMOVE_REGIME_FILTER}

  /** What is removed has to be there; what is added under a new name of an object and removed again leaves no
      trace. */
  lemma AddThenRemove(d: Json, add: Operation, remove: Operation)
    requires (add.op == ADD_INDICATOR || (add.op == ADD_FEATURE && add.feature.Some?)) && remove.op in REMOVES
    requires add.path == remove.path && Usable(add) && Read(d, add.path.value).None? && Applied(d, add).Ok?
    ensures Applied(d, remove).Err?
    ensures Applied(Applied(d, add).value, remove) == Ok(d)
  {
    hide Edited, Read;
    var value := if add.op == ADD_INDICATOR then add.value else add.feature.value;
    RemoveIff(d, add.path.value);
    AddBack(d, add.path.value, value);
  }

  lemma {:induction false} AddBack(d: Json, p: seq<string>, value: Json)
    requires p != [] && Read(d, p).None? && Edited(d, p, SetTo(value, true)).Ok?
    ensures Edited(Edited(d, p, SetTo(value, true)).value, p, Remove) == Ok(d)
    decreases |p|
  {
    hide Edited, Read;
    if |p| > 1 {
      ReadFirst(d, p);
      Descend(d, p, SetTo(value, true));
      var c := Read(d, [p[0]]).value;
      AddBack(c, p[1..], value);
      var x := Edited(c, p[1..], SetTo(value, true)).value;
      SetSlot(d, p[0], x, c);
      Descend(Edited(d, p, SetTo(value, true)).value, p, Remove);
      SetSame(d, p[0]);
    } else {
      assert p == [p[0]];
      AddBackOne(d, p[0], value);
    }
  }

  lemma AddBackOne(d: Json, part: string, value: Json)
    requires Read(d, [part]).None? && Edited(d, [part], SetTo(value, true)).Ok?
    ensures Edited(Edited(d, [part], SetTo(value, true)).value, [part], Remove) == Ok(d)
  {
    assert [part][1..] == [];
    match d
    case Obj(m) => assert m[part := value] - {part} == m;
    case _ =>
  }

  /** Switching a condition off and on again, or on and off, restores the document, and in between its flag says
      what the operation is named after. */
  lemma SwitchRestores(d: Json, path: seq<string>, on: bool, a: Operation, b: Operation)
    requires a.path == b.path == Some(path) && Usable(a)
    requires a.op == (if on then DISABLE_RULE else ENABLE_RULE) && b.op == (if on then ENABLE_RULE else DISABLE_RULE)
    requires Read(d, path + ["enabled"]) == Some(Scalar(Flag(on)))
    ensures Applied(d, a).Ok?
    ensures Read(Applied(d, a).value, path + ["enabled"]) == Some(Scalar(Flag(!on)))
    ensures Applied(d, b) == Ok(d)
    ensures Run(d, [a, b]) == Ok(d)
  {
    hide Edited, Read;
    var p := path + ["enabled"];
    SetMeans(d, p, Scalar(Flag(!on)));
    SetBack(d, p, Scalar(Flag(!on)));
    SetAgain(d, p);
    RunTwo(d, a, b);
  }

  lemma {:induction false} SetAgain(d: Json, p: seq<string>)
    requires p != [] && Read(d, p).Some?
    ensures Edited(d, p, SetTo(Read(d, p).value, false)) == Ok(d)
    decreases |p|
  {
    hide Edited, Read;
    if |p| > 1 {
      ReadFirst(d, p);
      Descend(d, p, SetTo(Read(d, p).value, false));
      SetAgain(Read(d, [p[0]]).value, p[1..]);
      SetSame(d, p[0]);
    } else {
      assert p == [p[0]];
      SetSame(d, p[0]);
    }
  }

  /** A risk operation sets its own field, whatever path it carries. */
  lemma RiskOperationMeans(d: Json, o: Operation)
    requires o.op in {CHANGE_STOP, CHANGE_TAKE_PROFIT, CHANGE_TRAILING_STOP, CHANGE_POSITION_SIZE}
    ensures var path := ["risk", match o.op
                                 case CHANGE_STOP => "stop_loss_pct"
                                 case CHANGE_TAKE_PROFIT => "take_profit_pct"
                                 case CHANGE_TRAILING_STOP => "trailing_stop_pct"
                                 case _ => "position_size_pct"];
            && (Applied(d, o).Ok? <==> Read(d, path).Some?)
            && (Applied(d, o).Ok? ==> Read(Applied(d, o).value, path) == Some(o.value))
  {
    hide Edited, Read;
    SetMeans(d, ["risk", RiskField(o.op).value], o.value);
  }

  /** An operation of another kind is refused. */
  lemma OtherRefused(d: Json, o: Operation)
    requires o.op == OTHER_OP
    ensures Applied(d, o).Err?
  {
  }
}
