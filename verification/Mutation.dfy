/** Operations on the document of a strategy: mutation/engine.py, and the reordering that
    research/llm/intent_bridge.py applies to them first. */
module Mutation {
  import opened Prelude

  /** A value without parts. A tuple of texts is one: no path leads into it. */
  datatype Atom =
    | Null | Flag(flag: bool) | Whole(whole: int) | Floating(number: real) | NotFinite | Texts(texts: seq<string>)

  /** A dumped document. */
  datatype Json =
    | Obj(fields: map<string, Json>)
    | Arr(items: seq<Json>)
    | Text(text: string)
    | Scalar(atom: Atom)

  datatype MutationError =
    | PathNotFound | PathRequired | InvalidPath | NotAList | InvalidLogic | InvalidFeature | Unsupported

  // ----- List positions

  function Decimal(digits: string): Option<nat> {
    if digits == [] then Some(0)
    else
      var front, c := Decimal(digits[..|digits| - 1]), digits[|digits| - 1];
      if front.None? || !('0' <= c <= '9') then None else Some(10 * front.value + (c as int - '0' as int))
  }

  /** A path part read as an integer. */
  function Index(part: string): Option<int> {
    if part == "" then None
    else if part[0] == '-' || part[0] == '+' then
      if |part| == 1 || Decimal(part[1..]).None? then None
      else
        var k: int := Decimal(part[1..]).value;
        Some(if part[0] == '-' then -k else k)
    else if Decimal(part).None? then None else Some(Decimal(part).value)
  }

  /** The position in a list of `n` items that a part means; negative ones count from the end. */
  function Position(n: nat, part: string): (p: Option<nat>)
    ensures p.Some? ==> p.value < n
  {
    match Index(part)
    case None => None
    case Some(k) => if 0 <= k < n then Some(k) else if k < 0 <= n + k then Some(n + k) else None
  }

  lemma ZeroDecimal()
    ensures Decimal("0") == Some(0)
  {
    assert "0"[..0] == "";
  }

  // ----- Paths

  /** What is done at the end of a path. */
  datatype Final = SetTo(value: Json, allowNew: bool) | AppendTo(value: Json) | Remove

  /** The document with the change made at the end of the path. */
  function Edited(d: Json, parts: seq<string>, e: Final): Result<Json, MutationError>
    requires parts != []
    decreases |parts|, 0
  {
    match d
    case Obj(m) =>
      (match Changed(if parts[0] in m then Some(m[parts[0]]) else None, parts[1..], e)
       case Err(error) => Err(error)
       case Ok(None) => Ok(Obj(m - {parts[0]}))
       case Ok(Some(c)) => Ok(Obj(m[parts[0] := c])))
    case Arr(xs) =>
      (match Position(|xs|, parts[0])
       case None => Err(PathNotFound)
       case Some(i) =>
         match Changed(Some(xs[i]), parts[1..], e)
         case Err(error) => Err(error)
         case Ok(None) => Ok(Arr(xs[..i] + xs[i + 1..]))
         case Ok(Some(c)) => Ok(Arr(xs[i := c])))
    case _ => Err(PathNotFound)
  }

  /** What becomes of one slot of a container: new contents, nothing, or an error. */
  function Changed(slot: Option<Json>, parts: seq<string>, e: Final): Result<Option<Json>, MutationError>
    decreases |parts|, 1
  {
    if parts == [] then
      match e
      case SetTo(value, allowNew) => if slot.None? && !allowNew then Err(PathNotFound) else Ok(Some(value))
      case AppendTo(value) => if slot.None? || !slot.value.Arr? then Err(NotAList)
          else Ok(Some(Arr(slot.value.items + [value])))
      case Remove => if slot.None? then Err(PathNotFound) else Ok(None)
    else if slot.None? then Err(PathNotFound)
    else
      match Edited(slot.value, parts, e)
      case Err(error) => Err(error)
      case Ok(c) => Ok(Some(c))
  }

  /** The value at the end of a path. */
  function Read(d: Json, parts: seq<string>): Option<Json> {
    if parts == [] then Some(d)
    else
      match d
      case Obj(m) => if parts[0] in m then Read(m[parts[0]], parts[1..]) else None
      case Arr(xs) =>
        var p := Position(|xs|, parts[0]);
        if p.Some? then Read(xs[p.value], parts[1..]) else None
      case _ => None
  }

  // ----- Operations

  datatype OpName =
    | SET_PARAMETER | ADD_RULE | REMOVE_RULE | REPLACE_RULE | ENABLE_RULE | DISABLE_RULE | CHANGE_AND_OR
    | ADD_INDICATOR | ADD_FEATURE | REMOVE_FEATURE | REMOVE_INDICATOR | REMOVE_REGIME_FILTER | SWAP_INDICATOR
    | CHANGE_ENTRY | CHANGE_EXIT | CHANGE_STOP | CHANGE_TAKE_PROFIT | CHANGE_TRAILING_STOP | CHANGE_POSITION_SIZE
    | ADD_REGIME_FILTER | OTHER_OP

  /** `path` is the list of its dot-separated parts. `feature` is the value as a feature reference, if
      it is one. */
  datatype Operation = Operation(op: OpName, path: Option<seq<string>>, value: Json, feature: Option<Json>)

  datatype Change = Change(parts: seq<string>, e: Final)

  function RequiredPath(o: Operation): Result<seq<string>, MutationError> {
    if o.path.None? || o.path.value == [] then Err(PathRequired)
    else if "" in o.path.value then Err(InvalidPath)
    else Ok(o.path.value)
  }

  function RiskField(op: OpName): Option<string> {
    match op
    case CHANGE_STOP => Some("stop_loss_pct")
    case CHANGE_TAKE_PROFIT => Some("take_profit_pct")
    case CHANGE_TRAILING_STOP => Some("trailing_stop_pct")
    case CHANGE_POSITION_SIZE => Some("position_size_pct")
    case _ => None
  }

  /** The change that an operation asks for. */
  function ChangeOf(o: Operation): (r: Result<Change, MutationError>)
    ensures r.Ok? ==> r.value.parts != []
  {
    var path := RequiredPath(o);
    if RiskField(o.op).Some? then Ok(Change(["risk", RiskField(o.op).value], SetTo(o.value, false)))
    else if o.op == ADD_REGIME_FILTER && path == Err(PathRequired)
        then Ok(Change(["regime_filters"], AppendTo(o.value)))
    else if o.op == CHANGE_AND_OR && o.value != Text("AND") && o.value != Text("OR") then Err(InvalidLogic)
    else if o.op == ADD_FEATURE && o.feature.None? then Err(InvalidFeature)
    else if path.Err? then Err(path.error)
    else
      match o.op
      case SET_PARAMETER | REPLACE_RULE | SWAP_INDICATOR | CHANGE_ENTRY | CHANGE_EXIT | CHANGE_AND_OR =>
        Ok(Change(path.value, SetTo(o.value, false)))
      case ADD_RULE | ADD_REGIME_FILTER => Ok(Change(path.value, AppendTo(o.value)))
      case REMOVE_RULE | REMOVE_FEATURE | REMOVE_INDICATOR | REMOVE_REGIME_FILTER => Ok(Change(path.value, Remove))
      case ENABLE_RULE => Ok(Change(path.value + ["enabled"], SetTo(Scalar(Flag(true)), false)))
      case DISABLE_RULE => Ok(Change(path.value + ["enabled"], SetTo(Scalar(Flag(false)), false)))
      case ADD_INDICATOR => Ok(Change(path.value, SetTo(o.value, true)))
      case ADD_FEATURE => Ok(Change(path.value, SetTo(o.feature.value, true)))
      case _ => Err(Unsupported)
  }

  function Applied(d: Json, o: Operation): Result<Json, MutationError> {
    match ChangeOf(o)
    case Err(error) => Err(error)
    case Ok(c) => Edited(d, c.parts, c.e)
  }

  /** All operations in turn, until one fails. */
  function Run(d: Json, ops: seq<Operation>): Result<Json, MutationError> {
    if ops == [] then Ok(d)
    else
      var before := Run(d, ops[..|ops| - 1]);
      if before.Err? then before else Applied(before.value, ops[|ops| - 1])
  }

  /** The loop of `apply_operations`. */
  method ApplyOperations(d: Json, ops: seq<Operation>) returns (r: Result<Json, MutationError>)
    ensures r == Run(d, ops)
  {
    var data := d;
    for i := 0 to |ops|
      invariant Run(d, ops[..i]) == Ok(data)
    {
      assert ops[..i + 1][..i] == ops[..i];
      r := Applied(data, ops[i]);
      if r.Err? {
        RunStops(d, ops, i + 1);
        return;
      }
      data := r.value;
    }
    assert ops[..|ops|] == ops;
    r := Ok(data);
  }

  /** Once an operation fails the rest do not matter. */
  lemma {:induction false} RunStops(d: Json, ops: seq<Operation>, i: nat)
    requires i <= |ops| && Run(d, ops[..i]).Err?
    ensures Run(d, ops) == Run(d, ops[..i])
  {
    if i == |ops| {
      assert ops[..i] == ops;
    } else {
      assert ops[..|ops| - 1][..i] == ops[..i];
      RunStops(d, ops[..|ops| - 1], i);
    }
  }

  // ----- Edits of separate places

  /** Two parts of which neither can mean what the other means, in any container. */
  predicate Apart(a: string, b: string) {
    a != b && (Index(a).Some? && Index(b).Some? ==>
        Index(a).value >= 0 && Index(b).value >= 0 && Index(a).value != Index(b).value)
  }

  /** Taking an item out of a list at the end of the path moves the item that `part` means. */
  predicate ShiftsInto(parts: seq<string>, e: Final, part: string) {
    && e.Remove? && |parts| == 1 && Index(parts[0]).Some? && Index(part).Some?
    && Index(parts[0]).value < Index(part).value
  }

  /** An edit below the list that `e` appends to: it leads to no item, or to one at a position from the
      start where it fails on the item that `e` appends. */
  predicate MissesAppended(e: Final, below: seq<string>, f: Final)
    requires below != []
  {
    e.AppendTo? && (Index(below[0]).None? || (Index(below[0]).value >= 0 && Changed(Some(e.value), below[1..], f).Err?))
  }

  /** The condition under which the order of two edits does not matter. Where the paths part, neither may
      move what the other means. Edits of one place must be the same; and nothing but an append may be
      followed by an edit further down. */
  predicate Separate(p: seq<string>, e: Final, q: seq<string>, f: Final) {
    && p != [] && q != []
    && if p[0] != q[0] then Apart(p[0], q[0]) && !ShiftsInto(p, e, q[0]) && !ShiftsInto(q, f, p[0])
       else if |p| == 1 && |q| == 1 then e == f
       else if |p| == 1 then MissesAppended(e, q[1..], f)
       else if |q| == 1 then MissesAppended(f, p[1..], e)
       else Separate(p[1..], e, q[1..], f)
  }

  function Both(d: Json, p: seq<string>, e: Final, q: seq<string>, f: Final): Result<Json, MutationError>
    requires p != [] && q != []
  {
    var once := Edited(d, p, e);
    if once.Err? then once else Edited(once.value, q, f)
  }

  /** The outcome without the kind of error. */
  function Outcome(r: Result<Json, MutationError>): Option<Json> {
    if r.Ok? then Some(r.value) else None
  }

  /** Parts that mean different positions of every list they both have one in. */
  lemma ApartPositions(n: nat, a: string, b: string)
    requires Apart(a, b)
    ensures Index(a).Some? && Index(b).Some? ==>
              && Position(n, a) == (if Index(a).value < n then Some(Index(a).value) else None)
              && Position(n, b) == (if Index(b).value < n then Some(Index(b).value) else None)
              && Index(a).value != Index(b).value
    ensures Index(a).None? ==> Position(n, a).None?
    ensures Index(b).None? ==> Position(n, b).None?
  {
  }

  /** A change in a list slot that is not a removal keeps the length. */
  lemma ChangedStays(slot: Option<Json>, parts: seq<string>, e: Final)
    requires !(e.Remove? && parts == [])
    ensures Changed(slot, parts, e) != Ok(None)
  {
  }

  predicate Removes(p: seq<string>, e: Final) {
    e.Remove? && |p| == 1
  }

  /** An edit of a list: the item is taken out, or changed. */
  lemma EditedList(xs: seq<Json>, p: seq<string>, e: Final)
    requires p != [] && Edited(Arr(xs), p, e).Ok?
    ensures Position(|xs|, p[0]).Some?
    ensures Removes(p, e) ==> Edited(Arr(xs), p, e) == Ok(Arr(Without(xs, Position(|xs|, p[0]).value)))
    ensures !Removes(p, e) ==>
              var i := Position(|xs|, p[0]).value;
              && Changed(Some(xs[i]), p[1..], e).Ok? && Changed(Some(xs[i]), p[1..], e).value.Some?
              && Edited(Arr(xs), p, e) == Ok(Arr(xs[i := Changed(Some(xs[i]), p[1..], e).value.value]))
  {
    var i := Position(|xs|, p[0]).value;
    if !Removes(p, e) {
      ChangedStays(Some(xs[i]), p[1..], e);
    }
  }

  function Without(xs: seq<Json>, i: nat): seq<Json>
    requires i < |xs|
  {
    xs[..i] + xs[i + 1..]
  }

  /** Where the paths part in a list. */
  lemma ListHalf(xs: seq<Json>, p: seq<string>, e: Final, q: seq<string>, f: Final)
    requires p != [] && q != [] && Apart(p[0], q[0]) && !ShiftsInto(p, e, q[0]) && !ShiftsInto(q, f, p[0])
    requires Both(Arr(xs), p, e, q, f).Ok?
    ensures Both(Arr(xs), q, f, p, e) == Both(Arr(xs), p, e, q, f)
  {
    hide Changed, Position, Apart, Without, Index;
    var once := Edited(Arr(xs), p, e).value.items;
    EditedList(xs, p, e);
    EditedList(once, q, f);
    var i, j := Position(|xs|, p[0]).value, Position(|once|, q[0]).value;
    ApartPositions(|xs|, p[0], q[0]);
    ApartPositions(|once|, p[0], q[0]);
    if Removes(p, e) {
      WithoutSet(xs, i);
      EditsAt(xs, q, f, j);
      var y := Changed(Some(xs[j]), q[1..], f).value.value;
      EditsAt(xs[j := y], p, e, i);
      WithoutThenSet(xs, i, j, y);
    } else if Removes(q, f) {
      WithoutSet(xs, j);
      EditsAt(xs, q, f, j);
      ApartPositions(|xs| - 1, p[0], q[0]);
      EditsAt(Without(xs, j), p, e, i);
      WithoutThenSet(xs, j, i, Changed(Some(xs[i]), p[1..], e).value.value);
    } else {
      var x, y := Changed(Some(xs[i]), p[1..], e).value.value, Changed(Some(xs[j]), q[1..], f).value.value;
      EditsAt(xs, q, f, j);
      EditsAt(xs[j := y], p, e, i);
      assert xs[i := x][j := y] == xs[j := y][i := x];
    }
  }

  lemma EditsAt(xs: seq<Json>, p: seq<string>, e: Final, i: nat)
    requires p != [] && Position(|xs|, p[0]) == Some(i)
    ensures i < |xs|
    ensures Removes(p, e) ==> Edited(Arr(xs), p, e) == Ok(Arr(Without(xs, i)))
    ensures !Removes(p, e) && Changed(Some(xs[i]), p[1..], e).Ok? ==>
              && Changed(Some(xs[i]), p[1..], e).value.Some?
              && Edited(Arr(xs), p, e) == Ok(Arr(xs[i := Changed(Some(xs[i]), p[1..], e).value.value]))
  {
    if !Removes(p, e) {
      ChangedStays(Some(xs[i]), p[1..], e);
    }
  }

  /** Taking out an item and changing an earlier one. */
  lemma WithoutSet(xs: seq<Json>, i: nat)
    requires i < |xs|
    ensures |Without(xs, i)| == |xs| - 1
    ensures forall j | 0 <= j < i :: Without(xs, i)[j] == xs[j]
  {
  }

  lemma WithoutThenSet(xs: seq<Json>, i: nat, j: nat, y: Json)
    requires j < i < |xs|
    ensures |Without(xs, i)| == |xs| - 1 && Without(xs[j := y], i) == Without(xs, i)[j := y]
  {
  }

  /** Where the paths part in an object. */
  lemma ObjectHalf(m: map<string, Json>, p: seq<string>, e: Final, q: seq<string>, f: Final)
    requires p != [] && q != [] && p[0] != q[0]
    requires Both(Obj(m), p, e, q, f).Ok?
    ensures Both(Obj(m), q, f, p, e) == Both(Obj(m), p, e, q, f)
  {
    hide Changed;
    var x := Changed(if p[0] in m then Some(m[p[0]]) else None, p[1..], e).value;
    var y := Changed(if q[0] in m then Some(m[q[0]]) else None, q[1..], f).value;
    match (x, y)
    case (None, None) => assert m - {p[0]} - {q[0]} == m - {q[0]} - {p[0]};
    case (None, Some(b)) => assert (m - {p[0]})[q[0] := b] == m[q[0] := b] - {p[0]};
    case (Some(a), None) => assert m[p[0] := a] - {q[0]} == (m - {q[0]})[p[0] := a];
    case (Some(a), Some(b)) => assert m[p[0] := a][q[0] := b] == m[q[0] := b][p[0] := a];
  }

  /** An edit further down is the edit of the slot, put back in place. */
  lemma Descend(d: Json, p: seq<string>, e: Final)
    requires |p| > 1
    ensures Edited(d, p, e).Ok? <==> Read(d, [p[0]]).Some? && Edited(Read(d, [p[0]]).value, p[1..], e).Ok?
    ensures Edited(d, p, e).Ok? ==>
              Edited(d, p, e) == Edited(d, [p[0]], SetTo(Edited(Read(d, [p[0]]).value, p[1..], e).value, false))
  {
    assert [p[0]][1..] == [];
  }

  /** What is put in a slot is there, and what was there before is gone. */
  lemma SetSlot(d: Json, part: string, x: Json, y: Json)
    requires Read(d, [part]).Some?
    ensures Edited(d, [part], SetTo(x, false)).Ok?
    ensures var once := Edited(d, [part], SetTo(x, false)).value;
            Read(once, [part]) == Some(x) && Edited(once, [part], SetTo(y, false)) == Edited(d, [part], SetTo(y, false))
  {
    assert [part][1..] == [];
    match d
    case Obj(m) => assert m[part := x][part := y] == m[part := y];
    case Arr(xs) =>
      var i := Position(|xs|, part).value;
      assert xs[i := x][i := y] == xs[i := y];
    case _ =>
  }

  /** Below a common part the two edits work on the same slot, one after the other. */
  lemma SameSlot(d: Json, p: seq<string>, e: Final, q: seq<string>, f: Final)
    requires |p| > 1 && |q| > 1 && p[0] == q[0]
    ensures Both(d, p, e, q, f).Ok? ==> Read(d, [p[0]]).Some?
    ensures Read(d, [p[0]]).Some? ==>
              var inner := Both(Read(d, [p[0]]).value, p[1..], e, q[1..], f);
              && (Both(d, p, e, q, f).Ok? <==> inner.Ok?)
              && (inner.Ok? ==> Both(d, p, e, q, f) == Edited(d, [p[0]], SetTo(inner.value, false)))
  {
    hide Edited, Read;
    Descend(d, p, e);
    if Edited(d, p, e).Ok? {
      var x := Edited(Read(d, [p[0]]).value, p[1..], e).value;
      var once := Edited(d, p, e).value;
      SetSlot(d, p[0], x, x);
      Descend(once, q, f);
      if Edited(x, q[1..], f).Ok? {
        SetSlot(d, p[0], x, Edited(x, q[1..], f).value);
      }
    }
  }

  /** The order of two edits of separate places does not matter: they give the same document, or fail,
      either way. */
  lemma {:induction false} EditsCommuteHalf(d: Json, p: seq<string>, e: Final, q: seq<string>, f: Final)
    requires Separate(p, e, q, f) && Both(d, p, e, q, f).Ok?
    ensures Both(d, q, f, p, e) == Both(d, p, e, q, f)
    decreases |p|
  {
    hide Edited, Changed, Apart, ShiftsInto, MissesAppended, Read, Both;
    if p[0] != q[0] {
      PartHere(d, p, e, q, f);
    } else if |p| == 1 && |q| == 1 {
      assert p == [p[0]] && q == [p[0]];
    } else if |p| == 1 {
      AppendThenBelow(d, p, e, q, f);
    } else if |q| == 1 {
      AppendThenBelow(d, q, f, p, e);
    } else {
      SameSlot(d, p, e, q, f);
      SameSlot(d, q, f, p, e);
      EditsCommuteHalf(Read(d, [p[0]]).value, p[1..], e, q[1..], f);
    }
  }

  /** An edit keeps the kind of the container. */
  lemma EditedKind(d: Json, p: seq<string>, e: Final)
    requires p != [] && Edited(d, p, e).Ok?
    ensures Edited(d, p, e).value.Arr? <==> d.Arr?
  {
    hide Changed;
  }

  lemma AppendSlot(d: Json, p: seq<string>, e: Final)
    requires |p| == 1 && e.AppendTo?
    ensures Edited(d, p, e).Ok? <==> Read(d, p).Some? && Read(d, p).value.Arr?
    ensures Edited(d, p, e).Ok? ==>
            Edited(d, p, e) == Edited(d, p, SetTo(Arr(Read(d, p).value.items + [e.value]), false))
  {
    assert p[1..] == [];
  }

  /** An append does not matter to the edit of a list below it that misses what it appends. */
  lemma AppendThenEdit(xs: seq<Json>, e: Final, q: seq<string>, f: Final)
    requires q != [] && MissesAppended(e, q, f)
    ensures var longer, shorter := Edited(Arr(xs + [e.value]), q, f), Edited(Arr(xs), q, f);
            && (longer.Ok? <==> shorter.Ok?)
            && (longer.Ok? ==> shorter.value.Arr? && longer.value == Arr(shorter.value.items + [e.value]))
  {
    hide Changed;
    if Index(q[0]).Some? && Index(q[0]).value < |xs| {
      var i := Index(q[0]).value;
      assert (xs + [e.value])[..i] == xs[..i] && (xs + [e.value])[i + 1..] == xs[i + 1..] + [e.value];
      var changed := Changed(Some(xs[i]), q[1..], f);
      if changed.Ok? && changed.value.Some? {
        assert (xs + [e.value])[i := changed.value.value] == xs[i := changed.value.value] + [e.value];
      }
    }
  }

  /** An append to a list and an edit below that list, in either order. */
  lemma AppendThenBelow(d: Json, p: seq<string>, e: Final, q: seq<string>, f: Final)
    requires |p| == 1 && |q| > 1 && p[0] == q[0] && MissesAppended(e, q[1..], f)
    ensures Outcome(Both(d, p, e, q, f)) == Outcome(Both(d, q, f, p, e))
  {
    hide Edited, Read, Changed;
    assert p == [p[0]];
    AppendSlot(d, p, e);
    Descend(d, q, f);
    if Read(d, p).Some? {
      var slot := Read(d, p).value;
      if slot.Arr? {
        var longer := Arr(slot.items + [e.value]);
        AppendThenEdit(slot.items, e, q[1..], f);
        SetSlot(d, p[0], longer, longer);
        Descend(Edited(d, p, e).value, q, f);
        if Edited(longer, q[1..], f).Ok? {
          SetSlot(d, p[0], longer, Edited(longer, q[1..], f).value);
        }
      }
      if Edited(slot, q[1..], f).Ok? {
        var x := Edited(slot, q[1..], f).value;
        EditedKind(slot, q[1..], f);
        SetSlot(d, p[0], x, x);
        AppendSlot(Edited(d, q, f).value, p, e);
        if x.Arr? {
          SetSlot(d, p[0], x, Arr(x.items + [e.value]));
        }
      }
    }
  }

  lemma PartHere(d: Json, p: seq<string>, e: Final, q: seq<string>, f: Final)
    requires p != [] && q != [] && Apart(p[0], q[0]) && !ShiftsInto(p, e, q[0]) && !ShiftsInto(q, f, p[0])
    requires Both(d, p, e, q, f).Ok?
    ensures Both(d, q, f, p, e) == Both(d, p, e, q, f)
  {
    hide Changed, ShiftsInto, Index;
    match d
    case Obj(m) => ObjectHalf(m, p, e, q, f);
    case Arr(xs) => ListHalf(xs, p, e, q, f);
    case _ =>
  }

  lemma {:induction false} SeparateSymmetric(p: seq<string>, e: Final, q: seq<string>, f: Final)
    requires Separate(p, e, q, f)
    ensures Separate(q, f, p, e)
  {
    hide ShiftsInto, MissesAppended, Index;
    if p[0] == q[0] && |p| > 1 && |q| > 1 {
      SeparateSymmetric(p[1..], e, q[1..], f);
    }
  }

  lemma EditsCommute(d: Json, p: seq<string>, e: Final, q: seq<string>, f: Final)
    requires Separate(p, e, q, f)
    ensures Outcome(Both(d, p, e, q, f)) == Outcome(Both(d, q, f, p, e))
  {
    hide Both, Separate;
    SeparateSymmetric(p, e, q, f);
    SeparateNonEmpty(p, e, q, f);
    if Both(d, p, e, q, f).Ok? {
      EditsCommuteHalf(d, p, e, q, f);
    } else if Both(d, q, f, p, e).Ok? {
      EditsCommuteHalf(d, q, f, p, e);
    }
  }

  lemma SeparateNonEmpty(p: seq<string>, e: Final, q: seq<string>, f: Final)
    requires Separate(p, e, q, f)
    ensures p != [] && q != []
  {
  }

  // ----- What an edit does, and what it leaves alone

  /** An edit changes the container at the end of the path, by the last part alone. */
  lemma {:induction false} EditedInside(d: Json, p: seq<string>, e: Final)
    requires p != [] && Edited(d, p, e).Ok?
    ensures var container := Read(d, p[..|p| - 1]);
            && container.Some? && Edited(container.value, [p[|p| - 1]], e).Ok?
            && Read(Edited(d, p, e).value, p[..|p| - 1]) == Some(Edited(container.value, [p[|p| - 1]], e).value)
  {
    hide Edited;
    var n := |p| - 1;
    if n == 0 {
      assert p == [p[0]];
    } else {
      Descend(d, p, e);
      var c := Read(d, [p[0]]).value;
      var x := Edited(c, p[1..], e).value;
      SetSlot(d, p[0], x, x);
      EditedInside(c, p[1..], e);
      ReadFirst(d, p[..n]);
      ReadFirst(Edited(d, p, e).value, p[..n]);
      assert p[..n][1..] == p[1..][..n - 1];
    }
  }

  /** Reading one part after the other. */
  lemma ReadFirst(d: Json, q: seq<string>)
    requires q != []
    ensures Read(d, q) == if Read(d, [q[0]]).Some? then Read(Read(d, [q[0]]).value, q[1..]) else None
  {
    assert [q[0]][1..] == [];
  }

  /** `_container`: the walk down to the container that the edit is made in. */
  method Container(d: Json, parts: seq<string>) returns (container: Option<Json>)
    requires parts != []
    ensures container == Read(d, parts[..|parts| - 1])
  {
    var current := d;
    var n := |parts| - 1;
    for i := 0 to n
      invariant Read(current, parts[i..n]) == Read(d, parts[..n])
    {
      assert parts[i..n][1..] == parts[i + 1..n];
      match current
      case Obj(m) =>
        if parts[i] !in m {
          return None;
        }
        current := m[parts[i]];
      case Arr(xs) =>
        var p := Position(|xs|, parts[i]);
        if p.None? {
          return None;
        }
        current := xs[p.value];
      case _ =>
        return None;
    }
    return Some(current);
  }

  /** The paths part, and at that place the edit moves no item that `q` means. */
  predicate Elsewhere(p: seq<string>, e: Final, q: seq<string>) {
    && p != [] && q != []
    && if p[0] == q[0] then Elsewhere(p[1..], e, q[1..]) else Apart(p[0], q[0]) && !ShiftsInto(p, e, q[0])
  }

  lemma ElsewhereNonEmpty(p: seq<string>, e: Final, q: seq<string>)
    requires Elsewhere(p, e, q)
    ensures p != [] && q != []
  {
  }

  /** An edit leaves every place elsewhere as it was. */
  lemma {:induction false} EditedElsewhere(d: Json, p: seq<string>, e: Final, q: seq<string>)
    requires Elsewhere(p, e, q) && Edited(d, p, e).Ok?
    ensures Read(Edited(d, p, e).value, q) == Read(d, q)
  {
    hide Edited, Apart, ShiftsInto;
    if p[0] == q[0] {
      ElsewhereNonEmpty(p[1..], e, q[1..]);
      Descend(d, p, e);
      var c := Read(d, [p[0]]).value;
      var x := Edited(c, p[1..], e).value;
      SetSlot(d, p[0], x, x);
      EditedElsewhere(c, p[1..], e, q[1..]);
      ReadFirst(d, q);
      ReadFirst(Edited(d, p, e).value, q);
    } else {
      ReadFirst(d, q);
      ReadFirst(Edited(d, p, e).value, q);
      OtherSlot(d, p, e, q[0]);
    }
  }

  lemma OtherSlot(d: Json, p: seq<string>, e: Final, part: string)
    requires p != [] && Apart(p[0], part) && !ShiftsInto(p, e, part) && Edited(d, p, e).Ok?
    ensures Read(Edited(d, p, e).value, [part]) == Read(d, [part])
  {
    hide Changed, Index;
    if d.Arr? {
      EditedList(d.items, p, e);
      ApartPositions(|d.items|, p[0], part);
      ApartPositions(|d.items| - 1, p[0], part);
      if Removes(p, e) {
        WithoutSet(d.items, Position(|d.items|, p[0]).value);
      }
    }
  }

  // ----- Reordering

  function Priority(op: OpName): nat {
    match op
    case ADD_INDICATOR | ADD_FEATURE => 0
    case SET_PARAMETER | SWAP_INDICATOR => 1
    case ADD_RULE | REPLACE_RULE | ADD_REGIME_FILTER => 2
    case _ => 3
  }

  /** The operation behind those of its priority and before the later ones. */
  function Inserted(ops: seq<Operation>, o: Operation): seq<Operation> {
    if ops != [] && Priority(ops[|ops| - 1].op) > Priority(o.op) then Inserted(ops[..|ops| - 1], o) + [ops[|ops| - 1]]
    else ops + [o]
  }

  /** `_order_operations`. */
  function Ordered(ops: seq<Operation>): seq<Operation> {
    if ops == [] then [] else Inserted(Ordered(ops[..|ops| - 1]), ops[|ops| - 1])
  }

  /** The operations of one priority, in the order given. */
  function Level(ops: seq<Operation>, priority: nat): seq<Operation> {
    if ops == [] then []
    else Level(ops[..|ops| - 1], priority) + if Priority(ops[|ops| - 1].op) == priority then [ops[|ops| - 1]] else []
  }

  lemma LevelSnoc(ops: seq<Operation>, o: Operation, priority: nat)
    ensures Level(ops + [o], priority) == Level(ops, priority) + if Priority(o.op) == priority then [o] else []
  {
    assert (ops + [o])[..|ops|] == ops;
  }

  /** `ops` sorted by priority, up to the given one. */
  function Levels(ops: seq<Operation>, upTo: nat): seq<Operation> {
    if upTo == 0 then [] else Levels(ops, upTo - 1) + Level(ops, upTo - 1)
  }

  lemma {:induction false} LevelsSnoc(ops: seq<Operation>, o: Operation, upTo: nat)
    ensures Levels(ops + [o], upTo) == Inserted(Levels(ops, upTo), o) || Priority(o.op) >= upTo
    ensures Priority(o.op) >= upTo ==> Levels(ops + [o], upTo) == Levels(ops, upTo)
  {
    hide Level, Inserted;
    if upTo > 0 {
      LevelsSnoc(ops, o, upTo - 1);
      LevelSnoc(ops, o, upTo - 1);
      LevelOf(ops, upTo - 1);
      if Priority(o.op) < upTo - 1 {
        InsertedBefore(Levels(ops, upTo - 1), Level(ops, upTo - 1), o);
      } else if Priority(o.op) == upTo - 1 {
        LevelsBelow(ops, upTo);
        InsertedLast(Levels(ops, upTo), o);
        assert Levels(ops + [o], upTo) == Levels(ops, upTo) + [o];
      }
    }
  }

  lemma {:induction false} LevelOf(ops: seq<Operation>, priority: nat)
    ensures forall o | o in Level(ops, priority) :: Priority(o.op) == priority
  {
    if ops == [] {
    } else {
      LevelOf(ops[..|ops| - 1], priority);
    }
  }

  lemma {:induction false} LevelsBelow(ops: seq<Operation>, upTo: nat)
    ensures forall o | o in Levels(ops, upTo) :: Priority(o.op) < upTo
  {
    hide Priority, Level;
    if upTo > 0 {
      LevelsBelow(ops, upTo - 1);
      LevelOf(ops, upTo - 1);
    }
  }

  lemma InsertedLast(ops: seq<Operation>, o: Operation)
    requires forall q | q in ops :: Priority(q.op) <= Priority(o.op)
    ensures Inserted(ops, o) == ops + [o]
  {
    if ops != [] {
      assert ops[|ops| - 1] in ops;
    }
  }

  lemma {:induction false} InsertedBefore(front: seq<Operation>, back: seq<Operation>, o: Operation)
    requires forall q | q in back :: Priority(q.op) > Priority(o.op)
    ensures Inserted(front + back, o) == Inserted(front, o) + back
  {
    hide Priority;
    if back == [] {
      assert front + back == front;
    } else {
      var n := |back| - 1;
      InsertedBefore(front, back[..n], o);
      assert (front + back)[..|front + back| - 1] == front + back[..n];
      assert back[n] in back;
    }
  }

  /** The reordering is the stable sort: the declarations first, then the parameters, then the rules,
      then the rest, each group in the order given. */
  lemma {:induction false} OrderedIsStable(ops: seq<Operation>)
    ensures Ordered(ops) == Level(ops, 0) + Level(ops, 1) + Level(ops, 2) + Level(ops, 3)
  {
    hide Ordered, Level, Levels;
    OrderedLevels(ops);
    LevelsStep(ops, 3);
    LevelsStep(ops, 2);
    LevelsStep(ops, 1);
    LevelsStep(ops, 0);
    assert Levels(ops, 1) == Level(ops, 0);
  }

  lemma LevelsStep(ops: seq<Operation>, upTo: nat)
    ensures Levels(ops, upTo + 1) == Levels(ops, upTo) + Level(ops, upTo)
    ensures Levels(ops, 0) == []
  {
  }

  lemma {:induction false} OrderedLevels(ops: seq<Operation>)
    ensures Ordered(ops) == Levels(ops, 4)
  {
    hide Inserted, Level;
    if ops == [] {
      NoLevels(4);
    } else {
      var n := |ops| - 1;
      OrderedLevels(ops[..n]);
      LevelsSnoc(ops[..n], ops[n], 4);
      assert ops == ops[..n] + [ops[n]];
    }
  }

  lemma {:induction false} NoLevels(upTo: nat)
    ensures Levels([], upTo) == []
  {
    if upTo > 0 {
      NoLevels(upTo - 1);
    }
  }

  lemma {:induction false} InsertedMultiset(ops: seq<Operation>, o: Operation)
    ensures multiset(Inserted(ops, o)) == multiset(ops) + multiset{o}
  {
    hide Priority;
    if ops != [] {
      var n := |ops| - 1;
      InsertedMultiset(ops[..n], o);
      assert ops == ops[..n] + [ops[n]];
    }
  }

  /** No operation is lost or added. */
  lemma {:induction false} OrderedPermutes(ops: seq<Operation>)
    ensures multiset(Ordered(ops)) == multiset(ops)
  {
    hide Inserted;
    if ops == [] {
    } else {
      var n := |ops| - 1;
      OrderedPermutes(ops[..n]);
      InsertedMultiset(Ordered(ops[..n]), ops[n]);
      assert ops == ops[..n] + [ops[n]];
    }
  }

  /** Operations of separate places; one that fails on every document is independent of any other. */
  predicate Independent(a: Operation, b: Operation) {
    match (ChangeOf(a), ChangeOf(b))
    case (Ok(c), Ok(d)) => Separate(c.parts, c.e, d.parts, d.e)
    case _ => true
  }

  lemma OperationsCommute(d: Json, a: Operation, b: Operation)
    requires Independent(a, b)
    ensures Outcome(Run(d, [a, b])) == Outcome(Run(d, [b, a]))
  {
    hide Edited, Separate, ChangeOf;
    RunTwo(d, a, b);
    RunTwo(d, b, a);
    if ChangeOf(a).Ok? && ChangeOf(b).Ok? {
      var c, e := ChangeOf(a).value, ChangeOf(b).value;
      EditsCommute(d, c.parts, c.e, e.parts, e.e);
    }
  }

  lemma RunTwo(d: Json, a: Operation, b: Operation)
    ensures Run(d, [a, b]) == if Applied(d, a).Err? then Applied(d, a) else Applied(Applied(d, a).value, b)
  {
    hide Applied;
    assert [a, b][..1] == [a] && [a][..0] == [];
    assert Run(d, []) == Ok(d);
  }

  lemma {:induction false} RunConcat(d: Json, xs: seq<Operation>, ys: seq<Operation>)
    ensures Run(d, xs + ys) == if Run(d, xs).Err? then Run(d, xs) else Run(Run(d, xs).value, ys)
  {
    hide Applied;
    if ys == [] {
      assert xs + ys == xs;
    } else {
      var n := |ys| - 1;
      RunConcat(d, xs, ys[..n]);
      assert (xs + ys)[..|xs + ys| - 1] == xs + ys[..n];
    }
  }

  /** The same documents before, and operations after, give the same document in the end. */
  lemma SameThen(d: Json, xs: seq<Operation>, ys: seq<Operation>, zs: seq<Operation>)
    requires Outcome(Run(d, xs)) == Outcome(Run(d, ys))
    ensures Outcome(Run(d, xs + zs)) == Outcome(Run(d, ys + zs))
  {
    hide Run;
    RunConcat(d, xs, zs);
    RunConcat(d, ys, zs);
  }

  lemma SwapLast(d: Json, xs: seq<Operation>, a: Operation, b: Operation)
    requires Independent(a, b)
    ensures Outcome(Run(d, xs + [a] + [b])) == Outcome(Run(d, xs + [b] + [a]))
  {
    hide Run, Independent;
    assert xs + [a] + [b] == xs + [a, b] && xs + [b] + [a] == xs + [b, a];
    RunConcat(d, xs, [a, b]);
    RunConcat(d, xs, [b, a]);
    if Run(d, xs).Ok? {
      OperationsCommute(Run(d, xs).value, a, b);
    }
  }

  lemma {:induction false} InsertedSame(d: Json, ops: seq<Operation>, o: Operation)
    requires forall q | q in ops && Priority(q.op) > Priority(o.op) :: Independent(q, o)
    ensures Outcome(Run(d, Inserted(ops, o))) == Outcome(Run(d, ops + [o]))
  {
    hide Run, Independent, Priority;
    if ops != [] && Priority(ops[|ops| - 1].op) > Priority(o.op) {
      var n := |ops| - 1;
      var q := ops[n];
      assert q in ops && ops == ops[..n] + [q];
      InsertedSame(d, ops[..n], o);
      SameThen(d, Inserted(ops[..n], o), ops[..n] + [o], [q]);
      SwapLast(d, ops[..n], q, o);
    }
  }

  /** The reordering preserves meaning: if every operation that moves ahead of an earlier one is
      independent of it, the reordered list makes the same document of any document, or fails on it, as
      the list given. */
  lemma {:induction false} OrderPreservesMeaning(d: Json, ops: seq<Operation>)
    requires forall i, j | 0 <= i < j < |ops| && Priority(ops[i].op) > Priority(ops[j].op) ::
             Independent(ops[i], ops[j])
    ensures Outcome(Run(d, Ordered(ops))) == Outcome(Run(d, ops))
  {
    hide Run, Independent, Priority, Inserted;
    if ops == [] {
    } else {
      var n := |ops| - 1;
      var before := Ordered(ops[..n]);
      OrderPreservesMeaning(d, ops[..n]);
      OrderedPermutes(ops[..n]);
      forall q | q in before && Priority(q.op) > Priority(ops[n].op)
        ensures Independent(q, ops[n])
      {
        assert q in multiset(before);
        assert q in ops[..n];
        var i :| 0 <= i < n && ops[i] == q;
      }
      InsertedSame(d, before, ops[n]);
      SameThen(d, before, ops[..n], [ops[n]]);
      assert ops == ops[..n] + [ops[n]];
    }
  }

  lemma OrderedTwo(a: Operation, b: Operation)
    requires Priority(a.op) > Priority(b.op)
    ensures Ordered([a, b]) == [b, a]
  {
    assert [a, b][..1] == [a] && [a][..0] == [];
    assert Ordered([a]) == [a] && Inserted([], b) == [b];
  }

  // ----- Edits of the entry conditions

  /** A document with these entry conditions. */
  function EntryWith(m: map<string, Json>, g: map<string, Json>, xs: seq<Json>): Json {
    Obj(m["entry" := Obj(g["conditions" := Arr(xs)])])
  }

  const FIRST_CONDITION: seq<string> := ["entry", "conditions", "0"]

  /** An edit of a field is an edit of its contents. */
  lemma EditField(m: map<string, Json>, key: string, x: Json, p: seq<string>, e: Final)
    requires p != [] && Edited(x, p, e).Ok?
    ensures Edited(Obj(m[key := x]), [key] + p, e) == Ok(Obj(m[key := Edited(x, p, e).value]))
  {
    assert ([key] + p)[1..] == p;
    assert m[key := x][key := Edited(x, p, e).value] == m[key := Edited(x, p, e).value];
  }

  lemma EditEntry(m: map<string, Json>, g: map<string, Json>, xs: seq<Json>, p: seq<string>, e: Final)
    requires p != [] && Edited(Arr(xs), p, e).Ok? && Edited(Arr(xs), p, e).value.Arr?
    ensures Edited(EntryWith(m, g, xs), ["entry", "conditions"] + p, e)
         == Ok(EntryWith(m, g, Edited(Arr(xs), p, e).value.items))
  {
    hide Edited;
    EditField(g, "conditions", Arr(xs), p, e);
    EditField(m, "entry", Obj(g["conditions" := Arr(xs)]), ["conditions"] + p, e);
    assert ["entry"] + (["conditions"] + p) == ["entry", "conditions"] + p;
  }

  /** An edit of the first entry condition as a whole. */
  lemma EditFirst(m: map<string, Json>, g: map<string, Json>, xs: seq<Json>, e: Final)
    requires xs != [] && !e.AppendTo?
    ensures Edited(EntryWith(m, g, xs), FIRST_CONDITION, e)
         == Ok(EntryWith(m, g, if e.Remove? then xs[1..] else [e.value] + xs[1..]))
  {
    assert ["0"][1..] == [];
    ZeroDecimal();
    assert Position(|xs|, "0") == Some(0);
    assert e.SetTo? ==> xs[0 := e.value] == [e.value] + xs[1..];
    assert e.Remove? ==> xs[..0] + xs[1..] == xs[1..];
    EditEntry(m, g, xs, ["0"], e);
    assert ["entry", "conditions"] + ["0"] == FIRST_CONDITION;
  }

  /** The place that `ENABLE_RULE` and `DISABLE_RULE` write to, of the first condition spelt 00. */
  const ZERO_ENABLED: seq<string> := ["entry", "conditions", "00", "enabled"]

  /** Setting the flag of the first condition, which fails if the condition does not have it. */
  lemma EditZero(m: map<string, Json>, g: map<string, Json>, x: Json, xs: seq<Json>, value: Json)
    requires x.Obj?
    ensures "enabled" in x.fields ==>
              Edited(EntryWith(m, g, [x] + xs), ZERO_ENABLED, SetTo(value, false))
              == Ok(EntryWith(m, g, [Obj(x.fields["enabled" := value])] + xs))
    ensures "enabled" !in x.fields ==>
              Edited(EntryWith(m, g, [x] + xs), ZERO_ENABLED, SetTo(value, false)) == Err(PathNotFound)
  {
    var e, below := SetTo(value, false), ["00", "enabled"];
    assert below[1..] == ["enabled"] && ["enabled"][1..] == [];
    assert "00"[..1] == "0";
    ZeroDecimal();
    assert Position(1 + |xs|, "00") == Some(0);
    assert ZERO_ENABLED[1..] == ["conditions"] + below && (["conditions"] + below)[1..] == below;
    assert ZERO_ENABLED == ["entry", "conditions"] + below;
    var after := Obj(x.fields["enabled" := value]);
    assert ([x] + xs)[0 := after] == [after] + xs;
    if "enabled" in x.fields {
      assert Edited(x, ["enabled"], e) == Ok(after);
      assert Edited(Arr([x] + xs), below, e) == Ok(Arr([after] + xs));
      EditEntry(m, g, [x] + xs, below, e);
    }
  }
}
