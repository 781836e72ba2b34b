/** When two edits along canonical paths may change places: exactly when they are of separate places. */
module CanonicalPaths {
  import opened Prelude
  import opened Mutation

  // ----- Canonical paths

  predicate Digits(part: string) {
    part != "" && forall i | 0 <= i < |part| :: '0' <= part[i] <= '9'
  }

  /** A part as an intent may write it, without a leading zero. */
  predicate Plain(part: string) {
    || (Digits(part) && (part[0] != '0' || |part| == 1))
    || (part != "" && (part[0] == '_' || 'a' <= part[0] <= 'z' || 'A' <= part[0] <= 'Z'))
  }

  lemma {:induction false} DigitsDecimal(part: string)
    requires forall i | 0 <= i < |part| :: '0' <= part[i] <= '9'
    ensures Decimal(part).Some?
    ensures part != "" && part[0] != '0' ==> Decimal(part).value > 0
  {
    if part != "" {
      DigitsDecimal(part[..|part| - 1]);
    }
  }

  /** Numbers without leading zeros are written in one way. */
  lemma {:induction false} DecimalInjective(a: string, b: string)
    requires Digits(a) && Digits(b) && a[0] != '0' && b[0] != '0'
    requires Decimal(a) == Decimal(b)
    ensures a == b
  {
    var m, n := |a| - 1, |b| - 1;
    DigitsDecimal(a[..m]);
    DigitsDecimal(b[..n]);
    var x, y := Decimal(a[..m]).value, Decimal(b[..n]).value;
    assert 10 * x + (a[m] as int - '0' as int) == 10 * y + (b[n] as int - '0' as int);
    assert x == y && a[m] == b[n];
    assert a == a[..m] + [a[m]] && b == b[..n] + [b[n]];
    if m > 0 && n > 0 {
      DecimalInjective(a[..m], b[..n]);
    }
  }

  /** A name is no number. */
  lemma {:induction false} NameIndex(part: string)
    requires part != "" && !('0' <= part[0] <= '9') && part[0] != '-' && part[0] != '+'
    ensures Index(part).None?
  {
    NameDecimal(part);
  }

  lemma {:induction false} NameDecimal(part: string)
    requires part != "" && !('0' <= part[0] <= '9')
    ensures Decimal(part).None?
  {
    if |part| > 1 {
      NameDecimal(part[..|part| - 1]);
    }
  }

  /** The canonical spelling of a position. */
  function Spelled(n: nat): string {
    (if n < 10 then [] else Spelled(n / 10)) + [Digit(n % 10)]
  }

  /** Each position has exactly one canonical spelling, and each name is one. */
  lemma {:induction false} OneSpelling(n: nat)
    ensures Plain(Spelled(n)) && Index(Spelled(n)) == Some(n)
    ensures forall part | Plain(part) && Index(part) == Some(n) :: part == Spelled(n)
  {
    SpelledDigits(n);
    forall part | Plain(part) && Index(part) == Some(n)
      ensures part == Spelled(n)
    {
      if part != Spelled(n) {
        PlainApart(part, Spelled(n));
      }
    }
  }

  lemma {:induction false} SpelledDigits(n: nat)
    ensures Digits(Spelled(n)) && Decimal(Spelled(n)) == Some(n)
    ensures Spelled(n)[0] == '0' <==> n == 0
    ensures n < 10 ==> |Spelled(n)| == 1
  {
    hide Digits, Decimal, Spelled;
    SpelledLast(n);
    if n < 10 {
      OneDigit(n);
    } else {
      SpelledDigits(n / 10);
      MoreDigits(Spelled(n / 10), Digit(n % 10));
    }
  }

  function Digit(n: nat): char
    requires n < 10
  {
    ('0' as int + n) as char
  }

  lemma SpelledLast(n: nat)
    ensures Spelled(n) == (if n < 10 then [] else Spelled(n / 10)) + [Digit(n % 10)]
  {
  }

  lemma OneDigit(n: nat)
    requires n < 10
    ensures var s := [] + [Digit(n)]; Digits(s) && Decimal(s) == Some(n) && |s| == 1 && (s[0] == '0' <==> n == 0)
  {
    var s := [] + [Digit(n)];
    assert s[..0] == [];
  }

  lemma MoreDigits(front: string, c: char)
    requires Digits(front) && Decimal(front).Some? && '0' <= c <= '9'
    ensures Digits(front + [c]) && (front + [c])[0] == front[0]
    ensures Decimal(front + [c]) == Some(10 * Decimal(front).value + (c as int - '0' as int))
  {
    OneMoreDigit(front, c);
    hide Decimal;
  }

  lemma OneMoreDigit(front: string, c: char)
    requires Decimal(front).Some? && '0' <= c <= '9'
    ensures Decimal(front + [c]) == Some(10 * Decimal(front).value + (c as int - '0' as int))
  {
    var all := front + [c];
    assert all[..|all| - 1] == front && all[|all| - 1] == c;
    DecimalLast(all);
    hide Decimal;
  }

  lemma DecimalLast(all: string)
    requires all != ""
    ensures var front, c := Decimal(all[..|all| - 1]), all[|all| - 1];
            Decimal(all)
            == if front.None? || !('0' <= c <= '9') then None else Some(10 * front.value + (c as int - '0' as int))
  {
  }

  lemma PlainNames(part: string)
    requires part != "" && ('a' <= part[0] <= 'z' || 'A' <= part[0] <= 'Z' || part[0] == '_')
    ensures Plain(part) && Index(part).None?
  {
    NameIndex(part);
  }

  lemma PlainApart(a: string, b: string)
    requires Plain(a) && Plain(b) && a != b
    ensures Apart(a, b)
  {
    if Digits(a) && Digits(b) {
      DigitsDecimal(a);
      DigitsDecimal(b);
      if a[0] == '0' || b[0] == '0' {
        ZeroDecimal();
      } else if Decimal(a) == Decimal(b) {
        DecimalInjective(a, b);
      }
    } else if !Digits(a) {
      NameIndex(a);
    } else {
      NameIndex(b);
    }
  }

  ghost predicate PlainPath(p: seq<string>) {
    p != [] && forall part | part in p :: Plain(part)
  }

  /** The edit takes an item out of a list, before the item of that list that `q` leads through. */
  predicate TakesBefore(p: seq<string>, e: Final, q: seq<string>)
    requires p != []
  {
    var n := |p| - 1;
    && e.Remove? && n < |q| && p[..n] == q[..n]
    && Index(p[n]).Some? && Index(q[n]).Some? && Index(p[n]).value < Index(q[n]).value
  }

  /** Edits along paths of which neither is a prefix of the other are of separate places if and only if
      neither takes an item out of a list before the item that the other path leads through. */
  lemma {:induction false} CanonicalSeparate(p: seq<string>, e: Final, q: seq<string>, f: Final)
    requires PlainPath(p) && PlainPath(q) && !(p <= q) && !(q <= p)
    ensures Separate(p, e, q, f) <==> !TakesBefore(p, e, q) && !TakesBefore(q, f, p)
  {
    hide Plain, Index;
    assert p == [p[0]] + p[1..] && q == [q[0]] + q[1..];
    if p[0] == q[0] {
      assert forall part | part in p[1..] :: part in p;
      assert forall part | part in q[1..] :: part in q;
      assert |p| > 1 && |q| > 1;
      CanonicalSeparate(p[1..], e, q[1..], f);
      TakesBelow(p, e, q);
      TakesBelow(q, f, p);
    } else {
      assert p[0] in p && q[0] in q;
      PlainApart(p[0], q[0]);
      TakesHere(p, e, q);
      TakesHere(q, f, p);
    }
  }

  lemma TakesBelow(p: seq<string>, e: Final, q: seq<string>)
    requires |p| > 1 && q != [] && p[0] == q[0]
    ensures TakesBefore(p, e, q) <==> TakesBefore(p[1..], e, q[1..])
  {
    var n := |p| - 1;
    if n < |q| {
      assert p[..n] == [p[0]] + p[1..][..n - 1] && q[..n] == [q[0]] + q[1..][..n - 1];
      assert p[1..][..n - 1] == p[..n][1..] && q[1..][..n - 1] == q[..n][1..];
    }
  }

  lemma TakesHere(p: seq<string>, e: Final, q: seq<string>)
    requires p != [] && q != [] && p[0] != q[0]
    ensures TakesBefore(p, e, q) <==> ShiftsInto(p, e, q[0])
  {
    var n := |p| - 1;
    if n == 0 {
      assert p[..n] == q[..n];
    } else if n < |q| {
      assert p[..n][0] == p[0] && q[..n][0] == q[0];
    }
  }

  // ----- The condition is exact

  /** A document in which an edit along the path succeeds. */
  function Ready(parts: seq<string>, f: Final): Json {
    if parts == [] then (if f.AppendTo? then Arr([]) else Scalar(Null))
    else Obj(map[parts[0] := Ready(parts[1..], f)])
  }

  lemma {:induction false} ReadyTakes(parts: seq<string>, f: Final)
    ensures Changed(Some(Ready(parts, f)), parts, f).Ok?
    ensures parts != [] ==> Edited(Ready(parts, f), parts, f).Ok?
  {
    if parts != [] {
      ReadyTakes(parts[1..], f);
    }
  }

  function Fill(n: nat): (xs: seq<Json>)
    ensures |xs| == n
  {
    seq(n, _ => Scalar(Null))
  }

  /** The two edits come out differently on this document. */
  predicate Conflict(d: Json, p: seq<string>, e: Final, q: seq<string>, f: Final)
    requires p != [] && q != []
  {
    Outcome(Both(d, p, e, q, f)) != Outcome(Both(d, q, f, p, e))
  }

  /** A removal before the other edit's item: a list that ends with that item. */
  function ShiftWitness(q: seq<string>, f: Final): Json
    requires q != [] && Index(q[0]).Some? && Index(q[0]).value >= 0
  {
    Arr(Fill(Index(q[0]).value) + [Ready(q[1..], f)])
  }

  lemma ShiftConflict(p: seq<string>, e: Final, q: seq<string>, f: Final)
    requires p != [] && q != [] && ShiftsInto(p, e, q[0]) && Index(p[0]).value >= 0
    ensures Conflict(ShiftWitness(q, f), p, e, q, f)
  {
    hide Changed, Ready, Index, Position;
    var xs, i, j := ShiftWitness(q, f).items, Index(p[0]).value, Index(q[0]).value;
    ReadyTakes(q[1..], f);
    assert xs[j] == Ready(q[1..], f);
    PositionIs(|xs|, p[0]);
    PositionIs(|xs|, q[0]);
    EditsAt(xs, p, e, i);
    WithoutSet(xs, i);
    PositionIs(|xs| - 1, q[0]);
    EditsAt(xs, q, f, j);
    if Removes(q, f) {
      WithoutSet(xs, j);
      PositionIs(|xs| - 1, p[0]);
      EditsAt(Without(xs, j), p, e, i);
    } else {
      EditsAt(Edited(Arr(xs), q, f).value.items, p, e, i);
    }
  }

  lemma PositionIs(n: nat, part: string)
    requires Index(part).Some? && Index(part).value >= 0
    ensures Position(n, part) == if Index(part).value < n then Some(Index(part).value) else None
  {
  }

  /** Edits of one place, that are not the same: on an object that has there an empty list, or nothing. */
  lemma SamePlaceConflict(part: string, e: Final, f: Final) returns (d: Json)
    requires e != f
    ensures Conflict(d, [part], e, [part], f)
  {
    hide Edited;
    if e.SetTo? && f.SetTo? && e.value == f.value {
      d := Obj(map[]);
      EditAbsent(part, e);
      EditAbsent(part, f);
      EditPresent(part, e.value, f);
      EditPresent(part, f.value, e);
    } else {
      d := One(part, Arr([]));
      BothLeave(part, e, f);
      BothLeave(part, f, e);
      LeavesDiffer(e, f);
      OneInjective(part, Leaves(e, f), Leaves(f, e));
    }
  }

  /** What two edits of a field that is an empty list leave: an error, no field, or its contents. */
  function Leaves(e: Final, f: Final): Option<Option<Json>> {
    match (e, f)
    case (Remove, SetTo(y, allowNew)) => if allowNew then Some(Some(y)) else None
    case (Remove, _) => None
    case (_, SetTo(y, _)) => Some(Some(y))
    case (_, Remove) => Some(None)
    case (SetTo(x, _), AppendTo(y)) => if x.Arr? then Some(Some(Arr(x.items + [y]))) else None
    case (AppendTo(x), AppendTo(y)) => Some(Some(Arr([x, y])))
  }

  lemma LeavesDiffer(e: Final, f: Final)
    requires e != f && !(e.SetTo? && f.SetTo? && e.value == f.value)
    ensures Leaves(e, f) != Leaves(f, e)
  {
    match (e, f)
    case (AppendTo(x), AppendTo(y)) => assert [x, y][0] != [y, x][0];
    case (SetTo(x, _), AppendTo(y)) => assert x.Arr? ==> |x.items + [y]| != |x.items|;
    case (AppendTo(x), SetTo(y, _)) => assert y.Arr? ==> |y.items + [x]| != |y.items|;
    case _ =>
  }

  function Leaving(part: string, slot: Option<Option<Json>>): Option<Json> {
    match slot
    case None => None
    case Some(None) => Some(Obj(map[]))
    case Some(Some(x)) => Some(One(part, x))
  }

  lemma OneInjective(part: string, x: Option<Option<Json>>, y: Option<Option<Json>>)
    requires x != y
    ensures Leaving(part, x) != Leaving(part, y)
  {
    assert forall slot: Json :: part in One(part, slot).fields && One(part, slot).fields[part] == slot;
  }

  lemma BothLeave(part: string, e: Final, f: Final)
    ensures Outcome(Both(One(part, Arr([])), [part], e, [part], f)) == Leaving(part, Leaves(e, f))
  {
    hide Edited, One;
    EditPresent(part, Arr([]), e);
    EditAbsent(part, f);
    match e
    case SetTo(x, _) => EditPresent(part, x, f);
    case AppendTo(x) =>
      assert [] + [x] == [x];
      EditPresent(part, Arr([x]), f);
      assert f.AppendTo? ==> [x] + [f.value] == [x, f.value];
    case Remove =>
  }

  function One(part: string, x: Json): Json {
    Obj(map[part := x])
  }

  /** An edit of the only field of an object. */
  lemma EditPresent(part: string, x: Json, e: Final)
    ensures Edited(One(part, x), [part], e)
         == match e
            case SetTo(value, _) => Ok(One(part, value))
            case AppendTo(value) => if x.Arr? then Ok(One(part, Arr(x.items + [value]))) else Err(NotAList)
            case Remove => Ok(Obj(map[]))
    ensures One(part, x).fields[part] == x && One(part, x) != Obj(map[])
  {
    assert [part][1..] == [];
    assert part in One(part, x).fields;
    assert forall y: Json :: map[part := x][part := y] == map[part := y];
    assert map[part := x] - {part} == map[];
  }

  lemma EditAbsent(part: string, e: Final)
    ensures Edited(Obj(map[]), [part], e).Ok? <==> e.SetTo? && e.allowNew
    ensures e.SetTo? && e.allowNew ==> Edited(Obj(map[]), [part], e) == Ok(One(part, e.value))
  {
    assert [part][1..] == [];
  }

  /** An edit of a place, and an edit further down, that an append does not keep apart. */
  lemma BelowConflict(p: seq<string>, e: Final, q: seq<string>, f: Final) returns (d: Json)
    requires |p| == 1 && |q| > 1 && p[0] == q[0] && Plain(q[1]) && !MissesAppended(e, q[1..], f)
    ensures Conflict(d, p, e, q, f)
  {
    hide Ready, Edited, Changed;
    var below, part := q[1..], p[0];
    assert p == [part];
    ReadyTakes(below, f);
    PlainIndex(below[0]);
    var slot;
    match e {
    case SetTo(v, allowNew) =>
      slot := if Edited(v, below, f).Ok? then Scalar(Null) else Ready(below, f);
      EditBelow(part, v, q, f);
      LeafBelow(below, f);
    case Remove =>
      slot := Ready(below, f);
      NothingBelow(q, f);
    case AppendTo(v) =>
      var n := Index(below[0]).value;
      slot := Arr(Fill(n));
      ListBelow(n, v, below, f);
      EditBelow(part, Arr(Fill(n) + [v]), q, f);
    }
    d := One(part, slot);
    EditPresent(part, slot, e);
    EditBelow(part, slot, q, f);
    if Edited(slot, below, f).Ok? {
      EditPresent(part, Edited(slot, below, f).value, e);
    }
  }

  /** An edit below the only field of an object. */
  lemma EditBelow(part: string, x: Json, q: seq<string>, f: Final)
    requires |q| > 1 && q[0] == part
    ensures Edited(One(part, x), q, f).Ok? <==> Edited(x, q[1..], f).Ok?
    ensures Edited(x, q[1..], f).Ok? ==> Edited(One(part, x), q, f) == Ok(One(part, Edited(x, q[1..], f).value))
  {
    assert One(part, x).fields[part] == x;
    assert forall y: Json :: map[part := x][part := y] == map[part := y];
  }

  lemma NothingBelow(q: seq<string>, f: Final)
    requires |q| > 1
    ensures Edited(Obj(map[]), q, f).Err?
  {
  }

  lemma LeafBelow(q: seq<string>, f: Final)
    requires q != []
    ensures Edited(Scalar(Null), q, f).Err?
  {
  }

  /** Behind the last item of a list, and at an item that was appended. */
  lemma ListBelow(n: nat, v: Json, q: seq<string>, f: Final)
    requires q != [] && Index(q[0]) == Some(n)
    ensures Edited(Arr(Fill(n)), q, f).Err?
    ensures Changed(Some(v), q[1..], f).Ok? ==> Edited(Arr(Fill(n) + [v]), q, f).Ok?
  {
    hide Changed;
    assert (Fill(n) + [v])[n] == v;
  }

  lemma PlainIndex(part: string)
    requires Plain(part)
    ensures Index(part).Some? ==> Index(part).value >= 0
  {
    if !Digits(part) {
      NameIndex(part);
    }
  }

  /** A conflict below a common part is a conflict above it. */
  lemma ConflictAbove(part: string, inner: Json, p: seq<string>, e: Final, q: seq<string>, f: Final)
    requires |p| > 1 && |q| > 1 && p[0] == q[0] == part && Conflict(inner, p[1..], e, q[1..], f)
    ensures Conflict(Obj(map[part := inner]), p, e, q, f)
  {
    hide Edited, Changed;
    var d := Obj(map[part := inner]);
    assert Read(d, [part]) == Some(inner) by {
      assert [part][1..] == [];
    }
    SameSlot(d, p, e, q, f);
    SameSlot(d, q, f, p, e);
    var x, y := Both(inner, p[1..], e, q[1..], f), Both(inner, q[1..], f, p[1..], e);
    if x.Ok? && y.Ok? {
      SetSlot(d, part, x.value, x.value);
      SetSlot(d, part, y.value, y.value);
    }
  }

  lemma {:induction false} SomeConflict(p: seq<string>, e: Final, q: seq<string>, f: Final) returns (d: Json)
    requires PlainPath(p) && PlainPath(q) && !Separate(p, e, q, f)
    ensures Conflict(d, p, e, q, f)
    decreases |p|
  {
    hide Plain, Conflict, Changed, Edited, MissesAppended, Apart;
    assert p[0] in p && q[0] in q;
    if p[0] != q[0] {
      PlainApart(p[0], q[0]);
      PlainIndex(p[0]);
      PlainIndex(q[0]);
      if ShiftsInto(p, e, q[0]) {
        ShiftConflict(p, e, q, f);
        d := ShiftWitness(q, f);
      } else {
        ShiftConflict(q, f, p, e);
        d := ShiftWitness(p, e);
        ConflictSymmetric(d, q, f, p, e);
      }
    } else if |p| == 1 && |q| == 1 {
      assert p == [p[0]] && q == [p[0]];
      d := SamePlaceConflict(p[0], e, f);
    } else if |p| == 1 {
      assert q[1] in q;
      d := BelowConflict(p, e, q, f);
    } else if |q| == 1 {
      assert p[1] in p;
      d := BelowConflict(q, f, p, e);
      ConflictSymmetric(d, q, f, p, e);
    } else {
      assert forall part | part in p[1..] :: part in p;
      assert forall part | part in q[1..] :: part in q;
      var inner := SomeConflict(p[1..], e, q[1..], f);
      ConflictAbove(p[0], inner, p, e, q, f);
      d := Obj(map[p[0] := inner]);
    }
  }

  lemma ConflictSymmetric(d: Json, p: seq<string>, e: Final, q: seq<string>, f: Final)
    requires p != [] && q != [] && Conflict(d, p, e, q, f)
    ensures Conflict(d, q, f, p, e)
  {
  }

  /** Two edits along canonical paths give the same document, or fail, in either order, on every document,
      if and only if they are of separate places. */
  lemma CommuteIff(p: seq<string>, e: Final, q: seq<string>, f: Final)
    requires PlainPath(p) && PlainPath(q)
    ensures (forall d :: Outcome(Both(d, p, e, q, f)) == Outcome(Both(d, q, f, p, e))) <==> Separate(p, e, q, f)
  {
    hide Both, Separate, Outcome;
    if Separate(p, e, q, f) {
      forall d
        ensures Outcome(Both(d, p, e, q, f)) == Outcome(Both(d, q, f, p, e))
      {
        EditsCommute(d, p, e, q, f);
      }
    } else {
      var d := SomeConflict(p, e, q, f);
      assert Outcome(Both(d, p, e, q, f)) != Outcome(Both(d, q, f, p, e));
    }
  }

  /** Two operations that ask for changes along canonical paths may change places, on every document, if
      and only if they are independent. */
  lemma IndependentIff(a: Operation, b: Operation)
    requires ChangeOf(a).Ok? && ChangeOf(b).Ok?
    requires PlainPath(ChangeOf(a).value.parts) && PlainPath(ChangeOf(b).value.parts)
    ensures (forall d :: Outcome(Run(d, [a, b])) == Outcome(Run(d, [b, a]))) <==> Independent(a, b)
  {
    hide ChangeOf, Edited, Run, Separate, PlainPath, Outcome;
    if Independent(a, b) {
      forall d
        ensures Outcome(Run(d, [a, b])) == Outcome(Run(d, [b, a]))
      {
        OperationsCommute(d, a, b);
      }
    } else {
      var x, y := ChangeOf(a).value, ChangeOf(b).value;
      var d := SomeConflict(x.parts, x.e, y.parts, y.e);
      RunTwo(d, a, b);
      RunTwo(d, b, a);
      assert Outcome(Run(d, [a, b])) != Outcome(Run(d, [b, a]));
    }
  }
}
