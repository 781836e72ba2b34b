/** Combinatorial cross-validation splits: core/validation/cpcv.py. */
module Cpcv {
  import opened Prelude

  datatype SplitError = BadGroups | TooFewValues

  datatype Split<T> = Split(train: seq<T>, test: seq<T>)

  // ----- Partition

  /** The size of group `i` of `g` over `n` values: the first groups take one of the remainder each. */
  function Width(n: nat, g: nat, i: nat): nat
    requires g > 0
  {
    n / g + if i < n % g then 1 else 0
  }

  /** Where group `i` starts. */
  function Start(n: nat, g: nat, i: nat): nat
    requires g > 0
  {
    if i == 0 then 0 else Start(n, g, i - 1) + Width(n, g, i - 1)
  }

  lemma OneMore(i: nat, size: nat)
    requires i > 0
    ensures i * size == (i - 1) * size + size
  {
  }

  lemma {:induction false} StartClosed(n: nat, g: nat, i: nat)
    requires g > 0
    ensures Start(n, g, i) == i * (n / g) + if i < n % g then i else n % g
  {
    if i > 0 {
      StartClosed(n, g, i - 1);
      OneMore(i, n / g);
    }
  }

  /** The groups end where the values end. */
  lemma StartEnd(n: nat, g: nat)
    requires g > 0
    ensures Start(n, g, g) == n
  {
    hide Start;
    StartClosed(n, g, g);
  }

  lemma {:induction false} StartMonotone(n: nat, g: nat, i: nat, j: nat)
    requires g > 0 && i <= j
    ensures Start(n, g, i) <= Start(n, g, j)
  {
    hide Width;
    if i < j {
      StartMonotone(n, g, i, j - 1);
    }
  }

  lemma StartNext(n: nat, g: nat, i: nat)
    requires i < g
    ensures Start(n, g, i) <= Start(n, g, i + 1) == Start(n, g, i) + Width(n, g, i) <= n
  {
    hide Width;
    StartMonotone(n, g, i + 1, g);
    StartEnd(n, g);
  }

  function Part<T>(values: seq<T>, g: nat, i: nat): seq<T>
    requires i < g
  {
    StartNext(|values|, g, i);
    values[Start(|values|, g, i)..Start(|values|, g, i + 1)]
  }

  lemma PartIs<T>(values: seq<T>, g: nat, i: nat, start: nat, width: nat)
    requires i < g && start == Start(|values|, g, i) && start + width == Start(|values|, g, i + 1) <= |values|
    ensures Part(values, g, i) == values[start..start + width]
  {
  }

  function Parts<T>(values: seq<T>, g: nat): (parts: seq<seq<T>>)
    ensures |parts| == g && forall i | 0 <= i < g :: parts[i] == Part(values, g, i)
  {
    seq(g, i requires 0 <= i < g => Part(values, g, i))
  }

  lemma StartZero(n: nat, g: nat)
    requires g > 0
    ensures Start(n, g, 0) == 0
  {
  }

  method Divmod(n: nat, g: nat) returns (size: nat, remainder: nat)
    requires g > 0
    ensures forall i: nat :: Width(n, g, i) == size + if i < remainder then 1 else 0
  {
    size, remainder := n / g, n % g;
  }

  /** `_partition`. */
  method Partition<T>(values: seq<T>, groups: nat) returns (r: Result<seq<seq<T>>, SplitError>)
    requires groups > 0
    ensures r == if |values| < groups then Err(TooFewValues) else Ok(Parts(values, groups))
  {
    if |values| < groups {
      return Err(TooFewValues);
    }
    hide Start, Width, Part;
    var size, remainder := Divmod(|values|, groups);
    var result: seq<seq<T>> := [];
    var start := 0;
    StartZero(|values|, groups);
    for index := 0 to groups
      invariant |result| == index && start == Start(|values|, groups, index)
      invariant forall i | 0 <= i < index :: result[i] == Part(values, groups, i)
    {
      var width := size + if index < remainder then 1 else 0;
      StartNext(|values|, groups, index);
      PartIs(values, groups, index, start, width);
      result := result + [values[start..start + width]];
      start := start + width;
    }
    assert result == Parts(values, groups);
    return Ok(result);
  }

  function Joined<T>(parts: seq<seq<T>>): seq<T> {
    if parts == [] then [] else Joined(parts[..|parts| - 1]) + parts[|parts| - 1]
  }

  lemma {:induction false} JoinedParts<T>(values: seq<T>, g: nat, i: nat)
    requires g > 0 && i <= g
    ensures Start(|values|, g, i) <= |values| && Joined(Parts(values, g)[..i]) == values[..Start(|values|, g, i)]
  {
    hide Width;
    if i > 0 {
      StartNext(|values|, g, i - 1);
      JoinedParts(values, g, i - 1);
      assert Parts(values, g)[..i][..i - 1] == Parts(values, g)[..i - 1];
    }
  }

  /** The groups are the values cut into `g` consecutive pieces, none empty, whose sizes differ by at
      most one, the longer ones first. */
  lemma PartsCut<T>(values: seq<T>, g: nat)
    requires 0 < g <= |values|
    ensures Joined(Parts(values, g)) == values
    ensures forall i | 0 <= i < g :: |Parts(values, g)[i]| == Width(|values|, g, i)
    ensures forall i, j | 0 <= i <= j < g ::
            1 <= Width(|values|, g, j) <= Width(|values|, g, i) <= Width(|values|, g, j) + 1
  {
    hide Start;
    WidthPositive(|values|, g);
    forall i | 0 <= i < g
      ensures |Parts(values, g)[i]| == Width(|values|, g, i)
    {
      StartNext(|values|, g, i);
    }
    JoinedParts(values, g, g);
    StartEnd(|values|, g);
    assert Parts(values, g)[..g] == Parts(values, g);
  }

  lemma WidthPositive(n: nat, g: nat)
    requires 0 < g <= n
    ensures forall i | 0 <= i < g :: Width(n, g, i) >= 1
  {
  }

  // ----- Combinations

  /** The strictly increasing `k`-tuples from `lo..n`, in lexicographic order. */
  function Combinations(lo: nat, n: nat, k: nat): seq<seq<nat>>
    requires lo <= n
    decreases n - lo
  {
    if k == 0 then [[]]
    else if lo == n then []
    else Prefixed(lo, Combinations(lo + 1, n, k - 1)) + Combinations(lo + 1, n, k)
  }

  function Prefixed(x: nat, tails: seq<seq<nat>>): (all: seq<seq<nat>>)
    ensures |all| == |tails| && forall i | 0 <= i < |all| :: all[i] == [x] + tails[i]
  {
    seq(|tails|, i requires 0 <= i < |tails| => [x] + tails[i])
  }

  predicate Increasing(c: seq<nat>, lo: nat, n: nat) {
    && (forall i | 0 <= i < |c| :: lo <= c[i] < n)
    && (forall i, j | 0 <= i < j < |c| :: c[i] < c[j])
  }

  lemma CombinationsStep(lo: nat, n: nat, k: nat)
    requires lo < n && k > 0
    ensures Combinations(lo, n, k) == Prefixed(lo, Combinations(lo + 1, n, k - 1)) + Combinations(lo + 1, n, k)
  {
  }

  lemma CombinationsEnd(lo: nat, n: nat, k: nat)
    requires lo <= n
    ensures k == 0 ==> Combinations(lo, n, k) == [[]]
    ensures k > 0 && lo == n ==> Combinations(lo, n, k) == []
  {
  }

  lemma PrefixedHas(x: nat, tails: seq<seq<nat>>, c: seq<nat>)
    ensures c in Prefixed(x, tails) <==> c != [] && c[0] == x && c[1..] in tails
  {
    if c in Prefixed(x, tails) {
      var i :| 0 <= i < |tails| && Prefixed(x, tails)[i] == c;
      assert c[1..] == tails[i];
    }
    if c != [] && c[0] == x && c[1..] in tails {
      var i :| 0 <= i < |tails| && tails[i] == c[1..];
      assert Prefixed(x, tails)[i] == c;
    }
  }

  /** Exactly the increasing tuples of that length are listed. */
  lemma {:induction false} CombinationsComplete(lo: nat, n: nat, k: nat, c: seq<nat>)
    requires lo <= n
    ensures c in Combinations(lo, n, k) <==> |c| == k && Increasing(c, lo, n)
    decreases n - lo
  {
    hide Combinations, Prefixed, Increasing;
    CombinationsEnd(lo, n, k);
    if k == 0 {
      NoneIncreasing(lo, n);
    } else if lo == n {
      NoRoom(c, n);
    } else {
      var tails := Combinations(lo + 1, n, k - 1);
      CombinationsStep(lo, n, k);
      CombinationsComplete(lo + 1, n, k, c);
      PrefixedHas(lo, tails, c);
      IncreasingCases(c, lo, n);
      if c != [] {
        CombinationsComplete(lo + 1, n, k - 1, c[1..]);
      }
    }
  }

  lemma NoneIncreasing(lo: nat, n: nat)
    ensures Increasing([], lo, n)
  {
  }

  lemma NoRoom(c: seq<nat>, n: nat)
    ensures c != [] ==> !Increasing(c, n, n)
  {
    if c != [] {
      assert !(n <= c[0] < n);
    }
  }

  lemma IncreasingCases(c: seq<nat>, lo: nat, n: nat)
    requires lo < n
    ensures c != [] ==> (Increasing(c, lo, n)
            <==> (c[0] == lo && Increasing(c[1..], lo + 1, n)) || Increasing(c, lo + 1, n))
    ensures c == [] ==> Increasing(c, lo, n)
  {
    if c != [] && c[0] == lo && Increasing(c[1..], lo + 1, n) {
      assert forall i | 1 <= i < |c| :: c[i] == c[1..][i - 1];
    }
  }

  /** None is listed twice. */
  lemma {:induction false} CombinationsDistinct(lo: nat, n: nat, k: nat, i: nat, j: nat)
    requires lo <= n && i < j < |Combinations(lo, n, k)|
    ensures Combinations(lo, n, k)[i] != Combinations(lo, n, k)[j]
    decreases n - lo
  {
    hide Combinations, Prefixed, Increasing;
    CombinationsEnd(lo, n, k);
    if k > 0 && lo < n {
      var tails, rest := Combinations(lo + 1, n, k - 1), Combinations(lo + 1, n, k);
      CombinationsStep(lo, n, k);
      if j < |tails| {
        CombinationsDistinct(lo + 1, n, k - 1, i, j);
        assert ([lo] + tails[i])[1..] == tails[i] && ([lo] + tails[j])[1..] == tails[j];
      } else if i < |tails| {
        CombinationsComplete(lo + 1, n, k, rest[j - |tails|]);
        StartsAbove(rest[j - |tails|], lo + 1, n);
      } else {
        CombinationsDistinct(lo + 1, n, k, i - |tails|, j - |tails|);
      }
    }
  }

  lemma StartsAbove(c: seq<nat>, lo: nat, n: nat)
    requires c != [] && Increasing(c, lo, n)
    ensures c[0] >= lo
  {
  }

  // ----- Counting

  function Factorial(n: nat): nat {
    if n == 0 then 1 else n * Factorial(n - 1)
  }

  /** The binomial coefficient by Pascal's rule. */
  function Choose(n: nat, k: nat): nat {
    if k == 0 then 1 else if n == 0 then 0 else Choose(n - 1, k - 1) + Choose(n - 1, k)
  }

  lemma {:induction false} ChooseBeyond(n: nat, k: nat)
    requires k > n
    ensures Choose(n, k) == 0
  {
    if n > 0 {
      ChooseBeyond(n - 1, k - 1);
      ChooseBeyond(n - 1, k);
    }
  }

  /** The two parts of Pascal's rule, each scaled to the factorial. */
  lemma PascalStep(a: nat, b: nat, k: nat, m: nat, fk: nat, fm: nat, fn: nat)
    requires k > 0 && m > 0
    requires a * fk * (m * fm) == fn && b * (k * fk) * fm == fn
    ensures (a + b) * (k * fk) * (m * fm) == (k + m) * fn
  {
    calc {
      (a + b) * (k * fk) * (m * fm);
      a * (k * fk) * (m * fm) + b * (k * fk) * (m * fm);
      { Regroup(a, k, fk, m * fm); Regroup2(b * (k * fk), m, fm); }
      k * (a * fk * (m * fm)) + m * (b * (k * fk) * fm);
      k * fn + m * fn;
      (k + m) * fn;
    }
  }

  lemma Regroup(a: nat, k: nat, f: nat, x: nat)
    ensures a * (k * f) * x == k * (a * f * x)
  {
    assert a * (k * f) == k * (a * f);
    assert k * (a * f) * x == k * (a * f * x);
  }

  lemma Regroup2(b: nat, m: nat, f: nat)
    ensures b * (m * f) == m * (b * f)
  {
  }

  /** The binomial coefficient in closed form. */
  lemma {:induction false} ChooseFactorial(n: nat, k: nat)
    requires k <= n
    ensures Choose(n, k) * Factorial(k) * Factorial(n - k) == Factorial(n)
  {
    if k == 0 {
    } else if k == n {
      ChooseFactorial(n - 1, k - 1);
      ChooseBeyond(n - 1, k);
      assert Choose(n, k) == Choose(n - 1, k - 1) && Factorial(0) == 1;
      Regroup2(Choose(n - 1, k - 1), n, Factorial(n - 1));
    } else {
      ChooseFactorial(n - 1, k - 1);
      ChooseFactorial(n - 1, k);
      PascalStep(Choose(n - 1, k - 1), Choose(n - 1, k), k, n - k, Factorial(k - 1), Factorial(n - k - 1),
          Factorial(n - 1));
    }
  }

  lemma {:induction false} CombinationsCount(lo: nat, n: nat, k: nat)
    requires lo <= n
    ensures |Combinations(lo, n, k)| == Choose(n - lo, k)
    decreases n - lo
  {
    if k > 0 && lo < n {
      CombinationsCount(lo + 1, n, k - 1);
      CombinationsCount(lo + 1, n, k);
    }
  }

  /** How many of the tuples hold `x`. */
  function Holding(cs: seq<seq<nat>>, x: nat): nat {
    if cs == [] then 0 else Holding(cs[..|cs| - 1], x) + if x in cs[|cs| - 1] then 1 else 0
  }

  lemma HoldingNone(x: nat)
    ensures Holding([], x) == 0 && Holding([[]], x) == 0
  {
    var one: seq<seq<nat>> := [[]];
    assert one[..0] == [];
  }

  lemma {:induction false} HoldingConcat(xs: seq<seq<nat>>, ys: seq<seq<nat>>, x: nat)
    ensures Holding(xs + ys, x) == Holding(xs, x) + Holding(ys, x)
  {
    if ys == [] {
      assert xs + ys == xs;
    } else {
      var n := |ys| - 1;
      HoldingConcat(xs, ys[..n], x);
      assert (xs + ys)[..|xs + ys| - 1] == xs + ys[..n];
    }
  }

  lemma {:induction false} HoldingPrefixed(head: nat, tails: seq<seq<nat>>, x: nat)
    ensures Holding(Prefixed(head, tails), x) == if x == head then |tails| else Holding(tails, x)
  {
    if tails == [] {
    } else {
      var n := |tails| - 1;
      HoldingPrefixed(head, tails[..n], x);
      assert Prefixed(head, tails)[..n] == Prefixed(head, tails[..n]);
    }
  }

  lemma {:induction false} HoldingBelow(lo: nat, n: nat, k: nat, x: nat)
    requires x < lo <= n
    ensures Holding(Combinations(lo, n, k), x) == 0
    decreases n - lo
  {
    hide Combinations, Holding, Prefixed;
    CombinationsEnd(lo, n, k);
    HoldingNone(x);
    if k > 0 && lo < n {
      CombinationsStep(lo, n, k);
      HoldingBelow(lo + 1, n, k - 1, x);
      HoldingBelow(lo + 1, n, k, x);
      HoldingConcat(Prefixed(lo, Combinations(lo + 1, n, k - 1)), Combinations(lo + 1, n, k), x);
      HoldingPrefixed(lo, Combinations(lo + 1, n, k - 1), x);
    }
  }

  /** Every member is in the same number of tuples. */
  lemma {:induction false} HoldingCount(lo: nat, n: nat, k: nat, x: nat)
    requires lo <= x < n
    ensures Holding(Combinations(lo, n, k), x) == if k == 0 then 0 else Choose(n - lo - 1, k - 1)
    decreases n - lo
  {
    hide Combinations, Holding, Prefixed;
    CombinationsEnd(lo, n, k);
    HoldingNone(x);
    if k > 0 {
      CombinationsStep(lo, n, k);
      var tails, rest := Combinations(lo + 1, n, k - 1), Combinations(lo + 1, n, k);
      HoldingConcat(Prefixed(lo, tails), rest, x);
      HoldingPrefixed(lo, tails, x);
      CombinationsCount(lo + 1, n, k - 1);
      if x == lo {
        HoldingBelow(lo + 1, n, k, x);
      } else {
        HoldingCount(lo + 1, n, k - 1, x);
        HoldingCount(lo + 1, n, k, x);
      }
    }
  }

  // ----- Splits

  /** The groups that are in the selection, or those that are not, one after the other. */
  function Gathered<T>(parts: seq<seq<T>>, selected: seq<nat>, inside: bool): seq<T> {
    if parts == [] then []
    else
      var n := |parts| - 1;
      Gathered(parts[..n], selected, inside) + if (n in selected) == inside then parts[n] else []
  }

  function SplitOf<T>(values: seq<T>, g: nat, selected: seq<nat>): Split<T> {
    Split(Gathered(Parts(values, g), selected, false), Gathered(Parts(values, g), selected, true))
  }

  function Splits<T>(values: seq<T>, g: nat, selections: seq<seq<nat>>): (splits: seq<Split<T>>)
    ensures |splits| == |selections| && forall i | 0 <= i < |splits| :: splits[i] == SplitOf(values, g, selections[i])
  {
    seq(|selections|, i requires 0 <= i < |selections| => SplitOf(values, g, selections[i]))
  }

  /** `cpcv_splits`. */
  method CpcvSplits<T>(values: seq<T>, groups: int, testGroups: int) returns (r: Result<seq<Split<T>>, SplitError>)
    ensures groups <= 1 || !(0 < testGroups < groups) ==> r == Err(BadGroups)
    ensures groups > 1 && 0 < testGroups < groups ==>
              r == if |values| < groups then Err(TooFewValues)
                   else Ok(Splits(values, groups, Combinations(0, groups, testGroups)))
  {
    hide Combinations, Parts, Part, Gathered;
    if groups <= 1 || !(0 < testGroups < groups) {
      return Err(BadGroups);
    }
    var partitions := Partition(values, groups);
    if partitions.Err? {
      return Err(partitions.error);
    }
    var selections := Combinations(0, groups, testGroups);
    var result: seq<Split<T>> := [];
    for i := 0 to |selections|
      invariant |result| == i && forall k | 0 <= k < i :: result[k] == SplitOf(values, groups, selections[k])
    {
      var test := Gather(partitions.value, selections[i], true);
      var train := Gather(partitions.value, selections[i], false);
      result := result + [Split(train, test)];
    }
    assert result == Splits(values, groups, selections);
    return Ok(result);
  }

  method Gather<T>(parts: seq<seq<T>>, selected: seq<nat>, inside: bool) returns (items: seq<T>)
    ensures items == Gathered(parts, selected, inside)
  {
    items := [];
    for i := 0 to |parts|
      invariant items == Gathered(parts[..i], selected, inside)
    {
      assert parts[..i + 1][..i] == parts[..i];
      if (i in selected) == inside {
        items := items + parts[i];
      }
    }
    assert parts[..|parts|] == parts;
  }

  // ----- What the splits are

  /** The group of the value at position `p`. */
  function GroupOf(n: nat, g: nat, p: nat, from: nat): (i: nat)
    requires 0 < g && from < g && Start(n, g, from) <= p < n
    ensures i < g && Start(n, g, i) <= p < Start(n, g, i + 1)
    decreases g - from
  {
    StartEnd(n, g);
    if p < Start(n, g, from + 1) then from else GroupOf(n, g, p, from + 1)
  }

  lemma OneGroup(n: nat, g: nat, p: nat, i: nat)
    requires 0 < g && p < n && i < g && Start(n, g, i) <= p < Start(n, g, i + 1)
    ensures GroupOf(n, g, p, 0) == i
  {
    hide Width;
    var j := GroupOf(n, g, p, 0);
    if j < i {
      StartMonotone(n, g, j + 1, i);
    } else if i < j {
      StartMonotone(n, g, i + 1, j);
    }
  }

  /** The values at the positions whose group is in the selection, or not, in their order. */
  function Sifted<T>(values: seq<T>, n: nat, g: nat, upTo: nat, selected: seq<nat>, inside: bool): seq<T>
    requires 0 < g && upTo <= |values| == n
  {
    if upTo == 0 then []
    else Sifted(values, n, g, upTo - 1, selected, inside) +
         if (GroupOf(n, g, upTo - 1, 0) in selected) == inside then [values[upTo - 1]] else []
  }

  lemma {:induction false} SiftedGroup<T>(values: seq<T>, g: nat, i: nat, upTo: nat, selected: seq<nat>, inside: bool)
    requires 0 < g && i < g && Start(|values|, g, i) <= upTo <= Start(|values|, g, i + 1) && upTo <= |values|
    ensures Sifted(values, |values|, g, upTo, selected, inside)
         == Sifted(values, |values|, g, Start(|values|, g, i), selected, inside)
            + if (i in selected) == inside then values[Start(|values|, g, i)..upTo] else []
  {
    hide Width;
    if upTo > Start(|values|, g, i) {
      SiftedGroup(values, g, i, upTo - 1, selected, inside);
      OneGroup(|values|, g, upTo - 1, i);
    }
  }

  lemma NoneSifted<T>(values: seq<T>, g: nat, selected: seq<nat>, inside: bool)
    requires 0 < g
    ensures Sifted(values, |values|, g, 0, selected, inside) == []
  {
  }

  lemma {:induction false} GatheredSifts<T>(values: seq<T>, g: nat, i: nat, selected: seq<nat>, inside: bool)
    requires 0 < g && i <= g
    ensures Start(|values|, g, i) <= |values|
    ensures Gathered(Parts(values, g)[..i], selected, inside)
         == Sifted(values, |values|, g, Start(|values|, g, i), selected, inside)
  {
    hide Start, Width, Sifted;
    StartZero(|values|, g);
    NoneSifted(values, g, selected, inside);
    if i > 0 {
      StartNext(|values|, g, i - 1);
      GatheredSifts(values, g, i - 1, selected, inside);
      SiftedGroup(values, g, i - 1, Start(|values|, g, i), selected, inside);
      assert Parts(values, g)[..i][..i - 1] == Parts(values, g)[..i - 1];
    }
  }

  /** Each side of a split keeps the values of its positions in order, and each position is on exactly
      one side. */
  lemma SplitSifts<T>(values: seq<T>, g: nat, selected: seq<nat>)
    requires 0 < g
    ensures SplitOf(values, g, selected).test == Sifted(values, |values|, g, |values|, selected, true)
    ensures SplitOf(values, g, selected).train == Sifted(values, |values|, g, |values|, selected, false)
    ensures multiset(SplitOf(values, g, selected).train) + multiset(SplitOf(values, g, selected).test)
            == multiset(values)
  {
    GatheredSifts(values, g, g, selected, true);
    GatheredSifts(values, g, g, selected, false);
    StartEnd(|values|, g);
    assert Parts(values, g)[..g] == Parts(values, g);
    SidesShare(values, g, |values|, selected);
    assert values[..|values|] == values;
  }

  lemma SiftedStep<T>(values: seq<T>, g: nat, upTo: nat, selected: seq<nat>, inside: bool)
    requires 0 < g && 0 < upTo <= |values|
    ensures multiset(Sifted(values, |values|, g, upTo, selected, inside))
         == multiset(Sifted(values, |values|, g, upTo - 1, selected, inside))
            + if (GroupOf(|values|, g, upTo - 1, 0) in selected) == inside then multiset{values[upTo - 1]}
                else multiset{}
  {
    hide Width, GroupOf;
  }

  lemma {:induction false} SidesShare<T>(values: seq<T>, g: nat, upTo: nat, selected: seq<nat>)
    requires 0 < g && upTo <= |values|
    ensures multiset(Sifted(values, |values|, g, upTo, selected, false))
            + multiset(Sifted(values, |values|, g, upTo, selected, true))
         == multiset(values[..upTo])
  {
    hide Sifted, Start, Width, GroupOf;
    if upTo == 0 {
      NoneSifted(values, g, selected, false);
      NoneSifted(values, g, selected, true);
    } else {
      SidesShare(values, g, upTo - 1, selected);
      assert values[..upTo] == values[..upTo - 1] + [values[upTo - 1]];
      StartZero(|values|, g);
      SiftedStep(values, g, upTo, selected, false);
      SiftedStep(values, g, upTo, selected, true);
    }
  }

  /** How often a value is on the test side, over all splits. */
  function TestCount<T(==)>(splits: seq<Split<T>>, x: T): nat {
    if splits == [] then 0
    else TestCount(splits[..|splits| - 1], x) + multiset(splits[|splits| - 1].test)[x]
  }

  /** The same, counting the first positions alone. */
  function SiftedCount<T(==)>(values: seq<T>, g: nat, selections: seq<seq<nat>>, upTo: nat, x: T): nat
    requires 0 < g && upTo <= |values|
  {
    if selections == [] then 0
    else
      SiftedCount(values, g, selections[..|selections| - 1], upTo, x)
      + multiset(Sifted(values, |values|, g, upTo, selections[|selections| - 1], true))[x]
  }

  lemma {:induction false} TestCountSifts<T>(values: seq<T>, g: nat, selections: seq<seq<nat>>, x: T)
    requires 0 < g
    ensures TestCount(Splits(values, g, selections), x) == SiftedCount(values, g, selections, |values|, x)
  {
    hide Sifted, SplitOf;
    if selections != [] {
      var n := |selections| - 1;
      TestCountSifts(values, g, selections[..n], x);
      assert Splits(values, g, selections)[..n] == Splits(values, g, selections[..n]);
      SplitSifts(values, g, selections[n]);
    }
  }

  /** One more position is counted in the splits whose selection has its group. */
  lemma {:induction false} SiftedCountStep<T>(values: seq<T>, g: nat, selections: seq<seq<nat>>, upTo: nat, x: T)
    requires 0 < g && 0 < upTo <= |values|
    ensures SiftedCount(values, g, selections, upTo, x)
         == SiftedCount(values, g, selections, upTo - 1, x)
            + if values[upTo - 1] == x then Holding(selections, GroupOf(|values|, g, upTo - 1, 0)) else 0
  {
    hide Sifted, GroupOf;
    if selections != [] {
      var n := |selections| - 1;
      SiftedCountStep(values, g, selections[..n], upTo, x);
      SiftedStep(values, g, upTo, selections[n], true);
    }
  }

  lemma {:induction false} NothingCounted<T>(values: seq<T>, g: nat, selections: seq<seq<nat>>, x: T)
    requires 0 < g
    ensures SiftedCount(values, g, selections, 0, x) == 0
  {
    if selections != [] {
      NothingCounted(values, g, selections[..|selections| - 1], x);
      NoneSifted(values, g, selections[|selections| - 1], true);
    }
  }

  lemma {:induction false} CountedTimes<T>(values: seq<T>, g: nat, testGroups: nat, upTo: nat, x: T)
    requires 0 < testGroups < g && upTo <= |values|
    ensures SiftedCount(values, g, Combinations(0, g, testGroups), upTo, x)
         == multiset(values[..upTo])[x] * Choose(g - 1, testGroups - 1)
  {
    hide Sifted, GroupOf, Combinations, Choose, Holding, SiftedCount;
    var selections := Combinations(0, g, testGroups);
    if upTo == 0 {
      NothingCounted(values, g, selections, x);
    } else {
      CountedTimes(values, g, testGroups, upTo - 1, x);
      SiftedCountStep(values, g, selections, upTo, x);
      HoldingCount(0, g, testGroups, GroupOf(|values|, g, upTo - 1, 0));
      assert values[..upTo] == values[..upTo - 1] + [values[upTo - 1]];
      OneMoreTime(multiset(values[..upTo - 1])[x], Choose(g - 1, testGroups - 1));
    }
  }

  lemma OneMoreTime(n: nat, c: nat)
    ensures (n + 1) * c == n * c + c
  {
  }

  /** There are `Choose(groups, testGroups)` splits, and a value is on their test sides as often as it
      occurs, `Choose(groups - 1, testGroups - 1)` times over. */
  lemma SplitsBalanced<T>(values: seq<T>, groups: nat, testGroups: nat, x: T)
    requires 0 < testGroups < groups <= |values|
    ensures var splits := Splits(values, groups, Combinations(0, groups, testGroups));
            && |splits| == Choose(groups, testGroups)
            && TestCount(splits, x) == multiset(values)[x] * Choose(groups - 1, testGroups - 1)
  {
    hide Combinations, Choose, TestCount, SiftedCount, SplitOf;
    CombinationsCount(0, groups, testGroups);
    TestCountSifts(values, groups, Combinations(0, groups, testGroups), x);
    CountedTimes(values, groups, testGroups, |values|, x);
    assert values[..|values|] == values;
  }
}
