/** External series brought to the timestamps of the bars: core/features/alignment.py and
    core/features/series.py. */
module AsOf {
  import opened Prelude

  datatype Observation = Observation(series: string, time: int, availableAt: Option<int>, value: real)
  {
    /** When it can be used: by default as soon as it is made. */
    function Available(): int {
      if availableAt.Some? then availableAt.value else time
    }
  }

  // ----- Sorting by time

  predicate TimeOrdered(xs: seq<Observation>) {
    forall i, j | 0 <= i < j < |xs| :: xs[i].time <= xs[j].time
  }

  function Inserted(xs: seq<Observation>, o: Observation): seq<Observation> {
    if xs != [] && xs[|xs| - 1].time > o.time then Inserted(xs[..|xs| - 1], o) + [xs[|xs| - 1]] else xs + [o]
  }

  /** The stable sort by time. */
  function Sorted(xs: seq<Observation>): seq<Observation> {
    if xs == [] then [] else Inserted(Sorted(xs[..|xs| - 1]), xs[|xs| - 1])
  }

  lemma {:induction false} InsertedPermutes(xs: seq<Observation>, o: Observation)
    ensures multiset(Inserted(xs, o)) == multiset(xs) + multiset{o}
  {
    if xs != [] && xs[|xs| - 1].time > o.time {
      var n := |xs| - 1;
      InsertedPermutes(xs[..n], o);
      assert xs == xs[..n] + [xs[n]];
    }
  }

  lemma InsertedHas(xs: seq<Observation>, o: Observation)
    ensures forall x | x in Inserted(xs, o) :: x in xs || x == o
  {
    hide Inserted;
    InsertedPermutes(xs, o);
    forall x | x in Inserted(xs, o)
      ensures x in xs || x == o
    {
      assert x in multiset(Inserted(xs, o));
    }
  }

  lemma {:induction false} InsertedOrdered(xs: seq<Observation>, o: Observation)
    requires TimeOrdered(xs)
    ensures TimeOrdered(Inserted(xs, o))
  {
    if xs != [] && xs[|xs| - 1].time > o.time {
      var n := |xs| - 1;
      InsertedOrdered(xs[..n], o);
      InsertedHas(xs[..n], o);
      var front := Inserted(xs[..n], o);
      forall i | 0 <= i < |front|
        ensures front[i].time <= xs[n].time
      {
        assert front[i] in front;
      }
    }
  }

  lemma {:induction false} SortedOrdered(xs: seq<Observation>)
    ensures TimeOrdered(Sorted(xs)) && multiset(Sorted(xs)) == multiset(xs)
  {
    hide Inserted;
    if xs == [] {
    } else {
      var n := |xs| - 1;
      SortedOrdered(xs[..n]);
      InsertedOrdered(Sorted(xs[..n]), xs[n]);
      InsertedPermutes(Sorted(xs[..n]), xs[n]);
      assert xs == xs[..n] + [xs[n]];
    }
  }

  /** What is in order stays as it is. */
  lemma {:induction false} SortedFixes(xs: seq<Observation>)
    requires TimeOrdered(xs)
    ensures Sorted(xs) == xs
  {
    if xs == [] {
    } else {
      SortedFixes(xs[..|xs| - 1]);
    }
  }

  // ----- Alignment

  /** An observation can be used at a time when it has been made and is available. */
  predicate Usable(o: Observation, target: int) {
    o.time <= target && o.Available() <= target
  }

  /** The usable observation with the greatest time, the last one given if there are several. */
  function Latest(xs: seq<Observation>, target: int): Option<Observation> {
    if xs == [] then None
    else
      var best, last := Latest(xs[..|xs| - 1], target), xs[|xs| - 1];
      if Usable(last, target) && (best.None? || best.value.time <= last.time) then Some(last) else best
  }

  function ValueOf(o: Option<Observation>): Option<real> {
    if o.Some? then Some(o.value.value) else None
  }

  /** Said without recursion: nothing usable is later, or as late and given after it; usable is what has been
      made, and released if it has a time of release, by then. */
  lemma {:induction false} LatestIsLatest(xs: seq<Observation>, target: int)
    ensures forall o ::
              Usable(o, target) <==> o.time <= target && (o.availableAt.Some? ==> o.availableAt.value <= target)
    ensures match Latest(xs, target)
            case None => forall o | o in xs :: !Usable(o, target)
            case Some(best) =>
              exists i | 0 <= i < |xs| ::
                && xs[i] == best && Usable(best, target)
                && forall j | 0 <= j < |xs| && Usable(xs[j], target) ::
                    xs[j].time < best.time || (xs[j].time == best.time && j <= i)
  {
    if xs == [] {
    } else {
      var n := |xs| - 1;
      LatestIsLatest(xs[..n], target);
      assert xs == xs[..n] + [xs[n]];
      var best := Latest(xs[..n], target);
      if best.Some? {
        var i :| 0 <= i < n && xs[..n][i] == best.value && Usable(best.value, target)
                 && forall j | 0 <= j < n && Usable(xs[..n][j], target) ::
                      xs[..n][j].time < best.value.time || (xs[..n][j].time == best.value.time && j <= i);
        assert forall j | 0 <= j < n :: xs[..n][j] == xs[j];
        if Latest(xs, target) == best {
          assert xs[i] == best.value;
        } else {
          assert xs[n] == Latest(xs, target).value;
        }
      } else if Latest(xs, target).Some? {
        assert xs[n] == Latest(xs, target).value;
        assert forall j | 0 <= j < n :: xs[j] == xs[..n][j] && xs[j] in xs[..n];
      }
    }
  }

  /** The first usable observation met from the end. */
  function Scan(xs: seq<Observation>, target: int): Option<Observation> {
    if xs == [] then None
    else if Usable(xs[|xs| - 1], target) then Some(xs[|xs| - 1])
    else Scan(xs[..|xs| - 1], target)
  }

  lemma {:induction false} ScanIn(xs: seq<Observation>, target: int)
    ensures Scan(xs, target).Some? ==> Scan(xs, target).value in xs
  {
    if xs == [] {
    } else {
      ScanIn(xs[..|xs| - 1], target);
    }
  }

  lemma {:induction false} ScanInserted(xs: seq<Observation>, o: Observation, target: int)
    requires TimeOrdered(xs)
    ensures var best := Scan(xs, target);
            Scan(Inserted(xs, o), target)
            == if Usable(o, target) && (best.None? || best.value.time <= o.time) then Some(o) else best
  {
    if xs != [] && xs[|xs| - 1].time > o.time {
      ScanInserted(xs[..|xs| - 1], o, target);
    } else {
      ScanIn(xs, target);
      assert (xs + [o])[..|xs|] == xs;
    }
  }

  /** Scanning the sorted observations from the end finds the latest, in whatever order they are given. */
  lemma {:induction false} ScanSorted(xs: seq<Observation>, target: int)
    ensures Scan(Sorted(xs), target) == Latest(xs, target)
  {
    hide Inserted;
    if xs == [] {
    } else {
      var n := |xs| - 1;
      ScanSorted(xs[..n], target);
      SortedOrdered(xs[..n]);
      ScanInserted(Sorted(xs[..n]), xs[n], target);
    }
  }

  /** `bisect_right`: behind the last of the times that are not after the target. */
  method BisectRight(times: seq<int>, target: int) returns (p: nat)
    requires forall i, j | 0 <= i < j < |times| :: times[i] <= times[j]
    ensures p <= |times|
    ensures forall i | 0 <= i < p :: times[i] <= target
    ensures forall i | p <= i < |times| :: target < times[i]
  {
    var lo, hi := 0, |times|;
    while lo < hi
      invariant 0 <= lo <= hi <= |times|
      invariant forall i | 0 <= i < lo :: times[i] <= target
      invariant forall i | hi <= i < |times| :: target < times[i]
    {
      var mid := (lo + hi) / 2;
      if target < times[mid] {
        hi := mid;
      } else {
        lo := mid + 1;
      }
    }
    return lo;
  }

  /** Nothing usable lies behind the bisection point. */
  lemma {:induction false} ScanTo(xs: seq<Observation>, p: nat, target: int)
    requires p <= |xs| && forall i | p <= i < |xs| :: !Usable(xs[i], target)
    ensures Scan(xs[..p], target) == Scan(xs, target)
  {
    if p == |xs| {
      assert xs[..p] == xs;
    } else {
      ScanTo(xs[..|xs| - 1], p, target);
      assert xs[..|xs| - 1][..p] == xs[..p];
    }
  }

  /** `align_as_of`: one bisection and one backward scan a target. */
  method AlignAsOf(targets: seq<int>, observations: seq<Observation>) returns (result: seq<Option<real>>)
    ensures |result| == |targets|
    ensures forall k | 0 <= k < |targets| :: result[k] == ValueOf(Latest(observations, targets[k]))
  {
    hide Sorted, Latest;
    var ordered := Sorted(observations);
    SortedOrdered(observations);
    var times := seq(|ordered|, i requires 0 <= i < |ordered| => ordered[i].time);
    result := [];
    for k := 0 to |targets|
      invariant |result| == k
      invariant forall j | 0 <= j < k :: result[j] == ValueOf(Latest(observations, targets[j]))
    {
      var target := targets[k];
      var p := BisectRight(times, target);
      assert forall i | 0 <= i < |ordered| :: ordered[i].time == times[i];
      ScanTo(ordered, p, target);
      ScanSorted(observations, target);
      var value := ScanBack(ordered, p, target);
      result := result + [value];
    }
  }

  method ScanBack(ordered: seq<Observation>, p: nat, target: int) returns (value: Option<real>)
    requires p <= |ordered| && forall i | 0 <= i < p :: ordered[i].time <= target
    ensures value == ValueOf(Scan(ordered[..p], target))
  {
    var position := p - 1;
    while position >= 0
      invariant -1 <= position < p
      invariant Scan(ordered[..position + 1], target) == Scan(ordered[..p], target)
    {
      assert ordered[..position + 1][..position] == ordered[..position];
      if ordered[position].Available() <= target {
        return Some(ordered[position].value);
      }
      position := position - 1;
    }
    return None;
  }

  /** As the target advances, the observation chosen never moves back in time. */
  lemma LatestAdvances(xs: seq<Observation>, early: int, late: int)
    requires early <= late && Latest(xs, early).Some?
    ensures Latest(xs, late).Some? && Latest(xs, early).value.time <= Latest(xs, late).value.time
  {
    LatestIsLatest(xs, early);
    LatestIsLatest(xs, late);
    var best := Latest(xs, early).value;
    assert best in xs && Usable(best, late);
  }

  /** Those usable at a time, in the order given. */
  function UsableOnly(xs: seq<Observation>, target: int): seq<Observation> {
    if xs == [] then []
    else UsableOnly(xs[..|xs| - 1], target) + if Usable(xs[|xs| - 1], target) then [xs[|xs| - 1]] else []
  }

  lemma {:induction false} LatestOfUsable(xs: seq<Observation>, target: int)
    ensures Latest(UsableOnly(xs, target), target) == Latest(xs, target)
  {
    if xs == [] {
    } else {
      LatestOfUsable(xs[..|xs| - 1], target);
      var front, last := UsableOnly(xs[..|xs| - 1], target), xs[|xs| - 1];
      assert (front + [last])[..|front|] == front && front + [] == front;
    }
  }

  /** No look-ahead: two sets of observations with the same ones made and available by a time align to
      the same value at that time, whatever else they hold. */
  lemma NoLookAhead(xs: seq<Observation>, ys: seq<Observation>, target: int)
    requires UsableOnly(xs, target) == UsableOnly(ys, target)
    ensures Latest(xs, target) == Latest(ys, target)
  {
    LatestOfUsable(xs, target);
    LatestOfUsable(ys, target);
  }

  // ----- Resampling

  /** The calendar period of a time: its ISO week or its month. */
  type Periods = int -> int

  /** The last observation of each run of one period. */
  function Collapsed(xs: seq<Observation>, period: Periods): (ys: seq<Observation>)
    ensures ys == [] <==> xs == []
    ensures xs != [] ==> ys[|ys| - 1] == xs[|xs| - 1]
  {
    if xs == [] then []
    else
      var n := |xs| - 1;
      var front := Collapsed(xs[..n], period);
      if n > 0 && period(xs[n].time) == period(xs[n - 1].time) then front[..|front| - 1] + [xs[n]] else front + [xs[n]]
  }

  predicate OneSeries(xs: seq<Observation>) {
    !exists i, j | 0 <= i < j < |xs| :: xs[i].series != xs[j].series
  }

  function Resampled(xs: seq<Observation>, calendar: bool, period: Periods): Result<seq<Observation>, ()> {
    if !OneSeries(xs) then Err(())
    else if calendar then Ok(Collapsed(Sorted(xs), period))
    else Ok(Sorted(xs))
  }

  /** `resample_completed`; `calendar` is set for weeks and months, the timeframes it collapses to. */
  method ResampleCompleted(observations: seq<Observation>, calendar: bool, period: Periods)
    returns (r: Result<seq<Observation>, ()>)
    ensures r == Resampled(observations, calendar, period)
  {
    hide Sorted, Collapsed;
    var ordered := Sorted(observations);
    SortedOrdered(observations);
    if ordered == [] {
      assert |multiset(observations)| == 0;
      NoneCollapsed(period);
      return Ok([]);
    }
    var ids := set o | o in ordered :: o.series;
    SeriesIds(observations, ordered, ids);
    if |ids| != 1 {
      return Err(());
    }
    if !calendar {
      return Ok(ordered);
    }
    var collapsed: seq<Observation> := [];
    var current, currentKey := None, None;
    NoneCollapsed(period);
    for i := 0 to |ordered|
      invariant current.Some? <==> i > 0
      invariant i > 0 ==> current == Some(ordered[i - 1]) && currentKey == Some(period(ordered[i - 1].time))
      invariant collapsed + (if current.Some? then [current.value] else []) == Collapsed(ordered[..i], period)
    {
      CollapsedStep(ordered, i, period);
      var key := period(ordered[i].time);
      if current.Some? && Some(key) != currentKey {
        collapsed := collapsed + [current.value];
      }
      current, currentKey := Some(ordered[i]), Some(key);
    }
    assert ordered[..|ordered|] == ordered;
    return Ok(collapsed + [current.value]);
  }

  lemma NoneCollapsed(period: Periods)
    ensures Collapsed([], period) == []
  {
  }

  lemma CollapsedStep(xs: seq<Observation>, i: nat, period: Periods)
    requires i < |xs|
    ensures var front := Collapsed(xs[..i], period);
            Collapsed(xs[..i + 1], period)
            == if i > 0 && period(xs[i].time) == period(xs[i - 1].time) then front[..|front| - 1] + [xs[i]]
                else front + [xs[i]]
  {
    assert xs[..i + 1][..i] == xs[..i];
  }

  /** There is one series id unless two observations differ in it. */
  lemma SeriesIds(xs: seq<Observation>, ordered: seq<Observation>, ids: set<string>)
    requires multiset(ordered) == multiset(xs) && ordered != [] && ids == set o | o in ordered :: o.series
    ensures |ids| == 1 <==> OneSeries(xs)
  {
    assert forall o :: o in ordered <==> o in multiset(xs);
    assert ordered[0] in ordered;
    assert xs != [] && xs[0] in multiset(xs);
    if i, j :| 0 <= i < j < |xs| && xs[i].series != xs[j].series {
      assert xs[i] in ordered && xs[j] in ordered;
      assert xs[i].series in ids && xs[j].series in ids;
      assert {xs[i].series, xs[j].series} <= ids;
      SubsetSize({xs[i].series, xs[j].series}, ids);
    } else {
      forall id | id in ids
        ensures id == xs[0].series
      {
        var o :| o in ordered && o.series == id;
        var k :| 0 <= k < |xs| && xs[k] == o;
      }
      assert xs[0].series in ids;
      assert ids == {xs[0].series};
    }
  }

  lemma {:induction false} SubsetSize<T>(a: set<T>, b: set<T>)
    requires a <= b
    ensures |a| <= |b|
  {
    assert b == a + (b - a);
  }

  /** Neighbours in a resampled series are of different periods. */
  predicate PeriodsDiffer(xs: seq<Observation>, period: Periods) {
    forall i | 0 < i < |xs| :: period(xs[i - 1].time) != period(xs[i].time)
  }

  lemma {:induction false} CollapsedDiffers(xs: seq<Observation>, period: Periods)
    ensures PeriodsDiffer(Collapsed(xs, period), period)
  {
    if xs == [] {
    } else {
      CollapsedDiffers(xs[..|xs| - 1], period);
    }
  }

  lemma {:induction false} CollapsedFixes(xs: seq<Observation>, period: Periods)
    requires PeriodsDiffer(xs, period)
    ensures Collapsed(xs, period) == xs
  {
    if xs == [] {
    } else {
      CollapsedFixes(xs[..|xs| - 1], period);
    }
  }

  /** `o` is at place `i`, the last of a run of one period. */
  predicate EndsRun(xs: seq<Observation>, period: Periods, i: nat, o: Observation) {
    i < |xs| && xs[i] == o && (i + 1 == |xs| || period(xs[i + 1].time) != period(o.time))
  }

  /** `o` ends a run before place `m`. */
  predicate EndsBefore(xs: seq<Observation>, period: Periods, o: Observation, m: nat) {
    exists i: nat | i < m :: EndsRun(xs, period, i, o)
  }

  lemma EndsBeforeNext(xs: seq<Observation>, period: Periods, o: Observation, m: nat)
    ensures EndsBefore(xs, period, o, m + 1) <==> EndsBefore(xs, period, o, m) || EndsRun(xs, period, m, o)
  {
    hide EndsRun;
  }

  lemma EndsBeforePrefix(xs: seq<Observation>, period: Periods, o: Observation, n: nat)
    requires 0 < n <= |xs|
    ensures EndsBefore(xs[..n], period, o, n - 1) <==> EndsBefore(xs, period, o, n - 1)
  {
    forall i: nat | i < n - 1
      ensures EndsRun(xs[..n], period, i, o) <==> EndsRun(xs, period, i, o)
    {
    }
  }

  lemma {:induction false} CollapsedBeforeLast(xs: seq<Observation>, period: Periods, o: Observation)
    requires xs != []
    ensures var ys := Collapsed(xs, period); o in ys[..|ys| - 1] <==> EndsBefore(xs, period, o, |xs| - 1)
  {
    hide EndsBefore, EndsRun;
    var n := |xs| - 1;
    if n == 0 {
      assert !EndsBefore(xs, period, o, 0) by {
        NoneBefore(xs, period, o);
      }
    } else {
      CollapsedBeforeLast(xs[..n], period, o);
      EndsBeforePrefix(xs, period, o, n);
      EndsBeforeNext(xs, period, o, n - 1);
      var front, ys := Collapsed(xs[..n], period), Collapsed(xs, period);
      LastEndsRun(xs, period, o, n - 1);
      CollapsedFront(xs, period, n);
      assert front == front[..|front| - 1] + [xs[n - 1]];
    }
  }

  lemma CollapsedFront(xs: seq<Observation>, period: Periods, n: nat)
    requires 0 < n == |xs| - 1
    ensures var front, ys := Collapsed(xs[..n], period), Collapsed(xs, period);
            ys[..|ys| - 1] == if period(xs[n].time) == period(xs[n - 1].time) then front[..|front| - 1] else front
  {
  }

  lemma LastEndsRun(xs: seq<Observation>, period: Periods, o: Observation, m: nat)
    requires m + 2 == |xs|
    ensures EndsRun(xs, period, m, o) <==> xs[m] == o && period(xs[m + 1].time) != period(o.time)
  {
  }

  lemma NoneBefore(xs: seq<Observation>, period: Periods, o: Observation)
    ensures !EndsBefore(xs, period, o, 0)
  {
  }

  /** A resampled series holds exactly the observations that end a run of their period. */
  lemma CollapsedKeeps(xs: seq<Observation>, period: Periods, o: Observation)
    ensures o in Collapsed(xs, period) <==> exists i: nat :: EndsRun(xs, period, i, o)
  {
    if xs != [] {
      var ys := Collapsed(xs, period);
      assert ys == ys[..|ys| - 1] + [xs[|xs| - 1]];
      CollapsedBeforeLast(xs, period, o);
      EndsBeforeNext(xs, period, o, |xs| - 1);
      assert (exists i: nat :: EndsRun(xs, period, i, o)) <==> EndsBefore(xs, period, o, |xs|);
      hide Collapsed;
    }
  }

  lemma CollapsedIn(xs: seq<Observation>, period: Periods)
    ensures forall o | o in Collapsed(xs, period) :: o in xs
  {
    hide Collapsed;
    forall o | o in Collapsed(xs, period)
      ensures o in xs
    {
      CollapsedKeeps(xs, period, o);
      var i: nat :| EndsRun(xs, period, i, o);
      assert xs[i] in xs;
    }
  }

  lemma {:induction false} CollapsedOrdered(xs: seq<Observation>, period: Periods)
    requires TimeOrdered(xs)
    ensures TimeOrdered(Collapsed(xs, period))
  {
    hide Collapsed;
    if xs == [] {
    } else {
      var n := |xs| - 1;
      var front := Collapsed(xs[..n], period);
      CollapsedOrdered(xs[..n], period);
      CollapsedIn(xs[..n], period);
      CollapsedStep(xs, n, period);
      assert xs[..n + 1] == xs;
      forall i | 0 <= i < |front|
        ensures front[i].time <= xs[n].time
      {
        assert front[i] in front;
        var k :| 0 <= k < n && xs[..n][k] == front[i];
      }
    }
  }

  lemma SomeSeries(xs: seq<Observation>, ys: seq<Observation>)
    requires OneSeries(xs) && forall o | o in ys :: o in xs
    ensures OneSeries(ys)
  {
    forall i, j | 0 <= i < j < |ys|
      ensures ys[i].series == ys[j].series
    {
      assert ys[i] in xs && ys[j] in xs;
      var k :| 0 <= k < |xs| && xs[k] == ys[i];
      var l :| 0 <= l < |xs| && xs[l] == ys[j];
      assert if k < l then xs[k].series == xs[l].series else xs[l].series == xs[k].series;
    }
  }

  /** Resampling twice is resampling once. */
  lemma ResampleIdempotent(xs: seq<Observation>, calendar: bool, period: Periods)
    requires Resampled(xs, calendar, period).Ok?
    ensures Resampled(Resampled(xs, calendar, period).value, calendar, period) == Resampled(xs, calendar, period)
  {
    hide Sorted, Collapsed, OneSeries, PeriodsDiffer, TimeOrdered;
    var sorted := Sorted(xs);
    SortedOrdered(xs);
    CollapsedIn(sorted, period);
    CollapsedOrdered(sorted, period);
    CollapsedDiffers(sorted, period);
    CollapsedFixes(Collapsed(sorted, period), period);
    SortedFixes(sorted);
    SortedFixes(Collapsed(sorted, period));
    forall o | o in sorted
      ensures o in xs
    {
      assert o in multiset(sorted);
    }
    SomeSeries(xs, sorted);
    SomeSeries(xs, Collapsed(sorted, period));
  }

  /** The periods of a calendar follow one another. */
  ghost predicate Calendar(period: Periods) {
    forall s, t :: s <= t ==> period(s) <= period(t)
  }

  /** After resampling to weeks or months, what is aligned to a target is always the last observation
      of its period among all that were given, whether or not it is the last one usable. */
  lemma AlignedEndsPeriod(xs: seq<Observation>, period: Periods, target: int, o: Observation)
    requires Calendar(period) && Resampled(xs, true, period).Ok?
    requires Latest(Resampled(xs, true, period).value, target) == Some(o)
    ensures o in xs && Usable(o, target)
    ensures forall x | x in xs && period(x.time) == period(o.time) :: x.time <= o.time
  {
    hide Sorted, Collapsed, Latest;
    var sorted := Sorted(xs);
    SortedOrdered(xs);
    LatestIsLatest(Collapsed(sorted, period), target);
    CollapsedKeeps(sorted, period, o);
    var i: nat :| EndsRun(sorted, period, i, o);
    assert o in multiset(xs);
    forall x | x in xs && period(x.time) == period(o.time)
      ensures x.time <= o.time
    {
      assert x in multiset(sorted);
      var j :| 0 <= j < |sorted| && sorted[j] == x;
    }
  }

  /** Resampling hides the observations of a period that is still running: if it has an observation
      after the target, nothing of that period, or of a later one, is aligned. */
  lemma RunningPeriodHidden(xs: seq<Observation>, period: Periods, target: int, o: Observation, last: Observation)
    requires Calendar(period) && Resampled(xs, true, period).Ok?
    requires Latest(Resampled(xs, true, period).value, target) == Some(o)
    requires last in xs && last.time > target
    ensures period(o.time) < period(last.time)
  {
    hide Resampled;
    AlignedEndsPeriod(xs, period, target, o);
    assert o.time < last.time;
  }

  /** And so it does if the last observation of a period has been made, but is not available yet: what is
      aligned is of another period, whatever else of that one is available. */
  lemma UnavailablePeriodHidden(xs: seq<Observation>, period: Periods, target: int, o: Observation, last: Observation)
    requires Calendar(period) && Resampled(xs, true, period).Ok?
    requires Latest(Resampled(xs, true, period).value, target) == Some(o)
    requires last in xs && !Usable(last, target)
    requires forall x | x in xs && period(x.time) == period(last.time) && x != last :: x.time < last.time
    ensures period(o.time) != period(last.time)
  {
    hide Resampled, Latest;
    AlignedEndsPeriod(xs, period, target, o);
  }
}
