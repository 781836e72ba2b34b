/** The summary of rejected candidates handed to the model: `failure_context` of
    memory/evidence_knowledge.py. */
module FailureContext {
  import opened Prelude
  import opened EvidenceStore
  import opened EvidenceKnowledge

  /** The digest of a comparison key, a candidate and its failed gates in sorted order: what it keeps of
      the gates is how often each occurs. */
  datatype Signature = Signature(comparisonKey: Option<string>, hash: string, gates: multiset<string>)

  /** A rejected candidate with the fields of its attempt that are shown. */
  datatype Rejection = Rejection(candidate: Candidate, generation: int, comparisonKey: Option<string>)

  datatype Group = Group(shown: Rejection, occurrences: nat)

  function SignatureOf(r: Rejection): Signature {
    Signature(r.comparisonKey, r.candidate.hash, multiset(r.candidate.failedGates))
  }

  /** The rejections among the first `n` candidates of an attempt. */
  function AttemptRejections(p: Payload, n: nat, keys: map<string, string>): seq<Rejection>
    requires p.AttemptPayload? && n <= |p.candidates|
  {
    if n == 0 then []
    else AttemptRejections(p, n - 1, keys) +
         if p.candidates[n - 1].status == "REJECT" then [Rejection(p.candidates[n - 1], p.generation,
             KeyOf(keys, p.run))] else []
  }

  /** The rejections of the events from `i` on, the latest event first. */
  function Rejections(journal: seq<Event>, i: nat, keys: map<string, string>): seq<Rejection>
    requires i <= |journal|
    decreases |journal| - i
  {
    if i == |journal| then []
    else
      var later, p := Rejections(journal, i + 1, keys), journal[i].payload;
      if p.AttemptPayload? then later + AttemptRejections(p, |p.candidates|, keys) else later
  }

  // ----- Groups

  /** Where a group of the signature stands, or the number of groups. */
  function Find(groups: seq<Group>, s: Signature): (i: nat)
    ensures i <= |groups|
    ensures i < |groups| ==> SignatureOf(groups[i].shown) == s
    ensures forall k | 0 <= k < i :: SignatureOf(groups[k].shown) != s
  {
    if groups == [] then 0
    else if SignatureOf(groups[0].shown) == s then 0
    else 1 + Find(groups[1..], s)
  }

  function Grouped(groups: seq<Group>, r: Rejection): seq<Group> {
    var i := Find(groups, SignatureOf(r));
    if i < |groups| then groups[i := groups[i].(occurrences := groups[i].occurrences + 1)]
    else groups + [Group(r, 1)]
  }

  function Groups(rs: seq<Rejection>): seq<Group> {
    if rs == [] then [] else Grouped(Groups(rs[..|rs| - 1]), rs[|rs| - 1])
  }

  lemma GroupsSnoc(rs: seq<Rejection>, r: Rejection)
    ensures Groups(rs + [r]) == Grouped(Groups(rs), r)
  {
    assert (rs + [r])[..|rs|] == rs;
  }

  function Shorter(groups: seq<Group>, limit: nat): seq<Group> {
    if limit < |groups| then groups[..limit] else groups
  }

  /** `failure_context`: backwards over the events, forwards over the rows of each, counting in the
      groups in the order in which they were met, and the first few of them. */
  method Summarise(store: Store, limit: int) returns (r: Result<seq<Group>, ()>)
    ensures limit < 1 ==> r == Err(())
    ensures limit >= 1 ==> r == Ok(Shorter(Groups(Rejections(store.events, 0, Keys(store.events))), limit))
    ensures limit >= 1 ==>
              var all := Groups(Rejections(store.events, 0, Keys(store.events)));
              r.value <= all && |r.value| == if limit < |all| then limit else |all|
  {
    hide Keys, Groups, Grouped;
    if limit < 1 {
      return Err(());
    }
    var events := store.events;
    var keys := ReadKeys(events);
    var groups: seq<Group> := [];
    var i := |events|;
    assert groups == Groups([]) by {
      NoGroups();
    }
    while i > 0
      invariant 0 <= i <= |events|
      invariant groups == Groups(Rejections(events, i, keys))
    {
      i := i - 1;
      var p := events[i].payload;
      if p.AttemptPayload? {
        ghost var later := Rejections(events, i + 1, keys);
        assert later + AttemptRejections(p, 0, keys) == later;
        for n := 0 to |p.candidates|
          invariant groups == Groups(later + AttemptRejections(p, n, keys))
        {
          ghost var sofar := later + AttemptRejections(p, n, keys);
          if p.candidates[n].status == "REJECT" {
            var row := Rejection(p.candidates[n], p.generation, KeyOf(keys, p.run));
            GroupsSnoc(sofar, row);
            assert sofar + [row] == later + AttemptRejections(p, n + 1, keys);
            groups := Count(groups, row);
          } else {
            assert sofar == later + AttemptRejections(p, n + 1, keys);
          }
        }
      }
    }
    return Ok(if limit < |groups| then groups[..limit] else groups);
  }

  lemma NoGroups()
    ensures Groups([]) == []
  {
  }

  /** A row bumps the counter of its group or opens one. */
  method Count(groups: seq<Group>, row: Rejection) returns (after: seq<Group>)
    ensures after == Grouped(groups, row)
  {
    var i := Find(groups, SignatureOf(row));
    if i < |groups| {
      after := groups[i := groups[i].(occurrences := groups[i].occurrences + 1)];
    } else {
      after := groups + [Group(row, 1)];
    }
  }

  method ReadKeys(events: seq<Event>) returns (keys: map<string, string>)
    ensures keys == Keys(events)
  {
    keys := map[];
    for i := 0 to |events|
      invariant keys == Keys(events[..i])
    {
      assert events[..i + 1][..i] == events[..i];
      var p := events[i].payload;
      if p.ManifestPayload? {
        keys := keys[p.run := p.comparisonKey];
      }
    }
    assert events[..|events|] == events;
  }

  // ----- What the groups are

  /** How many of the rejections have the signature. */
  function Occurrences(rs: seq<Rejection>, s: Signature): nat {
    if rs == [] then 0
    else Occurrences(rs[..|rs| - 1], s) + if SignatureOf(rs[|rs| - 1]) == s then 1 else 0
  }

  /** Where the signature is met first, or the number of rejections. */
  function First(rs: seq<Rejection>, s: Signature): (i: nat)
    ensures i <= |rs|
    ensures i < |rs| ==> SignatureOf(rs[i]) == s
    ensures forall k | 0 <= k < i :: SignatureOf(rs[k]) != s
  {
    if rs == [] then 0
    else
      var i := First(rs[..|rs| - 1], s);
      if i < |rs| - 1 then i else if SignatureOf(rs[|rs| - 1]) == s then |rs| - 1 else |rs|
  }

  /** A group shows the rejection that met its signature first and counts all of them. */
  ghost predicate Represents(rs: seq<Rejection>, g: Group) {
    var s := SignatureOf(g.shown);
    First(rs, s) < |rs| && g.shown == rs[First(rs, s)] && g.occurrences == Occurrences(rs, s)
  }

  ghost predicate InFirstOrder(rs: seq<Rejection>, groups: seq<Group>) {
    forall i, j | 0 <= i < j < |groups| ::
      First(rs, SignatureOf(groups[i].shown)) < First(rs, SignatureOf(groups[j].shown))
  }

  lemma RepresentsSnoc(rs: seq<Rejection>, r: Rejection, g: Group)
    requires Represents(rs, g)
    ensures Represents(rs + [r], g.(occurrences := g.occurrences + if SignatureOf(r) == SignatureOf(g.shown) then 1
            else 0))
    ensures First(rs + [r], SignatureOf(g.shown)) == First(rs, SignatureOf(g.shown))
  {
    assert (rs + [r])[..|rs|] == rs;
  }

  /** A signature that is not met occurs nowhere. */
  lemma {:induction false} NotMet(rs: seq<Rejection>, s: Signature)
    ensures First(rs, s) == |rs| <==> Occurrences(rs, s) == 0
  {
    if rs == [] {
    } else {
      NotMet(rs[..|rs| - 1], s);
    }
  }

  lemma RepresentsNew(rs: seq<Rejection>, r: Rejection)
    requires First(rs, SignatureOf(r)) == |rs|
    ensures Represents(rs + [r], Group(r, 1)) && First(rs + [r], SignatureOf(r)) == |rs|
  {
    assert (rs + [r])[..|rs|] == rs;
    NotMet(rs, SignatureOf(r));
  }

  /** Two rejections are counted together if and only if their runs have the same comparison key, and they have
      the same hash and failed the same gates, in whatever order. */
  lemma TogetherIff(rs: seq<Rejection>, q: Rejection, r: Rejection)
    requires q in rs && r in rs
    ensures Find(Groups(rs), SignatureOf(q)) == Find(Groups(rs), SignatureOf(r))
            <==> && q.comparisonKey == r.comparisonKey && q.candidate.hash == r.candidate.hash
                 && multiset(q.candidate.failedGates) == multiset(r.candidate.failedGates)
  {
    hide Groups;
    GroupsPartition(rs);
  }

  /** The groups are the signatures met, each once, in the order in which they were met first, and the
      counters are exact. */
  lemma {:induction false} GroupsPartition(rs: seq<Rejection>)
    ensures forall g | g in Groups(rs) :: Represents(rs, g)
    ensures InFirstOrder(rs, Groups(rs))
    ensures forall r | r in rs :: Find(Groups(rs), SignatureOf(r)) < |Groups(rs)|
  {
    hide Represents, Occurrences, InFirstOrder, Grouped, SignatureOf, Find;
    NoGroups();
    if rs == [] {
      ToFirstOrder(rs, Groups(rs));
    } else {
      var n := |rs| - 1;
      var before, r := rs[..n], rs[n];
      GroupsPartition(before);
      assert rs == before + [r];
      GroupsSnoc(before, r);
      GroupStep(before, Groups(before), r);
    }
  }

  lemma GroupStep(rs: seq<Rejection>, groups: seq<Group>, r: Rejection)
    requires (forall g | g in groups :: Represents(rs, g)) && InFirstOrder(rs, groups)
    requires forall q | q in rs :: Find(groups, SignatureOf(q)) < |groups|
    ensures forall g | g in Grouped(groups, r) :: Represents(rs + [r], g)
    ensures InFirstOrder(rs + [r], Grouped(groups, r))
    ensures forall q | q in rs + [r] :: Find(Grouped(groups, r), SignatureOf(q)) < |Grouped(groups, r)|
  {
    hide Represents, Occurrences, InFirstOrder;
    GroupStepCounts(rs, groups, r);
    GroupStepOrder(rs, groups, r);
    GroupStepFinds(rs, groups, r);
  }

  lemma GroupStepFinds(rs: seq<Rejection>, groups: seq<Group>, r: Rejection)
    requires forall q | q in rs :: Find(groups, SignatureOf(q)) < |groups|
    ensures forall q | q in rs + [r] :: Find(Grouped(groups, r), SignatureOf(q)) < |Grouped(groups, r)|
  {
    var after := Grouped(groups, r);
    forall q | q in rs + [r]
      ensures Find(after, SignatureOf(q)) < |after|
    {
      var at := Find(groups, SignatureOf(if q in rs then q else r));
      if at < |groups| {
        assert SignatureOf(after[at].shown) == SignatureOf(q);
      } else {
        assert SignatureOf(after[|groups|].shown) == SignatureOf(q);
      }
    }
  }

  /** The group of a signature is met where its first rejection is. */
  lemma GroupNamed(rs: seq<Rejection>, g: Group)
    requires Represents(rs, g)
    ensures First(rs, SignatureOf(g.shown)) < |rs|
  {
  }

  lemma GroupStepOrder(rs: seq<Rejection>, groups: seq<Group>, r: Rejection)
    requires (forall g | g in groups :: Represents(rs, g)) && InFirstOrder(rs, groups)
    requires forall q | q in rs :: Find(groups, SignatureOf(q)) < |groups|
    ensures InFirstOrder(rs + [r], Grouped(groups, r))
  {
    hide Represents, Occurrences, SignatureOf, First, InFirstOrder;
    var after := Grouped(groups, r);
    forall i, j | 0 <= i < j < |after|
      ensures First(rs + [r], SignatureOf(after[i].shown)) < First(rs + [r], SignatureOf(after[j].shown))
    {
      assert groups[i] in groups && after[i].shown == groups[i].shown;
      RepresentsSnoc(rs, r, groups[i]);
      GroupNamed(rs, groups[i]);
      if j < |groups| {
        assert groups[j] in groups && after[j].shown == groups[j].shown;
        RepresentsSnoc(rs, r, groups[j]);
        InOrderAt(rs, groups, i, j);
      } else {
        NewSignature(rs, groups, r);
        RepresentsNew(rs, r);
      }
    }
    assert InFirstOrder(rs + [r], after) by {
      ToFirstOrder(rs + [r], after);
    }
  }

  lemma InOrderAt(rs: seq<Rejection>, groups: seq<Group>, i: nat, j: nat)
    requires InFirstOrder(rs, groups) && i < j < |groups|
    ensures First(rs, SignatureOf(groups[i].shown)) < First(rs, SignatureOf(groups[j].shown))
  {
    hide First, SignatureOf;
  }

  lemma ToFirstOrder(rs: seq<Rejection>, groups: seq<Group>)
    requires forall i, j | 0 <= i < j < |groups| ::
               First(rs, SignatureOf(groups[i].shown)) < First(rs, SignatureOf(groups[j].shown))
    ensures InFirstOrder(rs, groups)
  {
    hide First, SignatureOf;
  }

  lemma NewSignature(rs: seq<Rejection>, groups: seq<Group>, r: Rejection)
    requires forall q | q in rs :: Find(groups, SignatureOf(q)) < |groups|
    requires Find(groups, SignatureOf(r)) == |groups|
    ensures First(rs, SignatureOf(r)) == |rs|
  {
    hide SignatureOf;
    forall q | q in rs
      ensures SignatureOf(q) != SignatureOf(r)
    {
      var at := Find(groups, SignatureOf(q));
    }
  }

  lemma FoundOnce(rs: seq<Rejection>, groups: seq<Group>, i: nat, s: Signature)
    requires InFirstOrder(rs, groups) && i < |groups|
    ensures SignatureOf(groups[i].shown) == s <==> i == Find(groups, s)
  {
    hide SignatureOf, First;
    var at := Find(groups, s);
    if at < i {
      InOrderAt(rs, groups, at, i);
    }
  }

  lemma GroupStepCounts(rs: seq<Rejection>, groups: seq<Group>, r: Rejection)
    requires (forall g | g in groups :: Represents(rs, g)) && InFirstOrder(rs, groups)
    requires forall q | q in rs :: Find(groups, SignatureOf(q)) < |groups|
    ensures forall g | g in Grouped(groups, r) :: Represents(rs + [r], g)
  {
    hide Represents, Occurrences, SignatureOf, First, InFirstOrder;
    var s, after := SignatureOf(r), Grouped(groups, r);
    var at := Find(groups, s);
    forall g | g in after
      ensures Represents(rs + [r], g)
    {
      var i :| 0 <= i < |after| && after[i] == g;
      if i < |groups| {
        assert groups[i] in groups;
        RepresentsSnoc(rs, r, groups[i]);
        FoundOnce(rs, groups, i, s);
      } else {
        NewSignature(rs, groups, r);
        RepresentsNew(rs, r);
      }
    }
  }

  // ----- Conservation

  function Total(groups: seq<Group>): nat {
    if groups == [] then 0 else Total(groups[..|groups| - 1]) + groups[|groups| - 1].occurrences
  }

  /** The rejected candidates of a journal, counted forwards. */
  function RejectedCandidates(journal: seq<Event>): nat {
    if journal == [] then 0
    else
      var p := journal[|journal| - 1].payload;
      RejectedCandidates(journal[..|journal| - 1]) + if p.AttemptPayload? then RejectedRows(p.candidates) else 0
  }

  function RejectedRows(rows: seq<Candidate>): nat {
    if rows == [] then 0
    else RejectedRows(rows[..|rows| - 1]) + if rows[|rows| - 1].status == "REJECT" then 1 else 0
  }

  lemma {:induction false} TotalUpdate(groups: seq<Group>, i: nat)
    requires i < |groups|
    ensures Total(groups[i := groups[i].(occurrences := groups[i].occurrences + 1)]) == Total(groups) + 1
  {
    var n := |groups| - 1;
    var after := groups[i := groups[i].(occurrences := groups[i].occurrences + 1)];
    if i == n {
      assert after[..n] == groups[..n];
    } else {
      TotalUpdate(groups[..n], i);
      assert after[..n] == groups[..n][i := after[i]];
    }
  }

  lemma {:induction false} TotalGroups(rs: seq<Rejection>)
    ensures Total(Groups(rs)) == |rs|
  {
    hide SignatureOf, Find;
    if rs == [] {
    } else {
      var n := |rs| - 1;
      TotalGroups(rs[..n]);
      var groups, at := Groups(rs[..n]), Find(Groups(rs[..n]), SignatureOf(rs[n]));
      if at < |groups| {
        TotalUpdate(groups, at);
      } else {
        assert (groups + [Group(rs[n], 1)])[..|groups|] == groups;
      }
    }
  }

  lemma {:induction false} AttemptRejectionsCount(p: Payload, n: nat, keys: map<string, string>)
    requires p.AttemptPayload? && n <= |p.candidates|
    ensures |AttemptRejections(p, n, keys)| == RejectedRows(p.candidates[..n])
  {
    if n == 0 {
    } else {
      AttemptRejectionsCount(p, n - 1, keys);
      assert p.candidates[..n][..n - 1] == p.candidates[..n - 1];
    }
  }

  lemma {:induction false} RejectionsCount(journal: seq<Event>, i: nat, keys: map<string, string>)
    requires i <= |journal|
    ensures RejectedCandidates(journal[..i]) + |Rejections(journal, i, keys)| == RejectedCandidates(journal)
    decreases |journal| - i
  {
    if i == |journal| {
      assert journal[..i] == journal;
    } else {
      RejectionsCount(journal, i + 1, keys);
      var p := journal[i].payload;
      assert journal[..i + 1][..i] == journal[..i];
      if p.AttemptPayload? {
        AttemptRejectionsCount(p, |p.candidates|, keys);
        assert p.candidates[..|p.candidates|] == p.candidates;
      }
    }
  }

  /** Before the list is cut, the occurrences of all groups together are the rejected candidates of the
      journal. */
  lemma OccurrencesConserve(journal: seq<Event>)
    ensures Total(Groups(Rejections(journal, 0, Keys(journal)))) == RejectedCandidates(journal)
  {
    hide Keys, Groups;
    TotalGroups(Rejections(journal, 0, Keys(journal)));
    RejectionsCount(journal, 0, Keys(journal));
    assert journal[..0] == [];
  }
}
