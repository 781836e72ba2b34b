/** What the three lists of the knowledge file hold after a synchronisation, said from the events alone. */
module KnowledgeMeaning {
  import opened Prelude
  import opened EvidenceStore
  import opened EvidenceProtocol
  import opened EvidenceKnowledge

  /** Which statuses of a candidate a list is for. */
  function StatusesOf(c: Category): set<string> {
    match c
    case KnownGood => {"SURVIVOR", "FRONTIER"}
    case KnownBad => {"REJECT"}
    case Unexplored => {"NEAR_MISS"}
  }

  /** The comparison key of a run is that of its manifest, if it has one. */
  ghost predicate KeyFits(journal: seq<Event>, run: string, key: Option<string>) {
    match key
    case Some(text) =>
      exists e | e in journal :: e.payload.ManifestPayload? && e.payload.run == run && e.payload.comparisonKey == text
    case None => forall e | e in journal && e.payload.ManifestPayload? :: e.payload.run != run
  }

  /** The item is candidate `i` of the attempt. */
  predicate RowAt(p: Payload, i: nat, item: Item)
    requires p.AttemptPayload?
  {
    && i < |p.candidates|
    && item.id == Some(ExperimentId(p.run, p.attempt, i, p.candidates[i].hash))
    && item.body.Row?
    && item.body.(comparisonKey := None) == Row(p.candidates[i], p.run, p.attempt, p.generation, None)
  }

  /** The item is a candidate of an attempt in the journal, has a status that the list is for, and carries the
      comparison key of its run. */
  ghost predicate Evidenced(journal: seq<Event>, c: Category, item: Item) {
    exists p, i: nat :: Shows(journal, p, i, c, item)
  }

  ghost predicate Shows(journal: seq<Event>, p: Payload, i: nat, c: Category, item: Item) {
    && p.AttemptPayload?
    && (exists e | e in journal :: e.payload == p)
    && RowAt(p, i, item) && p.candidates[i].status in StatusesOf(c)
    && KeyFits(journal, p.run, item.body.comparisonKey)
  }

  lemma CategoryMeans(status: string, c: Category)
    ensures CategoryOf(status) == Some(c) <==> status in StatusesOf(c)
  {
  }

  lemma {:induction false} KeysMean(journal: seq<Event>, run: string, key: Option<string>)
    requires UniqueIds(journal) && forall e | e in journal :: Canonical(e)
    ensures KeyFits(journal, run, key) <==> key == KeyOf(Keys(journal), run)
  {
    if journal != [] {
      var front, last := journal[..|journal| - 1], journal[|journal| - 1];
      assert journal == front + [last];
      KeysMean(front, run, key);
      assert Canonical(last);
      forall e | e in front && e.payload.ManifestPayload? && last.payload.ManifestPayload?
        ensures e.payload.run != last.payload.run
      {
        assert Canonical(e);
        var i :| 0 <= i < |front| && front[i] == e;
        assert journal[i].id != journal[|front|].id;
      }
    }
  }

  function FilingOf(p: Payload, i: nat, c: Category, keys: map<string, string>): Filing
    requires p.AttemptPayload? && i < |p.candidates|
  {
    Filing(c, ExperimentId(p.run, p.attempt, i, p.candidates[i].hash),
           Row(p.candidates[i], p.run, p.attempt, p.generation, KeyOf(keys, p.run)))
  }

  ghost predicate Files(p: Payload, i: nat, keys: map<string, string>, f: Filing)
    requires p.AttemptPayload? && i < |p.candidates|
  {
    f == FilingOf(p, i, f.category, keys) && p.candidates[i].status in StatusesOf(f.category)
  }

  lemma {:induction false} AttemptFilingsMean(p: Payload, n: nat, keys: map<string, string>, f: Filing)
    requires p.AttemptPayload? && n <= |p.candidates|
    ensures f in AttemptFilings(p, n, keys) <==> exists i: nat :: i < n && Files(p, i, keys, f)
  {
    hide CategoryOf, StatusesOf;
    if n > 0 {
      AttemptFilingsMean(p, n - 1, keys, f);
      CategoryMeans(p.candidates[n - 1].status, f.category);
      assert CategoryOf(p.candidates[n - 1].status) == Some(f.category) && f == FilingOf(p, n - 1, f.category, keys)
          <==> Files(p, n - 1, keys, f);
      assert (exists i: nat :: i < n && Files(p, i, keys, f))
          <==> Files(p, n - 1, keys, f) || exists i: nat :: i < n - 1 && Files(p, i, keys, f);
    }
  }

  lemma {:induction false} FilingsMean(journal: seq<Event>, keys: map<string, string>, f: Filing)
    ensures f in Filings(journal, keys) <==>
              exists e | e in journal :: e.payload.AttemptPayload?
                  && f in AttemptFilings(e.payload, |e.payload.candidates|, keys)
  {
    hide AttemptFilings;
    if journal != [] {
      var n := |journal| - 1;
      assert journal == journal[..n] + [journal[n]];
      FilingsMean(journal[..n], keys, f);
    }
  }

  lemma {:induction false} NewItemsMean(filings: seq<Filing>, c: Category, known: set<ExperimentId>, item: Item)
    ensures item in NewItems(filings, c, known)
            <==> item.id.Some? && item.id.value !in known && Filing(c, item.id.value, item.body) in filings
  {
    if filings != [] {
      NewItemsMean(filings[..|filings| - 1], c, known, item);
      assert filings == filings[..|filings| - 1] + [filings[|filings| - 1]];
    }
  }

  /** A filing is what the journal shows. */
  lemma FilingShown(journal: seq<Event>, c: Category, item: Item)
    requires UniqueIds(journal) && (forall e | e in journal :: Canonical(e)) && item.id.Some?
    ensures Filing(c, item.id.value, item.body) in Filings(journal, Keys(journal)) <==> Evidenced(journal, c, item)
  {
    hide Filings, AttemptFilings, Keys, StatusesOf, UniqueIds, Canonical, KeyFits;
    var keys, f := Keys(journal), Filing(c, item.id.value, item.body);
    FilingsMean(journal, keys, f);
    if f in Filings(journal, keys) {
      var e :| e in journal && e.payload.AttemptPayload?
               && f in AttemptFilings(e.payload, |e.payload.candidates|, keys);
      AttemptFilingsMean(e.payload, |e.payload.candidates|, keys, f);
      var i: nat :| i < |e.payload.candidates| && Files(e.payload, i, keys, f);
      KeysMean(journal, e.payload.run, item.body.comparisonKey);
      assert Shows(journal, e.payload, i, c, item);
    }
    if p, i: nat :| Shows(journal, p, i, c, item) {
      var e :| e in journal && e.payload == p;
      KeysMean(journal, p.run, item.body.comparisonKey);
      assert Files(p, i, keys, f);
      AttemptFilingsMean(p, |p.candidates|, keys, f);
    }
  }

  /** After a synchronisation with any journal that the writers leave, whatever the lists held before, a list
      holds what it held and every candidate of the journal with a status that the list is for, unless an item
      of that id was in some list already; and nothing else. */
  lemma ListsMean(k: Knowledge, actions: seq<Action>, c: Category, item: Item)
    ensures var journal := Execute(EMPTY, actions).journal;
            item in List(Sync(k, journal), c) <==>
              item in List(k, c) || (Evidenced(journal, c, item) && item.id.Some? && item.id.value !in Ids(k))
  {
    hide Ids, Sync, Filings, Keys, List, Execute, NewItems, Inv, UniqueIds, Evidenced, EventFits, HasAttempt;
    var g := Execute(EMPTY, actions);
    var journal := g.journal;
    ReachableInv(actions);
    InvParts(g);
    forall e | e in journal
      ensures Canonical(e)
    {
      EventIn(g, e);
      EventFitsCanonical(e, g);
    }
    SyncAppends(k, actions, c);
    NewItemsMean(Filings(journal, Keys(journal)), c, Ids(k), item);
    if item.id.Some? {
      FilingShown(journal, c, item);
    }
  }

  lemma EventFitsCanonical(e: Event, g: Global)
    requires EventFits(e, g)
    ensures Canonical(e)
  {
  }
}
