/** The knowledge file as a projection of the journal, and the failure summary handed to the model:
    memory/evidence_knowledge.py. */
module EvidenceKnowledge {
  import opened Prelude
  import opened EvidenceStore
  import opened EvidenceProtocol

  /** The digest that names an experiment, taken to be injective in what it hashes. */
  datatype ExperimentId = ExperimentId(run: string, attempt: string, index: nat, hash: string)

  datatype Body =
    | Row(candidate: Candidate, run: string, attempt: string, generation: int, comparisonKey: Option<string>)
    | Foreign(text: string)

  /** An entry of a knowledge list; those that others put there may lack an experiment id. */
  datatype Item = Item(id: Option<ExperimentId>, body: Body)

  datatype Category = KnownGood | KnownBad | Unexplored

  datatype Knowledge = Knowledge(good: seq<Item>, bad: seq<Item>, unexplored: seq<Item>)

  function List(k: Knowledge, c: Category): seq<Item> {
    match c
    case KnownGood => k.good
    case KnownBad => k.bad
    case Unexplored => k.unexplored
  }

  function Added(k: Knowledge, c: Category, item: Item): Knowledge {
    match c
    case KnownGood => k.(good := k.good + [item])
    case KnownBad => k.(bad := k.bad + [item])
    case Unexplored => k.(unexplored := k.unexplored + [item])
  }

  function IdsOf(items: seq<Item>): set<ExperimentId> {
    set item | item in items && item.id.Some? :: item.id.value
  }

  function Ids(k: Knowledge): set<ExperimentId> {
    IdsOf(k.good) + IdsOf(k.bad) + IdsOf(k.unexplored)
  }

  function CategoryOf(status: string): Option<Category> {
    if status == "REJECT" then Some(KnownBad)
    else if status == "NEAR_MISS" then Some(Unexplored)
    else if status == "SURVIVOR" || status == "FRONTIER" then Some(KnownGood)
    else None
  }

  /** The comparison key of each run: a later manifest would override an earlier one. */
  function Keys(journal: seq<Event>): map<string, string> {
    if journal == [] then map[]
    else
      var keys, last := Keys(journal[..|journal| - 1]), journal[|journal| - 1].payload;
      if last.ManifestPayload? then keys[last.run := last.comparisonKey] else keys
  }

  function KeyOf(keys: map<string, string>, run: string): Option<string> {
    if run in keys then Some(keys[run]) else None
  }

  /** A candidate as it would be filed. */
  datatype Filing = Filing(category: Category, id: ExperimentId, body: Body)

  /** The filings of the first `n` candidates of an attempt; unknown statuses are not filed. */
  function AttemptFilings(p: Payload, n: nat, keys: map<string, string>): (filings: seq<Filing>)
    requires p.AttemptPayload? && n <= |p.candidates|
  {
    if n == 0 then []
    else
      var c := p.candidates[n - 1];
      var sofar := AttemptFilings(p, n - 1, keys);
      match CategoryOf(c.status)
      case None => sofar
      case Some(category) =>
        sofar + [Filing(category, ExperimentId(p.run, p.attempt, n - 1, c.hash),
                        Row(c, p.run, p.attempt, p.generation, KeyOf(keys, p.run)))]
  }

  function Filings(journal: seq<Event>, keys: map<string, string>): seq<Filing> {
    if journal == [] then []
    else
      var sofar, last := Filings(journal[..|journal| - 1], keys), journal[|journal| - 1].payload;
      if last.AttemptPayload? then sofar + AttemptFilings(last, |last.candidates|, keys) else sofar
  }

  /** One filing, unless an item of that id is anywhere in the lists. */
  function File(k: Knowledge, f: Filing): Knowledge {
    if f.id in Ids(k) then k else Added(k, f.category, Item(Some(f.id), f.body))
  }

  function Project(k: Knowledge, filings: seq<Filing>): Knowledge {
    if filings == [] then k else File(Project(k, filings[..|filings| - 1]), filings[|filings| - 1])
  }

  /** What a synchronisation makes of the lists, given the journal. */
  function Sync(k: Knowledge, journal: seq<Event>): Knowledge {
    Project(k, Filings(journal, Keys(journal)))
  }

  lemma FileIds(k: Knowledge, f: Filing)
    ensures Ids(File(k, f)) == Ids(k) + {f.id}
  {
    var item := Item(Some(f.id), f.body);
    IdsSnoc(k.good, item);
    IdsSnoc(k.bad, item);
    IdsSnoc(k.unexplored, item);
  }

  lemma IdsSnoc(items: seq<Item>, item: Item)
    requires item.id.Some?
    ensures IdsOf(items + [item]) == IdsOf(items) + {item.id.value}
  {
    assert item in items + [item];
    assert forall i | i in items :: i in items + [item];
  }

  lemma ProjectSnoc(k: Knowledge, filings: seq<Filing>, f: Filing)
    ensures Project(k, filings + [f]) == File(Project(k, filings), f)
  {
    assert (filings + [f])[..|filings|] == filings;
  }

  /** `sync_knowledge`: the lists, the set of ids they hold, and the two loops. */
  method SyncKnowledge(store: Store, previous: Knowledge) returns (k: Knowledge)
    ensures k == Sync(previous, store.events)
  {
    hide IdsOf, File, CategoryOf;
    k := previous;
    var ids := Ids(previous);
    var keys := map[];
    for i := 0 to |store.events|
      invariant keys == Keys(store.events[..i])
    {
      assert store.events[..i + 1][..i] == store.events[..i];
      var p := store.events[i].payload;
      if p.ManifestPayload? {
        keys := keys[p.run := p.comparisonKey];
      }
    }
    assert store.events[..|store.events|] == store.events;
    for i := 0 to |store.events|
      invariant k == Project(previous, Filings(store.events[..i], keys)) && ids == Ids(k)
    {
      assert store.events[..i + 1][..i] == store.events[..i];
      var p := store.events[i].payload;
      if p.AttemptPayload? {
        ghost var before := Filings(store.events[..i], keys);
        assert before + AttemptFilings(p, 0, keys) == before;
        for n := 0 to |p.candidates|
          invariant k == Project(previous, before + AttemptFilings(p, n, keys)) && ids == Ids(k)
        {
          k, ids := FileCandidate(p, n, keys, k, ids, previous, before);
        }
      }
    }
  }

  /** The body of the inner loop. */
  method FileCandidate(p: Payload, n: nat, keys: map<string, string>, k: Knowledge, ids: set<ExperimentId>,
                       ghost previous: Knowledge, ghost before: seq<Filing>)
    returns (after: Knowledge, afterIds: set<ExperimentId>)
    requires p.AttemptPayload? && n < |p.candidates| && ids == Ids(k)
    requires k == Project(previous, before + AttemptFilings(p, n, keys))
    ensures after == Project(previous, before + AttemptFilings(p, n + 1, keys)) && afterIds == Ids(after)
  {
    hide Ids, Project;
    var c := p.candidates[n];
    var id := ExperimentId(p.run, p.attempt, n, c.hash);
    var category := CategoryOf(c.status);
    if category.Some? {
      ghost var f := Filing(category.value, id, Row(c, p.run, p.attempt, p.generation, KeyOf(keys, p.run)));
      ProjectSnoc(previous, before + AttemptFilings(p, n, keys), f);
      assert before + AttemptFilings(p, n, keys) + [f] == before + AttemptFilings(p, n + 1, keys);
      FileIds(k, f);
    }
    if id in ids || category.None? {
      return k, ids;
    }
    after := Added(k, category.value, Item(Some(id), Row(c, p.run, p.attempt, p.generation, KeyOf(keys, p.run))));
    afterIds := ids + {id};
  }

  // ----- Synchronising early, often or late comes to the same

  lemma {:induction false} ProjectConcat(k: Knowledge, xs: seq<Filing>, ys: seq<Filing>)
    ensures Project(k, xs + ys) == Project(Project(k, xs), ys)
  {
    hide File;
    if ys == [] {
      assert xs + ys == xs;
    } else {
      var n := |ys| - 1;
      ProjectConcat(k, xs, ys[..n]);
      assert (xs + ys)[..|xs + ys| - 1] == xs + ys[..n];
    }
  }

  function FilingIds(filings: seq<Filing>): set<ExperimentId> {
    set f | f in filings :: f.id
  }

  lemma {:induction false} ProjectIds(k: Knowledge, filings: seq<Filing>)
    ensures Ids(Project(k, filings)) == Ids(k) + FilingIds(filings)
  {
    hide File, Ids;
    if filings == [] {
    } else {
      var n := |filings| - 1;
      ProjectIds(k, filings[..n]);
      FileIds(Project(k, filings[..n]), filings[n]);
      assert filings == filings[..n] + [filings[n]];
    }
  }

  lemma {:induction false} ProjectKnown(k: Knowledge, filings: seq<Filing>)
    requires FilingIds(filings) <= Ids(k)
    ensures Project(k, filings) == k
  {
    hide Ids;
    if filings == [] {
    } else {
      var n := |filings| - 1;
      assert forall f | f in filings[..n] :: f in filings;
      assert filings[n] in filings && filings[n].id in FilingIds(filings);
      ProjectKnown(k, filings[..n]);
    }
  }

  /** Filing again what has been filed changes nothing, and filing can stop and go on. */
  lemma ProjectResumes(k: Knowledge, xs: seq<Filing>, ys: seq<Filing>)
    ensures Project(Project(k, xs), xs + ys) == Project(k, xs + ys)
  {
    hide Project, Ids;
    var once := Project(k, xs);
    ProjectIds(k, xs);
    ProjectKnown(once, xs);
    ProjectConcat(once, xs, ys);
    ProjectConcat(k, xs, ys);
  }

  lemma OneManifest(journal: seq<Event>, i: nat, j: nat)
    requires Orderly(journal) && i < j < |journal|
    requires journal[i].payload.ManifestPayload? && journal[j].payload.ManifestPayload?
    ensures journal[i].payload.run != journal[j].payload.run
  {
    hide RegisteredFirst, ValidPayload, UniqueIds;
    assert InOrder(journal[i].payload, journal[j].payload);
  }

  /** A run with a manifest keeps its key: there is never a second manifest. */
  lemma {:induction false} KeyStays(journal: seq<Event>, i: nat, n: nat)
    requires Orderly(journal) && i < n <= |journal| && journal[i].payload.ManifestPayload?
    ensures KeyOf(Keys(journal), journal[i].payload.run) == KeyOf(Keys(journal[..n]), journal[i].payload.run)
    decreases |journal|
  {
    hide Orderly;
    if n == |journal| {
      assert journal[..n] == journal;
    } else {
      var m := |journal| - 1;
      if journal[m].payload.ManifestPayload? {
        OneManifest(journal, i, m);
      }
      PrefixOrderly(journal, m);
      assert journal[..m][..n] == journal[..n];
      KeyStays(journal[..m], i, n);
    }
  }

  lemma PrefixOrderly(journal: seq<Event>, n: nat)
    requires Orderly(journal) && n <= |journal|
    ensures Orderly(journal[..n])
  {
    var prefix := journal[..n];
    forall i | 0 <= i < |prefix| && !prefix[i].payload.RunPayload?
      ensures exists j | 0 <= j < i :: prefix[j].payload.run == prefix[i].payload.run && prefix[j].payload.RunPayload?
    {
      var j :| 0 <= j < i && journal[j].payload.run == journal[i].payload.run && journal[j].payload.RunPayload?;
      assert prefix[j] == journal[j];
    }
  }

  lemma {:induction false} AttemptFilingsKey(p: Payload, n: nat, keys: map<string, string>, others: map<string, string>)
    requires p.AttemptPayload? && n <= |p.candidates| && (n > 0 ==> KeyOf(keys, p.run) == KeyOf(others, p.run))
    ensures AttemptFilings(p, n, keys) == AttemptFilings(p, n, others)
  {
    if n == 0 {
    } else {
      AttemptFilingsKey(p, n - 1, keys, others);
    }
  }

  /** The attempt has a candidate that is filed. */
  predicate HasFiling(p: Payload) {
    p.AttemptPayload? && exists c | c in p.candidates :: CategoryOf(c.status).Some?
  }

  /** No manifest comes after a filed candidate of its run. */
  ghost predicate KeysInTime(journal: seq<Event>) {
    forall i, j | 0 <= i < j < |journal| && HasFiling(journal[i].payload) && journal[j].payload.ManifestPayload? ::
      journal[j].payload.run != journal[i].payload.run
  }

  /** It is so where attempts with candidates come after the manifest of their run. */
  lemma ManifestFirstInTime(journal: seq<Event>)
    requires Orderly(journal) && ManifestFirst(journal)
    ensures KeysInTime(journal)
  {
    hide Orderly, CategoryOf;
    forall i, j | 0 <= i < j < |journal| && HasFiling(journal[i].payload) && journal[j].payload.ManifestPayload?
      ensures journal[j].payload.run != journal[i].payload.run
    {
      assert HasManifest(journal[..i], journal[i].payload.run);
      var e :| e in journal[..i] && e.payload.run == journal[i].payload.run && e.payload.ManifestPayload?;
      var h :| 0 <= h < i && journal[h] == e;
      OneManifest(journal, h, j);
    }
  }

  lemma {:induction false} NoFilings(p: Payload, n: nat, keys: map<string, string>)
    requires p.AttemptPayload? && n <= |p.candidates| && !HasFiling(p)
    ensures AttemptFilings(p, n, keys) == []
  {
    hide CategoryOf;
    if n == 0 {
    } else {
      assert p.candidates[n - 1] in p.candidates;
      NoFilings(p, n - 1, keys);
    }
  }

  /** A run without a manifest has no key. */
  lemma {:induction false} NoKey(journal: seq<Event>, run: string)
    requires forall e | e in journal && e.payload.ManifestPayload? :: e.payload.run != run
    ensures KeyOf(Keys(journal), run) == None
  {
    if journal == [] {
    } else {
      var n := |journal| - 1;
      assert forall e | e in journal[..n] :: e in journal;
      assert journal[n] in journal;
      NoKey(journal[..n], run);
    }
  }

  /** The key of a run is the same at any moment after a filed candidate of it. */
  lemma KeyInTime(journal: seq<Event>, i: nat, n: nat)
    requires Orderly(journal) && KeysInTime(journal) && i < n <= |journal| && HasFiling(journal[i].payload)
    ensures KeyOf(Keys(journal[..n]), journal[i].payload.run) == KeyOf(Keys(journal), journal[i].payload.run)
  {
    hide Keys, Orderly, HasFiling;
    var run := journal[i].payload.run;
    if h :| 0 <= h < |journal| && journal[h].payload.ManifestPayload? && journal[h].payload.run == run {
      assert h < i by {
        assert HasFiling(journal[i].payload) && h != i ==> h < i;
        if h == i {
          NotBoth(journal[i].payload);
        }
      }
      KeyStays(journal, h, n);
    } else {
      forall e | e in journal && e.payload.ManifestPayload?
        ensures e.payload.run != run
      {
        var h :| 0 <= h < |journal| && journal[h] == e;
      }
      assert forall e | e in journal[..n] :: e in journal;
      NoKey(journal, run);
      NoKey(journal[..n], run);
    }
  }

  lemma NotBoth(p: Payload)
    ensures !(HasFiling(p) && p.ManifestPayload?)
  {
  }

  /** The filings of a prefix are the same under the keys of the prefix and of the whole journal, because no
      manifest comes after a filed candidate of its run. */
  lemma {:induction false} FilingsKeys(journal: seq<Event>, n: nat, m: nat)
    requires Orderly(journal) && KeysInTime(journal) && m <= n <= |journal|
    ensures Filings(journal[..m], Keys(journal[..n])) == Filings(journal[..m], Keys(journal))
  {
    hide Keys, Orderly, KeysInTime, HasFiling;
    if m == 0 {
    } else {
      var p := journal[m - 1].payload;
      FilingsKeys(journal, n, m - 1);
      assert journal[..m][..m - 1] == journal[..m - 1];
      if HasFiling(p) {
        KeyInTime(journal, m - 1, n);
      }
      if p.AttemptPayload? {
        if HasFiling(p) {
          AttemptFilingsKey(p, |p.candidates|, Keys(journal[..n]), Keys(journal));
        } else {
          NoFilings(p, |p.candidates|, Keys(journal[..n]));
          NoFilings(p, |p.candidates|, Keys(journal));
        }
      }
    }
  }

  lemma {:induction false} FilingsPrefix(journal: seq<Event>, n: nat, keys: map<string, string>)
    requires n <= |journal|
    ensures Filings(journal[..n], keys) <= Filings(journal, keys)
  {
    if n == |journal| {
      assert journal[..n] == journal;
    } else {
      var m := |journal| - 1;
      FilingsPrefix(journal[..m], n, keys);
      assert journal[..m][..n] == journal[..n];
    }
  }

  /** Synchronising on the way changes nothing of a later synchronisation. */
  lemma SyncResumes(k: Knowledge, journal: seq<Event>, n: nat)
    requires Orderly(journal) && KeysInTime(journal) && n <= |journal|
    ensures Sync(Sync(k, journal[..n]), journal) == Sync(k, journal)
  {
    hide Project, Filings, Keys, Orderly, KeysInTime;
    var keys := Keys(journal);
    FilingsKeys(journal, n, n);
    FilingsPrefix(journal, n, keys);
    var xs, all := Filings(journal[..n], keys), Filings(journal, keys);
    assert all == xs + all[|xs|..];
    ProjectResumes(k, xs, all[|xs|..]);
  }

  /** Synchronisations one after the other, each with the journal of its moment. */
  function Syncs(k: Knowledge, journal: seq<Event>, moments: seq<nat>): Knowledge
    requires forall i | 0 <= i < |moments| :: moments[i] <= |journal|
  {
    if moments == [] then k
    else Sync(Syncs(k, journal, moments[..|moments| - 1]), journal[..moments[|moments| - 1]])
  }

  /** However often and whenever the knowledge of a run of the protocol was synchronised in between,
      the last synchronisation leaves what a single one would have. */
  lemma {:induction false} SyncConfluence(k: Knowledge, actions: seq<Action>, moments: seq<nat>)
    requires forall i | 0 <= i < |moments| :: moments[i] <= |Execute(EMPTY, actions).journal|
    requires forall i, j | 0 <= i < j < |moments| :: moments[i] <= moments[j]
    ensures var journal := Execute(EMPTY, actions).journal;
            Sync(Syncs(k, journal, moments), journal) == Sync(k, journal)
  {
    hide Sync, Inv, Execute, Orderly, ManifestFirst, KeysInTime;
    var journal := Execute(EMPTY, actions).journal;
    ReachableInv(actions);
    InvParts(Execute(EMPTY, actions));
    ManifestFirstInTime(journal);
    SyncsFold(k, journal, moments);
    if moments != [] {
      SyncResumes(k, journal, moments[|moments| - 1]);
    }
  }

  lemma {:induction false} SyncsFold(k: Knowledge, journal: seq<Event>, moments: seq<nat>)
    requires Orderly(journal) && KeysInTime(journal)
    requires forall i | 0 <= i < |moments| :: moments[i] <= |journal|
    requires forall i, j | 0 <= i < j < |moments| :: moments[i] <= moments[j]
    ensures Syncs(k, journal, moments) == if moments == [] then k else Sync(k, journal[..moments[|moments| - 1]])
  {
    hide Sync, Orderly, KeysInTime;
    if |moments| >= 2 {
      var last := |moments| - 1;
      SyncsFold(k, journal, moments[..last]);
      var now, earlier := journal[..moments[last]], moments[last - 1];
      assert now[..earlier] == journal[..earlier];
      PrefixOrderly(journal, moments[last]);
      PrefixInTime(journal, moments[last]);
      SyncResumes(k, now, earlier);
    }
  }

  lemma PrefixInTime(journal: seq<Event>, n: nat)
    requires KeysInTime(journal) && n <= |journal|
    ensures KeysInTime(journal[..n])
  {
    hide HasFiling;
    assert forall i | 0 <= i < n :: journal[..n][i] == journal[i];
  }

  lemma FilingsSnoc(journal: seq<Event>, e: Event, keys: map<string, string>)
    ensures Filings(journal + [e], keys)
         == Filings(journal, keys) + if e.payload.AttemptPayload?
             then AttemptFilings(e.payload, |e.payload.candidates|, keys) else []
    ensures Keys(journal + [e])
         == if e.payload.ManifestPayload? then Keys(journal)[e.payload.run := e.payload.comparisonKey]
             else Keys(journal)
  {
    assert (journal + [e])[..|journal|] == journal;
  }

  /** The order is needed: the store alone accepts an attempt with candidates before the manifest of its
      run. Synchronised in between, the candidates are filed for good without a comparison key. */
  lemma LateManifestDiverges(run: string, attempt: string, c: Candidate, key: string)
    requires c.status == "REJECT" && run != ""
    ensures var a := Event(AttemptId(attempt), AttemptPayload(run, attempt, 1, COMPLETED, [c], ""));
            var early := [Event(RunId(run), RunPayload(run, 1, "")), a];
            var journal := early + [Event(ManifestId(run), ManifestPayload(run, key, ""))];
            var nothing := Knowledge([], [], []);
            && Appended(early, ManifestId(run), ManifestPayload(run, key, "")) == Ok(journal)
            && Sync(Sync(nothing, early), journal) != Sync(nothing, journal)
  {
    hide Ids, IdsOf, CategoryOf, AttemptFilings, Filings, Keys, Appended;
    var r := Event(RunId(run), RunPayload(run, 1, ""));
    var a := Event(AttemptId(attempt), AttemptPayload(run, attempt, 1, COMPLETED, [c], ""));
    var m := Event(ManifestId(run), ManifestPayload(run, key, ""));
    LateManifestAccepted([r, a], run, key);
    LateFilings(r, a, m);
    OneRejection(a.payload, map[]);
    OneRejection(a.payload, map[run := key]);
    var early := AttemptFilings(a.payload, 1, map[])[0];
    var late := AttemptFilings(a.payload, 1, map[run := key])[0];
    DoubleFiling(early, late);
    assert Sync(Knowledge([], [], []), [r, a]) == Project(Knowledge([], [], []), [early]);
  }

  lemma LateManifestAccepted(events: seq<Event>, run: string, key: string)
    requires |events| == 2 && events[0].payload == RunPayload(run, 1, "") && events[0].id == RunId(run) && run != ""
    requires events[1].payload.AttemptPayload? && events[1].id.AttemptId?
    ensures Appended(events, ManifestId(run), ManifestPayload(run, key, ""))
         == Ok(events + [Event(ManifestId(run), ManifestPayload(run, key, ""))])
  {
    assert events[0] in events;
  }

  lemma OneRejection(p: Payload, keys: map<string, string>)
    requires p.AttemptPayload? && |p.candidates| == 1 && p.candidates[0].status == "REJECT"
    ensures AttemptFilings(p, 1, keys)
         == [Filing(KnownBad, ExperimentId(p.run, p.attempt, 0, p.candidates[0].hash),
                    Row(p.candidates[0], p.run, p.attempt, p.generation, KeyOf(keys, p.run)))]
  {
    hide CategoryOf;
    CategoryOfReject();
    assert AttemptFilings(p, 0, keys) == [];
  }

  lemma DoubleFiling(early: Filing, late: Filing)
    requires early.id == late.id && early.category == late.category == KnownBad && early.body != late.body
    ensures var nothing := Knowledge([], [], []);
            Project(Project(nothing, [early]), [late]) != Project(nothing, [late])
  {
    hide Ids;
    var nothing := Knowledge([], [], []);
    NoIds(nothing);
    FileIds(nothing, early);
    assert [] + [early] == [early] && [] + [late] == [late];
    ProjectSnoc(nothing, [], early);
    ProjectSnoc(nothing, [], late);
    ProjectSnoc(File(nothing, early), [], late);
    assert File(nothing, early).bad[0].body == early.body && File(nothing, late).bad[0].body == late.body;
  }

  lemma CategoryOfReject()
    ensures CategoryOf("REJECT") == Some(KnownBad)
  {
  }

  lemma NoIds(k: Knowledge)
    requires k == Knowledge([], [], [])
    ensures Ids(k) == {}
  {
  }

  lemma LateFilings(r: Event, a: Event, m: Event)
    requires r.payload.RunPayload? && a.payload.AttemptPayload? && m.payload.ManifestPayload?
    ensures Keys([r, a]) == map[] && Keys([r, a] + [m]) == map[m.payload.run := m.payload.comparisonKey]
    ensures forall keys | keys == Keys([r, a]) || keys == Keys([r, a] + [m]) ::
              Filings([r, a], keys) == Filings([r, a] + [m], keys)
                  == AttemptFilings(a.payload, |a.payload.candidates|, keys)
  {
    hide AttemptFilings;
    assert [] + [r] == [r] && [r] + [a] == [r, a];
    forall keys
      ensures Filings([r, a], keys) == Filings([r, a] + [m], keys)
              == AttemptFilings(a.payload, |a.payload.candidates|, keys)
    {
      FilingsSnoc([], r, keys);
      FilingsSnoc([r], a, keys);
      FilingsSnoc([r, a], m, keys);
    }
    FilingsSnoc([], r, map[]);
    FilingsSnoc([r], a, map[]);
    FilingsSnoc([r, a], m, map[]);
  }

  // ----- What a synchronisation files

  /** Each id is filed from one place only. */
  ghost predicate DistinctIds(filings: seq<Filing>) {
    forall i, j | 0 <= i < j < |filings| :: filings[i].id != filings[j].id
  }

  /** The new items of a category, in the order of the journal. */
  function NewItems(filings: seq<Filing>, c: Category, known: set<ExperimentId>): seq<Item> {
    if filings == [] then []
    else
      var sofar, f := NewItems(filings[..|filings| - 1], c, known), filings[|filings| - 1];
      if f.category == c && f.id !in known then sofar + [Item(Some(f.id), f.body)] else sofar
  }

  /** With distinct ids the running id set only ever matters for what was there at the start: each
      list keeps what it had and grows by the new filings of its category. */
  lemma {:induction false} ProjectAppends(k: Knowledge, filings: seq<Filing>, c: Category)
    requires DistinctIds(filings)
    ensures List(Project(k, filings), c) == List(k, c) + NewItems(filings, c, Ids(k))
  {
    hide Ids;
    if filings == [] {
    } else {
      var n := |filings| - 1;
      ProjectAppends(k, filings[..n], c);
      ProjectIds(k, filings[..n]);
      assert filings[n].id !in FilingIds(filings[..n]);
    }
  }

  lemma {:induction false} AttemptFilingsDistinct(p: Payload, n: nat, keys: map<string, string>)
    requires p.AttemptPayload? && n <= |p.candidates|
    ensures DistinctIds(AttemptFilings(p, n, keys))
    ensures forall f | f in AttemptFilings(p, n, keys) :: f.id.attempt == p.attempt && f.id.index < n
  {
    if n == 0 {
    } else {
      AttemptFilingsDistinct(p, n - 1, keys);
    }
  }

  /** The filings come from attempts, and an attempt is in a journal once. */
  lemma {:induction false} FilingsDistinct(journal: seq<Event>, keys: map<string, string>)
    requires UniqueIds(journal) && forall e | e in journal :: Canonical(e)
    ensures DistinctIds(Filings(journal, keys))
    ensures forall f | f in Filings(journal, keys) ::
              exists e :: e in journal && e.payload.AttemptPayload? && e.payload.attempt == f.id.attempt
  {
    if journal == [] {
    } else {
      var n := |journal| - 1;
      var p := journal[n].payload;
      FilingsDistinct(journal[..n], keys);
      assert forall e | e in journal[..n] :: e in journal;
      if p.AttemptPayload? {
        AttemptFilingsDistinct(p, |p.candidates|, keys);
        forall f | f in Filings(journal[..n], keys)
          ensures f.id.attempt != p.attempt
        {
          var e :| e in journal[..n] && e.payload.AttemptPayload? && e.payload.attempt == f.id.attempt;
          assert Canonical(e) && Canonical(journal[n]);
        }
        assert journal[n] in journal;
      }
    }
  }

  /** What a synchronisation does to any lists, on any journal the protocol leaves: every list is kept
      as a prefix and each candidate with a category whose id is not known yet is added once, to the
      list of its category, in journal order. */
  lemma SyncAppends(k: Knowledge, actions: seq<Action>, c: Category)
    ensures var journal := Execute(EMPTY, actions).journal;
            List(Sync(k, journal), c) == List(k, c) + NewItems(Filings(journal, Keys(journal)), c, Ids(k))
  {
    hide Ids, Project, Filings, Keys, List, Execute, NewItems;
    var g := Execute(EMPTY, actions);
    ReachableInv(actions);
    forall e | e in g.journal
      ensures Canonical(e)
    {
      EventIn(g, e);
    }
    FilingsDistinct(g.journal, Keys(g.journal));
    ProjectAppends(k, Filings(g.journal, Keys(g.journal)), c);
  }

  /** How many items carry the id. */
  function Carrying(items: seq<Item>, id: ExperimentId): nat {
    if items == [] then 0
    else Carrying(items[..|items| - 1], id) + if items[|items| - 1].id == Some(id) then 1 else 0
  }

  function CarryingAll(k: Knowledge, id: ExperimentId): nat {
    Carrying(k.good, id) + Carrying(k.bad, id) + Carrying(k.unexplored, id)
  }

  lemma CarryingSnoc(items: seq<Item>, item: Item, id: ExperimentId)
    ensures Carrying(items + [item], id) == Carrying(items, id) + if item.id == Some(id) then 1 else 0
  {
    assert (items + [item])[..|items|] == items;
  }

  lemma {:induction false} CarryingNone(items: seq<Item>, id: ExperimentId)
    requires id !in IdsOf(items)
    ensures Carrying(items, id) == 0
  {
    if items == [] {
    } else {
      var n := |items| - 1;
      assert items == items[..n] + [items[n]];
      assert forall i | i in items[..n] :: i in items;
      assert items[n] in items;
      CarryingNone(items[..n], id);
    }
  }

  lemma FileCarries(k: Knowledge, f: Filing, id: ExperimentId)
    ensures CarryingAll(File(k, f), id) == CarryingAll(k, id) + if f.id == id && id !in Ids(k) then 1 else 0
  {
    hide Carrying;
    CarryingSnoc(List(k, f.category), Item(Some(f.id), f.body), id);
  }

  /** An experiment is in the lists once if it was not there and has been filed, no matter how often,
      and otherwise as often as it was. */
  lemma {:induction false} FiledOnce(k: Knowledge, filings: seq<Filing>, id: ExperimentId)
    ensures CarryingAll(Project(k, filings), id)
         == if id in Ids(k) then CarryingAll(k, id) else if id in FilingIds(filings) then 1 else 0
  {
    hide Ids, File, CarryingAll;
    if filings == [] {
      if id !in Ids(k) {
        NoneCarry(k, id);
      }
    } else {
      var n := |filings| - 1;
      FiledOnce(k, filings[..n], id);
      ProjectIds(k, filings[..n]);
      FileCarries(Project(k, filings[..n]), filings[n], id);
      assert filings == filings[..n] + [filings[n]];
    }
  }

  lemma NoneCarry(k: Knowledge, id: ExperimentId)
    requires id !in Ids(k)
    ensures CarryingAll(k, id) == 0
  {
    CarryingNone(k.good, id);
    CarryingNone(k.bad, id);
    CarryingNone(k.unexplored, id);
  }
}
