/** When a synchronisation on the way never matters, for whatever writers the journal has: exactly when no
    manifest comes after a filed candidate of its run. */
module SyncSoundness {
  import opened Prelude
  import opened EvidenceStore
  import opened EvidenceKnowledge

  const NOTHING: Knowledge := Knowledge([], [], [])

  predicate Has(k: Knowledge, item: Item) {
    item in k.good || item in k.bad || item in k.unexplored
  }

  /** What the lists of a synchronisation hold are filings. */
  lemma {:induction false} ItemsAreFilings(filings: seq<Filing>, item: Item)
    requires Has(Project(NOTHING, filings), item)
    ensures exists f :: f in filings && item == Item(Some(f.id), f.body)
  {
    hide Ids;
    var n := |filings| - 1;
    if filings != [] {
      assert filings == filings[..n] + [filings[n]];
      if Has(Project(NOTHING, filings[..n]), item) {
        ItemsAreFilings(filings[..n], item);
      } else {
        assert filings[n] in filings;
      }
    }
  }

  lemma {:induction false} ItemsStay(k: Knowledge, filings: seq<Filing>, item: Item)
    requires Has(k, item)
    ensures Has(Project(k, filings), item)
  {
    hide Ids;
    if filings != [] {
      ItemsStay(k, filings[..|filings| - 1], item);
    }
  }

  lemma IdHasItem(k: Knowledge, id: ExperimentId)
    requires id in Ids(k)
    ensures exists item :: Has(k, item) && item.id == Some(id)
  {
    var item :| (item in k.good || item in k.bad || item in k.unexplored) && item.id == Some(id);
    assert Has(k, item);
  }

  /** A filing carries the key of its run. */
  predicate Keyed(f: Filing, keys: map<string, string>) {
    f.body.Row? && f.body.comparisonKey == KeyOf(keys, f.id.run)
  }

  lemma {:induction false} AttemptKeyed(p: Payload, n: nat, keys: map<string, string>)
    requires p.AttemptPayload? && n <= |p.candidates|
    ensures forall f | f in AttemptFilings(p, n, keys) :: Keyed(f, keys) && f.id.run == p.run
  {
    hide CategoryOf;
    if n > 0 {
      AttemptKeyed(p, n - 1, keys);
    }
  }

  lemma {:induction false} FilingsKeyed(journal: seq<Event>, keys: map<string, string>)
    ensures forall f | f in Filings(journal, keys) :: Keyed(f, keys)
  {
    hide Keyed;
    if journal != [] {
      var n := |journal| - 1;
      FilingsKeyed(journal[..n], keys);
      if journal[n].payload.AttemptPayload? {
        AttemptKeyed(journal[n].payload, |journal[n].payload.candidates|, keys);
      }
    }
  }

  lemma {:induction false} AttemptFiles(p: Payload, n: nat, keys: map<string, string>, c: Candidate)
    requires p.AttemptPayload? && n <= |p.candidates| && c in p.candidates[..n] && CategoryOf(c.status).Some?
    ensures AttemptFilings(p, n, keys) != []
  {
    hide CategoryOf;
    if c in p.candidates[..n - 1] {
      AttemptFiles(p, n - 1, keys, c);
    } else {
      assert p.candidates[..n] == p.candidates[..n - 1] + [p.candidates[n - 1]];
    }
  }

  /** A filed candidate is among the filings. */
  lemma {:induction false} RunFiles(journal: seq<Event>, i: nat, keys: map<string, string>) returns (f: Filing)
    requires i < |journal| && HasFiling(journal[i].payload)
    ensures f in Filings(journal, keys) && f.id.run == journal[i].payload.run
  {
    hide CategoryOf;
    var n := |journal| - 1;
    if i < n {
      f := RunFiles(journal[..n], i, keys);
    } else {
      var p := journal[i].payload;
      var c :| c in p.candidates && CategoryOf(c.status).Some?;
      assert p.candidates[..|p.candidates|] == p.candidates;
      AttemptFiles(p, |p.candidates|, keys, c);
      AttemptKeyed(p, |p.candidates|, keys);
      f := AttemptFilings(p, |p.candidates|, keys)[0];
      assert f in AttemptFilings(p, |p.candidates|, keys);
    }
  }

  /** Before its only manifest a run has no key, and afterwards it has one. */
  lemma KeyComes(journal: seq<Event>, j: nat)
    requires Orderly(journal) && j < |journal| && journal[j].payload.ManifestPayload?
    ensures KeyOf(Keys(journal[..j]), journal[j].payload.run) == None
    ensures KeyOf(Keys(journal), journal[j].payload.run).Some?
  {
    hide Orderly;
    var run := journal[j].payload.run;
    forall e | e in journal[..j] && e.payload.ManifestPayload?
      ensures e.payload.run != run
    {
      var h :| 0 <= h < j && journal[h] == e;
      OneManifest(journal, h, j);
    }
    NoKey(journal[..j], run);
    assert journal[..j + 1][..j] == journal[..j];
    KeyStays(journal, j, j + 1);
  }

  /** Synchronised between a filed candidate and the later manifest of its run, the lists keep an item
      without the key that a single synchronisation gives it. */
  lemma LateManifestDiffers(journal: seq<Event>, i: nat, j: nat)
    requires Orderly(journal) && i < j < |journal|
    requires HasFiling(journal[i].payload) && journal[j].payload.ManifestPayload?
    requires journal[j].payload.run == journal[i].payload.run
    ensures Sync(Sync(NOTHING, journal[..j]), journal) != Sync(NOTHING, journal)
  {
    hide Orderly, Project, Filings, Keys, Ids, HasFiling, Has;
    var early, late := Keys(journal[..j]), Keys(journal);
    var f := RunFiles(journal[..j], i, early);
    var run := f.id.run;
    KeyComes(journal, j);
    FilingsKeyed(journal[..j], early);
    FilingsKeyed(journal, late);
    var first := Sync(NOTHING, journal[..j]);
    ProjectIds(NOTHING, Filings(journal[..j], early));
    IdHasItem(first, f.id);
    var item :| Has(first, item) && item.id == Some(f.id);
    ItemKeyed(Filings(journal[..j], early), early, item);
    ItemsStay(first, Filings(journal, late), item);
    ItemKeyed(Filings(journal, late), late, item);
  }

  lemma ItemKeyed(filings: seq<Filing>, keys: map<string, string>, item: Item)
    requires forall f | f in filings :: Keyed(f, keys)
    ensures Has(Project(NOTHING, filings), item) ==>
              item.id.Some? && item.body.Row? && item.body.comparisonKey == KeyOf(keys, item.id.value.run)
  {
    hide Project, Has;
    if Has(Project(NOTHING, filings), item) {
      ItemsAreFilings(filings, item);
    }
  }

  /** On any orderly journal, a synchronisation at any moment before changes nothing of a later one, for
      any lists, if and only if no manifest comes after a filed candidate of its run. */
  lemma SyncIff(journal: seq<Event>)
    requires Orderly(journal)
    ensures (forall k: Knowledge, n: nat | n <= |journal| :: Sync(Sync(k, journal[..n]), journal) == Sync(k, journal))
            <==> KeysInTime(journal)
  {
    hide Orderly, Sync, HasFiling;
    if KeysInTime(journal) {
      forall k: Knowledge, n: nat | n <= |journal|
        ensures Sync(Sync(k, journal[..n]), journal) == Sync(k, journal)
      {
        SyncResumes(k, journal, n);
      }
    } else {
      var i, j :| 0 <= i < j < |journal| && HasFiling(journal[i].payload) && journal[j].payload.ManifestPayload?
                  && journal[j].payload.run == journal[i].payload.run;
      LateManifestDiffers(journal, i, j);
    }
  }
}
