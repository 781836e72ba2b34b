/** The reader of the journal, memory/research_evidence.py, and the theorem that its checks never fail
    on what the writers write. */
module ResearchEvidence {
  import opened Prelude
  import opened EvidenceStore
  import opened EvidenceProtocol

  datatype IntegrityError =
    | DuplicateGeneration | InvalidReference | ConflictingEvidence | GenerationsMissing
    | DuplicateRun | OrphanEvidence

  // ----- The payloads of one run by kind

  datatype Final = Final(generation: int, status: string, chosen: Option<string>)

  datatype Attempt = Attempt(generation: int, status: string, candidates: seq<Candidate>)

  /** The events of one run, in order. */
  function Of(events: seq<Event>, run: string): seq<Event> {
    if events == [] then []
    else
      var last := events[|events| - 1];
      Of(events[..|events| - 1], run) + (if last.payload.run == run then [last] else [])
  }

  function Finals(events: seq<Event>): seq<Final> {
    if events == [] then []
    else
      var p := events[|events| - 1].payload;
      Finals(events[..|events| - 1]) + (if p.GenerationPayload? then [Final(p.generation, p.status, p.chosen)] else [])
  }

  /** The comparison keys of the manifests. */
  function Manifests(events: seq<Event>): seq<string> {
    if events == [] then []
    else
      var p := events[|events| - 1].payload;
      Manifests(events[..|events| - 1]) + (if p.ManifestPayload? then [p.comparisonKey] else [])
  }

  /** The statuses of the ends. */
  function Ends(events: seq<Event>): seq<string> {
    if events == [] then []
    else
      var p := events[|events| - 1].payload;
      Ends(events[..|events| - 1]) + (if p.EndPayload? then [p.status] else [])
  }

  /** The attempts by id; a later one of the same id replaces an earlier one. */
  function Attempts(events: seq<Event>): map<string, Attempt> {
    if events == [] then map[]
    else
      var p := events[|events| - 1].payload;
      var before := Attempts(events[..|events| - 1]);
      if p.AttemptPayload? then before[p.attempt := Attempt(p.generation, p.status, p.candidates)] else before
  }

  /** A final generation that names an attempt has to name a completed one of its own generation. */
  predicate BadReference(attempts: map<string, Attempt>, final: Final) {
    && final.chosen.Some?
    && final.chosen.value != ""
    && (final.chosen.value !in attempts
        || attempts[final.chosen.value].generation != final.generation
        || attempts[final.chosen.value].status != COMPLETED)
  }

  function Chosen(attempts: map<string, Attempt>, final: Final): seq<Candidate> {
    if final.chosen.Some? && final.chosen.value in attempts then attempts[final.chosen.value].candidates else []
  }

  ghost predicate DistinctGenerations(finals: seq<Final>) {
    forall i, j | 0 <= i < j < |finals| :: finals[i].generation != finals[j].generation
  }

  /** What a run has to look like for a summary, said without the reader's loops. */
  ghost predicate Consistent(requested: int, events: seq<Event>) {
    var finals, ends := Finals(events), Ends(events);
    && DistinctGenerations(finals)
    && (forall f | f in finals :: !BadReference(Attempts(events), f))
    && |Manifests(events)| <= 1 && |ends| <= 1 && |finals| <= requested
    && (ends != [] && COMPLETED <= ends[0] ==> |finals| == requested)
  }

  // ----- The counts

  /** A rejected candidate's identity: its hash and its failed gates in any order. */
  function Signature(c: Candidate): (string, multiset<string>) {
    (c.hash, multiset(c.failedGates))
  }

  function Rejects(rows: seq<Candidate>): nat {
    if rows == [] then 0
    else Rejects(rows[..|rows| - 1]) + (if rows[|rows| - 1].status == "REJECT" then 1 else 0)
  }

  function Signatures(rows: seq<Candidate>): set<(string, multiset<string>)> {
    if rows == [] then {}
    else Signatures(rows[..|rows| - 1]) + (if rows[|rows| - 1].status == "REJECT" then {Signature(rows[|rows| - 1])}
        else {})
  }

  function RowsOf(attempts: map<string, Attempt>, finals: seq<Final>): seq<Candidate> {
    if finals == [] then [] else RowsOf(attempts, finals[..|finals| - 1]) + Chosen(attempts, finals[|finals| - 1])
  }

  /** `sorted` by generation, by insertion. */
  function InsertFinal(finals: seq<Final>, f: Final): seq<Final> {
    if finals == [] || finals[|finals| - 1].generation <= f.generation then finals + [f]
    else InsertFinal(finals[..|finals| - 1], f) + [finals[|finals| - 1]]
  }

  function SortFinals(finals: seq<Final>): seq<Final> {
    if finals == [] then [] else InsertFinal(SortFinals(finals[..|finals| - 1]), finals[|finals| - 1])
  }

  lemma {:induction false} InsertKeepsFinals(finals: seq<Final>, f: Final)
    ensures multiset(InsertFinal(finals, f)) == multiset(finals) + multiset{f}
  {
    if finals != [] {
      assert finals == finals[..|finals| - 1] + [finals[|finals| - 1]];
      if finals[|finals| - 1].generation > f.generation {
        InsertKeepsFinals(finals[..|finals| - 1], f);
      }
    }
  }

  /** The sort keeps the finals. */
  lemma {:induction false} SortKeepsFinals(finals: seq<Final>)
    ensures multiset(SortFinals(finals)) == multiset(finals)
  {
    if finals != [] {
      assert finals == finals[..|finals| - 1] + [finals[|finals| - 1]];
      SortKeepsFinals(finals[..|finals| - 1]);
      InsertKeepsFinals(SortFinals(finals[..|finals| - 1]), finals[|finals| - 1]);
    }
  }

  predicate GenerationOrder(finals: seq<Final>) {
    forall i, j | 0 <= i < j < |finals| :: finals[i].generation <= finals[j].generation
  }

  lemma InsertHas(finals: seq<Final>, f: Final)
    ensures forall x | x in InsertFinal(finals, f) :: x in finals || x == f
  {
    hide InsertFinal;
    InsertKeepsFinals(finals, f);
    forall x | x in InsertFinal(finals, f)
      ensures x in finals || x == f
    {
      assert x in multiset(InsertFinal(finals, f));
    }
  }

  lemma {:induction false} InsertOrdersFinals(finals: seq<Final>, f: Final)
    requires GenerationOrder(finals)
    ensures GenerationOrder(InsertFinal(finals, f))
  {
    if finals != [] && finals[|finals| - 1].generation > f.generation {
      var n := |finals| - 1;
      InsertOrdersFinals(finals[..n], f);
      InsertHas(finals[..n], f);
      var front := InsertFinal(finals[..n], f);
      forall i | 0 <= i < |front|
        ensures front[i].generation <= finals[n].generation
      {
        assert front[i] in front;
      }
    }
  }

  /** The sort puts them in the order of their generations. */
  lemma {:induction false} SortOrdersFinals(finals: seq<Final>)
    ensures GenerationOrder(SortFinals(finals))
  {
    if finals != [] {
      SortOrdersFinals(finals[..|finals| - 1]);
      InsertOrdersFinals(SortFinals(finals[..|finals| - 1]), finals[|finals| - 1]);
    }
  }

  function Generations(finals: seq<Final>): set<int> {
    if finals == [] then {} else Generations(finals[..|finals| - 1]) + {finals[|finals| - 1].generation}
  }

  lemma {:induction false} GenerationsMembers(finals: seq<Final>)
    ensures forall x :: x in Generations(finals) <==> exists i | 0 <= i < |finals| :: finals[i].generation == x
  {
    if finals != [] {
      GenerationsMembers(finals[..|finals| - 1]);
    }
  }

  /** As many generations as finals means that no two are the same. */
  lemma {:induction false} DistinctBySize(finals: seq<Final>)
    ensures |Generations(finals)| <= |finals|
    ensures |Generations(finals)| == |finals| <==> DistinctGenerations(finals)
  {
    hide Generations, DistinctGenerations;
    if finals == [] {
      NoGenerations();
    } else {
      var front, last := finals[..|finals| - 1], finals[|finals| - 1];
      assert finals == front + [last];
      DistinctBySize(front);
      OneMoreGeneration(front, last);
      DistinctSnoc(front, last);
    }
  }

  lemma NoGenerations()
    ensures Generations([]) == {} && DistinctGenerations([])
  {
  }

  lemma OneMoreGeneration(front: seq<Final>, last: Final)
    ensures |Generations(front + [last])| == |Generations(front)| + if last.generation in Generations(front) then 0
            else 1
  {
    assert (front + [last])[..|front|] == front;
    SizeWithOneMore(Generations(front), last.generation);
  }

  lemma DistinctSnoc(front: seq<Final>, last: Final)
    ensures DistinctGenerations(front + [last])
            <==> DistinctGenerations(front) && last.generation !in Generations(front)
  {
    GenerationsMembers(front);
    var finals := front + [last];
    assert forall i | 0 <= i < |front| :: finals[i] == front[i];
    if last.generation in Generations(front) {
      var i :| 0 <= i < |front| && front[i].generation == last.generation;
      assert finals[i].generation == finals[|front|].generation;
    }
  }

  lemma SameGenerations(a: seq<Final>, b: seq<Final>)
    requires multiset(a) == multiset(b)
    ensures |a| == |b| && Generations(a) == Generations(b) && forall f :: f in a <==> f in b
  {
    assert |a| == |multiset(a)| == |multiset(b)| == |b|;
    assert forall f :: f in a <==> f in multiset(a);
    assert forall f :: f in b <==> f in multiset(b);
    GenerationsMembers(a);
    GenerationsMembers(b);
    forall x
      ensures x in Generations(a) <==> x in Generations(b)
    {
      if i :| 0 <= i < |a| && a[i].generation == x {
        assert a[i] in b;
      }
      if i :| 0 <= i < |b| && b[i].generation == x {
        assert b[i] in a;
      }
    }
  }

  // ----- The summary of a run

  datatype Summary = Summary(
    status: string, comparisonKey: Option<string>, completed: nat, rows: seq<Candidate>, rejects: nat, repeated: nat)

  /** Rows seen so far, with the counters of the reader's loop. */
  datatype Tally = Tally(rows: seq<Candidate>, seen: set<(string, multiset<string>)>, failed: nat, repeated: nat)

  /** Each rejected row is counted once, and as repeated exactly when its signature was there before. */
  ghost predicate Counted(t: Tally) {
    t.seen == Signatures(t.rows) && t.failed == Rejects(t.rows) && t.repeated + |t.seen| == t.failed
  }

  lemma CountStep(t: Tally, row: Candidate)
    requires Counted(t)
    ensures row.status != "REJECT" ==> Counted(t.(rows := t.rows + [row]))
    ensures row.status == "REJECT" ==>
              Counted(Tally(t.rows + [row], t.seen + {Signature(row)}, t.failed + 1, if Signature(row) in t.seen
                  then t.repeated + 1 else t.repeated))
  {
    hide Signature;
    assert (t.rows + [row])[..|t.rows|] == t.rows;
    SizeWithOneMore(t.seen, Signature(row));
  }

  lemma SizeWithOneMore<T>(s: set<T>, x: T)
    ensures |s + {x}| == if x in s then |s| else |s| + 1
  {
    if x in s {
      assert s + {x} == s;
    }
  }

  method CountRows(candidates: seq<Candidate>, before: Tally) returns (after: Tally)
    requires Counted(before)
    ensures Counted(after) && after.rows == before.rows + candidates
  {
    hide Counted;
    var rows, seen, failed, repeated := before.rows, before.seen, before.failed, before.repeated;
    for k := 0 to |candidates|
      invariant rows == before.rows + candidates[..k]
      invariant Counted(Tally(rows, seen, failed, repeated))
    {
      var row := candidates[k];
      CountStep(Tally(rows, seen, failed, repeated), row);
      if row.status == "REJECT" {
        if Signature(row) in seen {
          repeated := repeated + 1;
        }
        failed := failed + 1;
        seen := seen + {Signature(row)};
      }
      rows := rows + [row];
    }
    after := Tally(rows, seen, failed, repeated);
  }

  /** The loop over the final generations. */
  method CountFinals(attempts: map<string, Attempt>, finals: seq<Final>) returns (r: Result<Tally, IntegrityError>)
    ensures r.Ok? <==> forall f | f in finals :: !BadReference(attempts, f)
    ensures r.Ok? ==> Counted(r.value) && r.value.rows == RowsOf(attempts, finals)
    ensures r.Err? ==> r.error == InvalidReference
  {
    hide BadReference, Chosen;
    var tally := Tally([], {}, 0, 0);
    for i := 0 to |finals|
      invariant forall k | 0 <= k < i :: !BadReference(attempts, finals[k])
      invariant Counted(tally) && tally.rows == RowsOf(attempts, finals[..i])
    {
      assert finals[..i + 1][..i] == finals[..i];
      if BadReference(attempts, finals[i]) {
        return Err(InvalidReference);
      }
      tally := CountRows(Chosen(attempts, finals[i]), tally);
    }
    assert finals[..|finals|] == finals;
    return Ok(tally);
  }

  /** What a summary reports: the rows of the chosen attempts in the order of the generations, how many
      are rejected, and how many of those repeat an earlier one. */
  ghost predicate Summarises(events: seq<Event>, s: Summary) {
    && s.completed == |Finals(events)|
    && s.rows == RowsOf(Attempts(events), SortFinals(Finals(events)))
    && s.rejects == Rejects(s.rows)
    && s.repeated + |Signatures(s.rows)| == s.rejects
    && s.status == (if Ends(events) == [] then "INCOMPLETE" else Ends(events)[0])
    && s.comparisonKey == (if Manifests(events) == [] then None else Some(Manifests(events)[0]))
  }

  /** The completion rate is at most one, and the rate of repeated failures below one: the first of its
      kind is no repetition. */
  lemma RatesWithin(requested: int, events: seq<Event>, s: Summary)
    requires Consistent(requested, events) && Summarises(events, s)
    ensures s.completed <= requested
    ensures s.rejects > 0 ==> s.repeated < s.rejects
  {
    RejectsSigned(s.rows);
  }

  lemma {:induction false} RejectsSigned(rows: seq<Candidate>)
    ensures Rejects(rows) > 0 ==> |Signatures(rows)| > 0
  {
    hide Signature;
    if rows != [] {
      RejectsSigned(rows[..|rows| - 1]);
      if rows[|rows| - 1].status == "REJECT" {
        assert Signature(rows[|rows| - 1]) in Signatures(rows);
      }
    }
  }

  // ----- The same, said from the events alone

  /** The events of one run under the ids that the writers give them, no id twice. */
  ghost predicate OneRun(events: seq<Event>, run: string) {
    UniqueIds(events) && forall e | e in events :: Canonical(e) && e.payload.run == run
  }

  ghost predicate Journalled(events: seq<Event>, p: Payload) {
    exists e | e in events :: e.payload == p
  }

  /** The final generation names the attempt. */
  predicate Names(final: Payload, attempt: Payload) {
    final.GenerationPayload? && attempt.AttemptPayload? && final.chosen == Some(attempt.attempt)
  }

  function Flat(pieces: seq<seq<Candidate>>): seq<Candidate> {
    if pieces == [] then [] else Flat(pieces[..|pieces| - 1]) + pieces[|pieces| - 1]
  }

  function Total(pieces: seq<seq<Candidate>>): nat {
    if pieces == [] then 0 else Total(pieces[..|pieces| - 1]) + |pieces[|pieces| - 1]|
  }

  /** How often `c` is in the pieces. */
  function Often(pieces: seq<seq<Candidate>>, c: Candidate): nat {
    if pieces == [] then 0 else Often(pieces[..|pieces| - 1], c) + multiset(pieces[|pieces| - 1])[c]
  }

  lemma {:induction false} FlatKeeps(pieces: seq<seq<Candidate>>)
    ensures |Flat(pieces)| == Total(pieces) && forall c :: multiset(Flat(pieces))[c] == Often(pieces, c)
  {
    if pieces != [] {
      FlatKeeps(pieces[..|pieces| - 1]);
    }
  }

  /** `rows` are the pieces one after the other, one for each final generation of the journal, in the order of
      the generations: the candidates of the attempt that it names, and nothing if it names none. */
  ghost predicate Reported(events: seq<Event>, finals: seq<Payload>, pieces: seq<seq<Candidate>>,
                           rows: seq<Candidate>) {
    && |finals| == |pieces|
    && (forall p :: p in finals <==> p.GenerationPayload? && Journalled(events, p))
    && (forall i, j | 0 <= i < j < |finals| :: finals[i].generation < finals[j].generation)
    && (forall k | 0 <= k < |finals| :: PieceOf(events, finals[k], pieces[k]))
    && rows == Flat(pieces)
    && |rows| == Total(pieces)
    && forall c :: multiset(rows)[c] == Often(pieces, c)
  }

  ghost predicate PieceOf(events: seq<Event>, final: Payload, piece: seq<Candidate>) {
    && (forall a | Journalled(events, a) && Names(final, a) :: piece == a.candidates)
    && (piece != [] ==> exists a :: Journalled(events, a) && Names(final, a))
  }

  /** What the counts of a summary mean: how many rows are rejected, and before how many of those an earlier
      rejected row has the same hash and the same failed gates in some order. */
  predicate RejectedAt(rows: seq<Candidate>, k: nat) {
    k < |rows| && rows[k].status == "REJECT"
  }

  predicate RepeatedAt(rows: seq<Candidate>, k: nat) {
    RejectedAt(rows, k) && exists j | 0 <= j < k :: RejectedAt(rows, j) && Same(rows[j], rows[k])
  }

  predicate Same(c: Candidate, d: Candidate) {
    c.hash == d.hash && multiset(c.failedGates) == multiset(d.failedGates)
  }

  function RejectedPlaces(rows: seq<Candidate>): set<int> {
    set k | 0 <= k < |rows| && RejectedAt(rows, k)
  }

  function RepeatedPlaces(rows: seq<Candidate>): set<int> {
    set k | 0 <= k < |rows| && RepeatedAt(rows, k)
  }

  lemma {:induction false} SignaturesMeaning(rows: seq<Candidate>, c: Candidate)
    ensures Signature(c) in Signatures(rows) <==> exists j | 0 <= j < |rows| :: RejectedAt(rows, j) && Same(rows[j], c)
  {
    if rows != [] {
      var n := |rows| - 1;
      SignaturesMeaning(rows[..n], c);
      assert forall j | 0 <= j < n :: rows[..n][j] == rows[j] && (RejectedAt(rows[..n], j) <==> RejectedAt(rows, j));
    }
  }

  lemma PlacesSnoc(rows: seq<Candidate>, c: Candidate)
    ensures var all := rows + [c];
            && RejectedPlaces(all) == RejectedPlaces(rows) + (if c.status == "REJECT" then {|rows|} else {})
            && RepeatedPlaces(all) == RepeatedPlaces(rows)
                 + (if c.status == "REJECT" && Signature(c) in Signatures(rows) then {|rows|} else {})
  {
    hide Signature, Signatures, Same, RejectedAt, RepeatedAt, RejectedPlaces, RepeatedPlaces;
    var all := rows + [c];
    LastPlace(rows, c);
    forall k: int
      ensures k in RejectedPlaces(all) <==>
                k in RejectedPlaces(rows) || (k == |rows| && RejectedAt(all, |rows|))
      ensures k in RepeatedPlaces(all) <==>
                k in RepeatedPlaces(rows) || (k == |rows| && RepeatedAt(all, |rows|))
    {
      if 0 <= k < |rows| {
        EarlierPlace(rows, c, k);
      }
      PlaceIn(all, k);
      PlaceIn(rows, k);
    }
  }

  lemma PlaceIn(rows: seq<Candidate>, k: int)
    ensures k in RejectedPlaces(rows) <==> 0 <= k < |rows| && RejectedAt(rows, k)
    ensures k in RepeatedPlaces(rows) <==> 0 <= k < |rows| && RepeatedAt(rows, k)
  {
    hide RejectedAt, RepeatedAt;
  }

  lemma EarlierPlace(rows: seq<Candidate>, c: Candidate, k: nat)
    requires k < |rows|
    ensures RejectedAt(rows + [c], k) <==> RejectedAt(rows, k)
    ensures RepeatedAt(rows + [c], k) <==> RepeatedAt(rows, k)
  {
    hide Same;
    var all := rows + [c];
    assert forall j | 0 <= j < |rows| :: all[j] == rows[j] && (RejectedAt(all, j) <==> RejectedAt(rows, j));
  }

  lemma LastPlace(rows: seq<Candidate>, c: Candidate)
    ensures RejectedAt(rows + [c], |rows|) <==> c.status == "REJECT"
    ensures RepeatedAt(rows + [c], |rows|) <==> c.status == "REJECT" && Signature(c) in Signatures(rows)
  {
    hide Signature, Signatures, Same;
    SignaturesMeaning(rows, c);
    var all := rows + [c];
    assert all[|rows|] == c;
    assert forall j | 0 <= j < |rows| :: all[j] == rows[j] && (RejectedAt(all, j) <==> RejectedAt(rows, j));
  }

  lemma {:induction false} CountsMean(rows: seq<Candidate>)
    ensures |RejectedPlaces(rows)| == Rejects(rows)
    ensures |RepeatedPlaces(rows)| + |Signatures(rows)| == Rejects(rows)
  {
    hide Signature, RejectedPlaces, RepeatedPlaces;
    if rows == [] {
      NoPlaces();
    } else {
      var front, last := rows[..|rows| - 1], rows[|rows| - 1];
      assert rows == front + [last];
      CountsMean(front);
      PlacesSnoc(front, last);
      PlacesBelow(front);
      SizeWithOneMore(Signatures(front), Signature(last));
    }
  }

  lemma NoPlaces()
    ensures RejectedPlaces([]) == {} && RepeatedPlaces([]) == {}
  {
  }

  lemma PlacesBelow(rows: seq<Candidate>)
    ensures |rows| !in RejectedPlaces(rows) && |rows| !in RepeatedPlaces(rows)
  {
  }

  /** What the rows are: each final generation that names an attempt contributes its candidates, in the order
      of the generations, and nothing else is reported; and what the two counts are. */
  ghost predicate Explained(events: seq<Event>, s: Summary) {
    && (exists finals, pieces :: Reported(events, finals, pieces, s.rows))
    && s.rejects == |RejectedPlaces(s.rows)|
    && s.repeated == |RepeatedPlaces(s.rows)|
    && s.completed == |GenerationEvents(events)|
    && (forall e | e in events && e.payload.EndPayload? :: s.status == e.payload.status)
    && ((forall e | e in events :: !e.payload.EndPayload?) ==> s.status == "INCOMPLETE")
    && (forall e | e in events && e.payload.ManifestPayload? :: s.comparisonKey == Some(e.payload.comparisonKey))
    && ((forall e | e in events :: !e.payload.ManifestPayload?) ==> s.comparisonKey == None)
  }

  function AsPayload(run: string, f: Final): Payload {
    GenerationPayload(run, f.generation, f.status, f.chosen)
  }

  function AsPayloads(run: string, finals: seq<Final>): (ps: seq<Payload>)
    ensures |ps| == |finals| && forall k | 0 <= k < |ps| :: ps[k] == AsPayload(run, finals[k])
  {
    seq(|finals|, k requires 0 <= k < |finals| => AsPayload(run, finals[k]))
  }

  function PiecesOf(attempts: map<string, Attempt>, finals: seq<Final>): (pieces: seq<seq<Candidate>>)
    ensures |pieces| == |finals| && forall k | 0 <= k < |pieces| :: pieces[k] == Chosen(attempts, finals[k])
  {
    seq(|finals|, k requires 0 <= k < |finals| => Chosen(attempts, finals[k]))
  }

  lemma {:induction false} RowsFlat(attempts: map<string, Attempt>, finals: seq<Final>)
    ensures RowsOf(attempts, finals) == Flat(PiecesOf(attempts, finals))
  {
    hide Chosen;
    if finals != [] {
      var n := |finals| - 1;
      RowsFlat(attempts, finals[..n]);
      assert PiecesOf(attempts, finals)[..n] == PiecesOf(attempts, finals[..n]);
    }
  }

  /** The table holds an attempt only if the journal does. */
  lemma {:induction false} AttemptsJournalled(events: seq<Event>, attempt: string)
    ensures attempt in Attempts(events)
            <==> exists a | Journalled(events, a) :: a.AttemptPayload? && a.attempt == attempt
  {
    if events != [] {
      var front, last := events[..|events| - 1], events[|events| - 1];
      AttemptsJournalled(front, attempt);
      assert events == front + [last];
      assert forall a :: Journalled(events, a) <==> Journalled(front, a) || a == last.payload;
    }
  }

  /** What a generation contributes, from the events. */
  lemma ChosenMeaning(events: seq<Event>, run: string, f: Final)
    requires OneRun(events, run)
    ensures PieceOf(events, AsPayload(run, f), Chosen(Attempts(events), f))
  {
    hide Attempts, Canonical;
    var final := AsPayload(run, f);
    forall a | Journalled(events, a) && Names(final, a)
      ensures Chosen(Attempts(events), f) == a.candidates
    {
      var e :| e in events && e.payload == a;
      AttemptsMeaning(events, e);
    }
    if f.chosen.Some? {
      AttemptsJournalled(events, f.chosen.value);
    }
  }

  lemma FinalsAreEvents(events: seq<Event>, run: string, finals: seq<Final>)
    requires OneRun(events, run) && multiset(finals) == multiset(Finals(events))
    ensures forall p :: p in AsPayloads(run, finals) <==> p.GenerationPayload? && Journalled(events, p)
  {
    hide Finals, Canonical, UniqueIds;
    SameGenerations(finals, Finals(events));
    FinalsMembers(events);
    forall p
      ensures p in AsPayloads(run, finals) <==> p.GenerationPayload? && Journalled(events, p)
    {
      if p in AsPayloads(run, finals) {
        var k :| 0 <= k < |finals| && p == AsPayload(run, finals[k]);
        assert finals[k] in Finals(events);
      }
      if p.GenerationPayload? && Journalled(events, p) {
        var e :| e in events && e.payload == p;
        var f := Final(p.generation, p.status, p.chosen);
        assert f in finals;
        var k :| 0 <= k < |finals| && finals[k] == f;
        assert AsPayloads(run, finals)[k] == p;
      }
    }
  }

  lemma SummaryExplained(events: seq<Event>, run: string, s: Summary)
    requires OneRun(events, run) && DistinctGenerations(Finals(events)) && Summarises(events, s)
    ensures Explained(events, s)
  {
    hide Finals, Attempts, SortFinals, Rejects, Signatures, Manifests, Ends, GenerationEvents, Canonical,
         UniqueIds, PieceOf, RejectedPlaces, RepeatedPlaces, Flat, Total, Often, Journalled;
    var finals := SortFinals(Finals(events));
    SortKeepsFinals(Finals(events));
    FinalsAreEvents(events, run, finals);
    SortStrict(Finals(events));
    var pieces := PiecesOf(Attempts(events), finals);
    forall k | 0 <= k < |finals|
      ensures PieceOf(events, AsPayloads(run, finals)[k], pieces[k])
    {
      ChosenMeaning(events, run, finals[k]);
    }
    RowsFlat(Attempts(events), finals);
    FlatKeeps(pieces);
    CountsMean(s.rows);
    FinalsCounted(events);
    OneEnd(events, run);
    HeadersMean(events, s);
    assert Reported(events, AsPayloads(run, finals), pieces, s.rows);
  }

  lemma HeadersMean(events: seq<Event>, s: Summary)
    requires Summarises(events, s) && |Manifests(events)| <= 1 && |Ends(events)| <= 1
    ensures forall e | e in events && e.payload.EndPayload? :: s.status == e.payload.status
    ensures (forall e | e in events :: !e.payload.EndPayload?) ==> s.status == "INCOMPLETE"
    ensures forall e | e in events && e.payload.ManifestPayload? :: s.comparisonKey == Some(e.payload.comparisonKey)
    ensures (forall e | e in events :: !e.payload.ManifestPayload?) ==> s.comparisonKey == None
  {
    hide Manifests, Ends, Finals, Attempts, RowsOf, SortFinals, Rejects, Signatures;
    EndsMembers(events);
    ManifestsMembers(events);
    forall e | e in events && e.payload.EndPayload?
      ensures s.status == e.payload.status
    {
      assert e.payload.status in Ends(events);
    }
    forall e | e in events && e.payload.ManifestPayload?
      ensures s.comparisonKey == Some(e.payload.comparisonKey)
    {
      assert e.payload.comparisonKey in Manifests(events);
    }
    if Ends(events) != [] {
      assert Ends(events)[0] in Ends(events);
    }
    if Manifests(events) != [] {
      assert Manifests(events)[0] in Manifests(events);
    }
  }

  lemma {:induction false} ManifestsMembers(events: seq<Event>)
    ensures forall key :: key in Manifests(events) <==>
              exists e | e in events :: e.payload.ManifestPayload? && e.payload.comparisonKey == key
  {
    if events != [] {
      ManifestsMembers(events[..|events| - 1]);
      assert events == events[..|events| - 1] + [events[|events| - 1]];
    }
  }

  lemma SortStrict(finals: seq<Final>)
    requires DistinctGenerations(finals)
    ensures var sorted := SortFinals(finals);
            forall i, j | 0 <= i < j < |sorted| :: sorted[i].generation < sorted[j].generation
  {
    hide SortFinals;
    SortKeepsFinals(finals);
    SortOrdersFinals(finals);
    SameGenerations(SortFinals(finals), finals);
    DistinctBySize(finals);
    DistinctBySize(SortFinals(finals));
  }

  /** The final generations of the journal. */
  function GenerationEvents(events: seq<Event>): set<Event> {
    set e | e in events && e.payload.GenerationPayload?
  }

  lemma {:induction false} FinalsCounted(events: seq<Event>)
    requires UniqueIds(events)
    ensures |Finals(events)| == |GenerationEvents(events)|
  {
    if events == [] {
      assert GenerationEvents(events) == {};
    } else {
      var front, last := events[..|events| - 1], events[|events| - 1];
      assert events == front + [last];
      FinalsCounted(front);
      assert forall i | 0 <= i < |front| :: events[i] == front[i] && front[i].id != last.id;
      assert last !in front;
      assert GenerationEvents(events)
          == GenerationEvents(front) + if last.payload.GenerationPayload? then {last} else {};
    }
  }

  /** A final generation names no attempt, or a completed one of its own generation. */
  ghost predicate GoodReference(events: seq<Event>, final: Payload)
    requires final.GenerationPayload?
  {
    final.chosen == None || final.chosen == Some("") ||
    exists a :: Journalled(events, a) && Names(final, a) && a.generation == final.generation && a.status == COMPLETED
  }

  lemma ReferenceIff(events: seq<Event>, run: string, f: Final)
    requires OneRun(events, run)
    ensures BadReference(Attempts(events), f) <==> !GoodReference(events, AsPayload(run, f))
  {
    hide Attempts, Canonical;
    var final := AsPayload(run, f);
    forall a | Journalled(events, a) && Names(final, a)
      ensures a.attempt in Attempts(events)
      ensures Attempts(events)[a.attempt] == Attempt(a.generation, a.status, a.candidates)
    {
      var e :| e in events && e.payload == a;
      AttemptsMeaning(events, e);
    }
    if f.chosen.Some? {
      AttemptsJournalled(events, f.chosen.value);
    }
  }

  lemma {:induction false} EndsMembers(events: seq<Event>)
    ensures forall text ::
              text in Ends(events) <==> exists e | e in events :: e.payload.EndPayload? && e.payload.status == text
  {
    if events != [] {
      EndsMembers(events[..|events| - 1]);
      assert events == events[..|events| - 1] + [events[|events| - 1]];
    }
  }

  lemma {:induction false} OneEnd(events: seq<Event>, run: string)
    requires OneRun(events, run)
    ensures |Manifests(events)| <= 1 && |Ends(events)| <= 1
    ensures Manifests(events) != [] ==> exists e | e in events :: e.id == ManifestId(run)
    ensures Ends(events) != [] ==> exists e | e in events :: e.id == EndId(run)
  {
    if events != [] {
      var front, last := events[..|events| - 1], events[|events| - 1];
      assert events == front + [last];
      OneEnd(front, run);
      assert Canonical(last);
      assert forall i | 0 <= i < |front| :: events[i] == front[i] && front[i].id != last.id;
    }
  }

  lemma ReferencesIff(events: seq<Event>, run: string)
    requires OneRun(events, run)
    ensures (forall f | f in Finals(events) :: !BadReference(Attempts(events), f))
            <==> forall p: Payload | p.GenerationPayload? && Journalled(events, p) :: GoodReference(events, p)
  {
    hide Finals, Attempts, BadReference, GoodReference, UniqueIds, OneRun;
    FinalsAreEvents(events, run, Finals(events));
    var ps := AsPayloads(run, Finals(events));
    forall k | 0 <= k < |ps|
      ensures BadReference(Attempts(events), Finals(events)[k]) <==> !GoodReference(events, ps[k])
    {
      ReferenceIff(events, run, Finals(events)[k]);
    }
    if forall f | f in Finals(events) :: !BadReference(Attempts(events), f) {
      forall p: Payload | p.GenerationPayload? && Journalled(events, p)
        ensures GoodReference(events, p)
      {
        assert p in ps;
        var k :| 0 <= k < |ps| && ps[k] == p;
        assert Finals(events)[k] in Finals(events);
      }
    }
    if forall p: Payload | p.GenerationPayload? && Journalled(events, p) :: GoodReference(events, p) {
      forall f | f in Finals(events)
        ensures !BadReference(Attempts(events), f)
      {
        var k :| 0 <= k < |ps| && Finals(events)[k] == f;
        assert ps[k] in ps;
      }
    }
  }

  predicate Completed(e: Event) {
    e.payload.EndPayload? && COMPLETED <= e.payload.status
  }

  lemma EndsIff(events: seq<Event>)
    requires |Ends(events)| <= 1
    ensures Ends(events) != [] && COMPLETED <= Ends(events)[0] <==> exists e | e in events :: Completed(e)
  {
    hide Ends;
    EndsMembers(events);
    if Ends(events) != [] {
      assert Ends(events)[0] in Ends(events);
      var e :| e in events && e.payload.EndPayload? && e.payload.status == Ends(events)[0];
      assert COMPLETED <= Ends(events)[0] ==> Completed(e);
    }
    if e :| e in events && Completed(e) {
      assert e.payload.status in Ends(events);
    }
  }

  /** Which runs the reader accepts, from their events: every attempt that a final generation names is a
      completed one of that generation, there are no more final generations than were requested, and a run that
      ended as completed has them all. */
  lemma ConsistentIff(requested: int, events: seq<Event>, run: string)
    requires OneRun(events, run)
    ensures Consistent(requested, events) <==>
              && (forall p: Payload | p.GenerationPayload? && Journalled(events, p) :: GoodReference(events, p))
              && |GenerationEvents(events)| <= requested
              && ((exists e | e in events :: Completed(e)) ==> |GenerationEvents(events)| == requested)
  {
    hide Finals, Attempts, Canonical, Manifests, Ends, BadReference, GoodReference, UniqueIds, GenerationEvents;
    FinalsDistinct(events, run);
    FinalsCounted(events);
    OneEnd(events, run);
    EndsIff(events);
    ReferencesIff(events, run);
  }

  /** `_run_summary`: it fails exactly on an inconsistent run, and what it reports of a consistent one is what
      the events of the run say. */
  method RunSummary(requested: int, events: seq<Event>) returns (r: Result<Summary, IntegrityError>)
    ensures r.Ok? <==> Consistent(requested, events)
    ensures r.Ok? ==> Summarises(events, r.value)
    ensures r.Ok? ==> forall run | OneRun(events, run) :: Explained(events, r.value)
    ensures r.Err? ==>
              if !DistinctGenerations(Finals(events)) then r.error == DuplicateGeneration
              else if exists f | f in Finals(events) :: BadReference(Attempts(events), f)
              then r.error == InvalidReference
              else if |Manifests(events)| > 1 || |Ends(events)| > 1 || |Finals(events)| > requested
              then r.error == ConflictingEvidence
              else r.error == GenerationsMissing
  {
    hide BadReference, DistinctGenerations, SortFinals, Finals, Attempts, Manifests, Ends, Generations, RowsOf, Rejects,
         Signatures;
    var manifests, attempts, ends := Manifests(events), Attempts(events), Ends(events);
    var finals := SortFinals(Finals(events));
    SortKeepsFinals(Finals(events));
    SameGenerations(finals, Finals(events));
    DistinctBySize(Finals(events));
    if |Generations(finals)| != |finals| {
      return Err(DuplicateGeneration);
    }
    var tally := CountFinals(attempts, finals);
    if tally.Err? {
      return Err(tally.error);
    }
    if |manifests| > 1 || |ends| > 1 || |finals| > requested {
      return Err(ConflictingEvidence);
    }
    if ends != [] && COMPLETED <= ends[0] && |finals| != requested {
      return Err(GenerationsMissing);
    }
    var summary := Summary(
      if ends == [] then "INCOMPLETE" else ends[0],
      if manifests == [] then None else Some(manifests[0]),
      |finals|, tally.value.rows, tally.value.failed, tally.value.repeated);
    forall run | OneRun(events, run)
      ensures Explained(events, summary)
    {
      SummaryExplained(events, run, summary);
    }
    return Ok(summary);
  }

  // ----- What the writers write is consistent

  lemma {:induction false} OfMembers(events: seq<Event>, run: string)
    ensures forall e :: e in Of(events, run) <==> e in events && e.payload.run == run
  {
    if events != [] {
      OfMembers(events[..|events| - 1], run);
      assert events == events[..|events| - 1] + [events[|events| - 1]];
    }
  }

  /** Ids are distinct, and pairs in order. */
  ghost predicate Arranged(events: seq<Event>) {
    forall i, j | 0 <= i < j < |events| :: Follows(events[i], events[j])
  }

  ghost predicate Follows(early: Event, late: Event) {
    early.id != late.id && InOrder(early.payload, late.payload)
  }

  lemma ArrangedSnoc(events: seq<Event>, e: Event)
    ensures Arranged(events + [e]) <==> Arranged(events) && forall f | f in events :: Follows(f, e)
  {
    hide Follows;
    var all := events + [e];
    if Arranged(all) {
      assert forall i | 0 <= i < |events| :: events[i] == all[i] && Follows(all[i], all[|events|]);
    }
  }

  lemma {:induction false} OfArranged(events: seq<Event>, run: string)
    requires Arranged(events)
    ensures Arranged(Of(events, run))
  {
    hide Arranged, Follows;
    if events == [] {
      assert Of(events, run) == events;
    } else {
      var front, last := events[..|events| - 1], events[|events| - 1];
      assert Of(front, run) + [] == Of(front, run);
      assert events == front + [last];
      ArrangedSnoc(front, last);
      OfArranged(front, run);
      OfMembers(front, run);
      ArrangedSnoc(Of(front, run), last);
    }
  }

  /** Ids stay distinct, and pairs in order, when only one run's events are kept. */
  lemma OfKeepsOrder(events: seq<Event>, run: string)
    requires UniqueIds(events) && forall i, j | 0 <= i < j < |events| :: InOrder(events[i].payload, events[j].payload)
    ensures UniqueIds(Of(events, run))
    ensures forall i, j | 0 <= i < j < |Of(events, run)| ::
            InOrder(Of(events, run)[i].payload, Of(events, run)[j].payload)
  {
    hide InOrder, Of;
    OfArranged(events, run);
    var kept := Of(events, run);
    forall i, j | 0 <= i < j < |kept|
      ensures Follows(kept[i], kept[j])
    {
    }
  }

  lemma {:induction false} FinalsMembers(events: seq<Event>)
    ensures forall f :: f in Finals(events) <==>
              exists e | e in events :: e.payload.GenerationPayload?
                  && f == Final(e.payload.generation, e.payload.status, e.payload.chosen)
  {
    if events != [] {
      FinalsMembers(events[..|events| - 1]);
      assert events == events[..|events| - 1] + [events[|events| - 1]];
    }
  }

  lemma {:induction false} FinalsDistinct(events: seq<Event>, run: string)
    requires UniqueIds(events) && forall e | e in events :: Canonical(e) && e.payload.run == run
    ensures DistinctGenerations(Finals(events))
  {
    if events != [] {
      var front, last := events[..|events| - 1], events[|events| - 1];
      FinalsDistinct(front, run);
      FinalsMembers(front);
      assert Canonical(last);
      forall k | 0 <= k < |Finals(front)| && last.payload.GenerationPayload?
        ensures Finals(front)[k].generation != last.payload.generation
      {
        assert Finals(front)[k] in Finals(front);
        var e :| e in front && e.payload.GenerationPayload? && e.payload.generation == Finals(front)[k].generation;
        assert Canonical(e);
        var i :| 0 <= i < |front| && front[i] == e;
        assert events[i].id != events[|front|].id;
      }
    }
  }

  /** With distinct ids, the attempt table holds exactly what the journal says of an attempt. */
  lemma {:induction false} AttemptsMeaning(events: seq<Event>, e: Event)
    requires UniqueIds(events) && (forall f | f in events :: Canonical(f))
    requires e in events && e.payload.AttemptPayload?
    ensures e.payload.attempt in Attempts(events)
    ensures Attempts(events)[e.payload.attempt] == Attempt(e.payload.generation, e.payload.status, e.payload.candidates)
  {
    var front, last := events[..|events| - 1], events[|events| - 1];
    assert events == front + [last];
    if e != last {
      AttemptsMeaning(front, e);
      assert Canonical(e) && Canonical(last);
    }
  }

  lemma {:induction false} AtMostOneManifest(events: seq<Event>, run: string)
    requires forall e | e in events :: e.payload.run == run
    requires forall i, j | 0 <= i < j < |events| :: InOrder(events[i].payload, events[j].payload)
    ensures |Manifests(events)| <= 1 && |Ends(events)| <= 1
    ensures Manifests(events) != [] ==> exists e :: e in events && e.payload.ManifestPayload?
    ensures Ends(events) != [] ==> exists e ::
            e in events && e.payload.EndPayload? && e.payload.status == Ends(events)[0]
  {
    if events != [] {
      var front, last := events[..|events| - 1], events[|events| - 1];
      assert events == front + [last];
      AtMostOneManifest(front, run);
      assert forall k | 0 <= k < |front| ::
             InOrder(front[k].payload, last.payload) && front[k].payload.run == run == last.payload.run;
    }
  }

  // ----- Counting the generations

  function Interval(low: int, high: int): set<int>
    decreases high - low
  {
    if low >= high then {} else Interval(low, high - 1) + {high - 1}
  }

  lemma {:induction false} IntervalSize(low: int, high: int)
    requires low <= high
    ensures |Interval(low, high)| == high - low && forall x :: x in Interval(low, high) <==> low <= x < high
    decreases high - low
  {
    if low < high {
      IntervalSize(low, high - 1);
    }
  }

  ghost predicate HasFinal(finals: seq<Final>, generation: int) {
    exists i | 0 <= i < |finals| :: finals[i].generation == generation
  }

  /** Distinct generations that fill an interval are as many as it is long. */
  lemma FinalsCount(finals: seq<Final>, low: int, high: int)
    requires low <= high && DistinctGenerations(finals)
    requires forall x :: HasFinal(finals, x) <==> low <= x < high
    ensures |finals| == high - low
  {
    DistinctBySize(finals);
    GenerationsMembers(finals);
    IntervalSize(low, high);
    forall x
      ensures x in Generations(finals) <==> x in Interval(low, high)
    {
      assert HasFinal(finals, x) <==> low <= x < high;
    }
    assert Generations(finals) == Interval(low, high);
  }

  lemma EventsFit(g: Global, run: string)
    requires Inv(g)
    ensures forall e | e in Of(g.journal, run) :: e in g.journal && e.payload.run == run && EventFits(e, g)
    ensures UniqueIds(Of(g.journal, run))
    ensures forall i, j | 0 <= i < j < |Of(g.journal, run)| ::
            InOrder(Of(g.journal, run)[i].payload, Of(g.journal, run)[j].payload)
  {
    hide EventFits, InOrder;
    OfMembers(g.journal, run);
    OfKeepsOrder(g.journal, run);
  }

  lemma FinalInRange(g: Global, run: string, x: int)
    requires Inv(g) && run in g.sessions && HasFinal(Finals(Of(g.journal, run)), x)
    ensures g.sessions[run].first <= x < g.sessions[run].next
  {
    hide Inv, HasAttempt, InOrder, Of;
    var events := Of(g.journal, run);
    EventsFit(g, run);
    FinalsMembers(events);
    var i :| 0 <= i < |Finals(events)| && Finals(events)[i].generation == x;
    assert Finals(events)[i] in Finals(events);
    var e :| e in events && e.payload.GenerationPayload? && e.payload.generation == x;
    assert EventFits(e, g);
  }

  lemma RangeHasFinal(g: Global, run: string, x: int)
    requires Inv(g) && run in g.sessions && g.sessions[run].first <= x < g.sessions[run].next
    ensures HasFinal(Finals(Of(g.journal, run)), x)
  {
    hide Inv, HasAttempt, PhaseFits, Of;
    var events := Of(g.journal, run);
    SessionIn(g, run);
    assert HasId(g.journal, GenerationId(run, x));
    var e :| e in g.journal && e.id == GenerationId(run, x);
    EventIn(g, e);
    OfMembers(g.journal, run);
    FinalsMembers(events);
    assert Final(e.payload.generation, e.payload.status, e.payload.chosen) in Finals(events);
  }

  lemma FinalsOfRun(g: Global, run: string)
    requires Inv(g) && run in g.sessions
    ensures var s := g.sessions[run]; |Finals(Of(g.journal, run))| == s.next - s.first
    ensures DistinctGenerations(Finals(Of(g.journal, run)))
  {
    hide Inv, HasAttempt, PhaseFits, InOrder, Of, Finals, HasFinal, DistinctGenerations;
    var s, events := g.sessions[run], Of(g.journal, run);
    SessionIn(g, run);
    EventsFit(g, run);
    FinalsDistinct(events, run);
    forall x
      ensures HasFinal(Finals(events), x) <==> s.first <= x < s.next
    {
      if HasFinal(Finals(events), x) {
        FinalInRange(g, run, x);
      }
      if s.first <= x < s.next {
        RangeHasFinal(g, run, x);
      }
    }
    FinalsCount(Finals(events), s.first, s.next);
  }

  lemma ReferencesOfRun(g: Global, run: string)
    requires Inv(g) && run in g.sessions
    ensures forall f | f in Finals(Of(g.journal, run)) :: !BadReference(Attempts(Of(g.journal, run)), f)
  {
    hide Inv, InOrder;
    var events := Of(g.journal, run);
    EventsFit(g, run);
    OfMembers(g.journal, run);
    FinalsMembers(events);
    forall f | f in Finals(events) && f.chosen.Some?
      ensures !BadReference(Attempts(events), f)
    {
      var e :| e in events && e.payload.GenerationPayload? && f
          == Final(e.payload.generation, e.payload.status, e.payload.chosen);
      var a :| a in g.journal && a.id == AttemptId(f.chosen.value) && a.payload.AttemptPayload? && a.payload.run == run
               && a.payload.generation == f.generation && a.payload.status == COMPLETED;
      EventIn(g, a);
      AttemptsMeaning(events, a);
    }
  }

  /** In every reachable journal every run is consistent: no check of the summary ever fails. */
  lemma RunsConsistent(g: Global, run: string)
    requires Inv(g) && run in g.sessions
    ensures Consistent(g.sessions[run].requested, Of(g.journal, run))
  {
    hide Inv, HasAttempt, PhaseFits, BadReference, DistinctGenerations, InOrder, Finals, Attempts, Of, HasId;
    var s, events := g.sessions[run], Of(g.journal, run);
    FinalsOfRun(g, run);
    ReferencesOfRun(g, run);
    SessionIn(g, run);
    EventsFit(g, run);
    AtMostOneManifest(events, run);
    if Ends(events) != [] {
      var e :| e in events && e.payload.EndPayload? && e.payload.status == Ends(events)[0];
      assert EventFits(e, g);
    }
  }

  // ----- The whole journal

  function Runs(events: seq<Event>): seq<Payload> {
    if events == [] then []
    else
      var p := events[|events| - 1].payload;
      Runs(events[..|events| - 1]) + (if p.RunPayload? then [p] else [])
  }

  lemma {:induction false} RunsMembers(events: seq<Event>)
    ensures forall p :: p in Runs(events) <==> p.RunPayload? && exists e | e in events :: e.payload == p
  {
    if events != [] {
      RunsMembers(events[..|events| - 1]);
      assert events == events[..|events| - 1] + [events[|events| - 1]];
    }
  }

  predicate DistinctRuns(runs: seq<Payload>) {
    forall i, j | 0 <= i < |runs| && 0 <= j < |runs| && i != j :: runs[i].run != runs[j].run
  }

  predicate NoOrphan(events: seq<Event>, runs: seq<Payload>) {
    forall e | e in events :: exists p | p in runs :: p.run == e.payload.run
  }

  /** Every run of the journal is consistent. */
  ghost predicate AllConsistent(events: seq<Event>, runs: seq<Payload>) {
    forall p | p in runs :: p.RunPayload? && Consistent(p.requested, Of(events, p.run))
  }

  lemma {:induction false} RunsDistinct(events: seq<Event>)
    requires forall i, j | 0 <= i < j < |events| :: InOrder(events[i].payload, events[j].payload)
    ensures DistinctRuns(Runs(events))
  {
    if events != [] {
      var front, last := events[..|events| - 1], events[|events| - 1];
      RunsDistinct(front);
      RunsMembers(front);
      forall k | 0 <= k < |Runs(front)| && last.payload.RunPayload?
        ensures Runs(front)[k].run != last.payload.run
      {
        assert Runs(front)[k] in Runs(front);
        var e :| e in front && e.payload == Runs(front)[k];
        var i :| 0 <= i < |front| && front[i] == e;
        assert InOrder(events[i].payload, events[|front|].payload);
      }
    }
  }

  /** No run is registered twice. */
  ghost predicate RegisteredOnce(events: seq<Event>) {
    forall i, j | 0 <= i < j < |events| && events[i].payload.RunPayload? && events[j].payload.RunPayload? ::
      events[i].payload.run != events[j].payload.run
  }

  /** Every event is of a run that is registered somewhere in the journal. */
  ghost predicate AllRegistered(events: seq<Event>) {
    forall e | e in events :: Registered(events, e.payload.run)
  }

  ghost predicate Registered(events: seq<Event>, run: string) {
    exists f | f in events :: f.payload.RunPayload? && f.payload.run == run
  }

  lemma {:induction false} DistinctIff(events: seq<Event>)
    ensures DistinctRuns(Runs(events)) <==> RegisteredOnce(events)
  {
    hide RegisteredOnce, DistinctRuns, Runs;
    if events == [] {
      NothingRegistered(events);
    } else {
      var front, last := events[..|events| - 1], events[|events| - 1];
      assert events == front + [last];
      DistinctIff(front);
      OnceMore(front, last);
      DistinctMore(front, last);
      RunsMembers(front);
    }
  }

  lemma NothingRegistered(events: seq<Event>)
    requires events == []
    ensures RegisteredOnce(events) && DistinctRuns(Runs(events))
  {
  }

  lemma OnceMore(front: seq<Event>, last: Event)
    ensures RegisteredOnce(front + [last]) <==>
              RegisteredOnce(front) && (last.payload.RunPayload? ==>
                forall e | e in front && e.payload.RunPayload? :: e.payload.run != last.payload.run)
  {
    var events := front + [last];
    if RegisteredOnce(events) && last.payload.RunPayload? {
      forall e | e in front && e.payload.RunPayload?
        ensures e.payload.run != last.payload.run
      {
        var i :| 0 <= i < |front| && front[i] == e;
        assert events[i] == e && events[|front|] == last;
      }
    }
    assert RegisteredOnce(events) ==> forall i | 0 <= i < |front| :: events[i] == front[i];
  }

  lemma DistinctMore(front: seq<Event>, last: Event)
    ensures DistinctRuns(Runs(front + [last])) <==>
              DistinctRuns(Runs(front)) && (last.payload.RunPayload? ==>
                forall p | p in Runs(front) :: p.run != last.payload.run)
  {
    hide DistinctRuns;
    assert (front + [last])[..|front|] == front;
    assert Runs(front) + [] == Runs(front);
    DistinctRunsMore(Runs(front), last.payload);
  }

  lemma DistinctRunsMore(runs: seq<Payload>, p: Payload)
    ensures DistinctRuns(runs + [p]) <==> DistinctRuns(runs) && forall q | q in runs :: q.run != p.run
  {
    var all := runs + [p];
    assert forall i | 0 <= i < |runs| :: all[i] == runs[i];
    assert all[|runs|] == p;
    if DistinctRuns(all) {
      forall q | q in runs
        ensures q.run != p.run
      {
        var i :| 0 <= i < |runs| && runs[i] == q;
        assert all[i].run != all[|runs|].run;
      }
    }
  }

  lemma OrphansIff(events: seq<Event>)
    ensures NoOrphan(events, Runs(events)) <==> AllRegistered(events)
  {
    hide Runs, Registered;
    forall e | e in events
      ensures Registered(events, e.payload.run) <==> exists p | p in Runs(events) :: p.run == e.payload.run
    {
      RegisteredIff(events, e.payload.run);
    }
  }

  lemma RegisteredIff(events: seq<Event>, run: string)
    ensures Registered(events, run) <==> exists p | p in Runs(events) :: p.run == run
  {
    hide Runs;
    RunsMembers(events);
    if f :| f in events && f.payload.RunPayload? && f.payload.run == run {
      assert f.payload in Runs(events);
    }
    if p :| p in Runs(events) && p.run == run {
      var e :| e in events && e.payload == p;
      assert e.payload.RunPayload?;
    }
  }

  /** `research_evidence`: no run is registered twice, every event belongs to one, and each is summarised. */
  method ReadAll(events: seq<Event>) returns (r: Result<seq<Summary>, IntegrityError>)
    ensures r.Ok? <==> RegisteredOnce(events) && AllRegistered(events) && AllConsistent(events, Runs(events))
    ensures r == Err(DuplicateRun) <==> !RegisteredOnce(events)
    ensures r == Err(OrphanEvidence) <==> RegisteredOnce(events) && !AllRegistered(events)
    ensures r.Ok? ==>
              && |r.value| == |Runs(events)|
              && forall i | 0 <= i < |r.value| ::
                   && Summarises(Of(events, Runs(events)[i].run), r.value[i])
                   && forall run | OneRun(Of(events, Runs(events)[i].run), run) ::
                        Explained(Of(events, Runs(events)[i].run), r.value[i])
  {
    hide Consistent, Of, Summarises, OneRun, Explained;
    var runs := Runs(events);
    RunsMembers(events);
    DistinctIff(events);
    OrphansIff(events);
    hide RegisteredOnce, AllRegistered;
    if !DistinctRuns(runs) {
      return Err(DuplicateRun);
    }
    if !NoOrphan(events, runs) {
      return Err(OrphanEvidence);
    }
    hide DistinctRuns, NoOrphan, Runs;
    var summaries: seq<Summary> := [];
    for k := 0 to |runs|
      invariant |summaries| == k
      invariant forall i | 0 <= i < k :: Summarises(Of(events, runs[i].run), summaries[i])
      invariant forall i | 0 <= i < k ::
                  forall run | OneRun(Of(events, runs[i].run), run) :: Explained(Of(events, runs[i].run), summaries[i])
      invariant forall i | 0 <= i < k :: runs[i].RunPayload? && Consistent(runs[i].requested, Of(events, runs[i].run))
    {
      assert runs[k] in runs;
      var summary := RunSummary(runs[k].requested, Of(events, runs[k].run));
      if summary.Err? {
        return Err(summary.error);
      }
      summaries := summaries + [summary.value];
    }
    return Ok(summaries);
  }

  lemma NoOrphanWritten(events: seq<Event>)
    requires RegisteredFirst(events)
    ensures NoOrphan(events, Runs(events))
  {
    RunsMembers(events);
    forall e | e in events
      ensures exists p | p in Runs(events) :: p.run == e.payload.run
    {
      RunRegistered(events, e);
      var f :| f in events && f.payload.run == e.payload.run && f.payload.RunPayload?;
      assert f.payload in Runs(events);
    }
  }

  lemma AllRunsConsistent(g: Global)
    requires Inv(g)
    ensures AllConsistent(g.journal, Runs(g.journal))
  {
    hide Inv, Consistent, Runs, Of, HasAttempt;
    RunsMembers(g.journal);
    forall p | p in Runs(g.journal)
      ensures p.RunPayload? && Consistent(p.requested, Of(g.journal, p.run))
    {
      var e :| e in g.journal && e.payload == p;
      EventIn(g, e);
      RunsConsistent(g, p.run);
    }
  }

  /** For any interleaving of any number of runs with distinct ids, with failures, retries and lost
      writes anywhere: the reader finds the runs distinct, no orphan, and each run consistent, so it
      never refuses the journal, and each run's events have their own distinct ids, so every summary is
      explained by the events. */
  lemma WritersSatisfyReader(actions: seq<Action>)
    ensures var events := Execute(EMPTY, actions).journal;
            && DistinctRuns(Runs(events))
            && NoOrphan(events, Runs(events))
            && AllConsistent(events, Runs(events))
            && forall p | p in Runs(events) :: OneRun(Of(events, p.run), p.run)
  {
    hide OneRun, Inv, Execute, DistinctRuns, NoOrphan, AllConsistent, Runs, RegisteredFirst;
    var g := Execute(EMPTY, actions);
    ReachableInv(actions);
    InvParts(g);
    RunsDistinct(g.journal);
    NoOrphanWritten(g.journal);
    AllRunsConsistent(g);
    forall p | p in Runs(g.journal)
      ensures OneRun(Of(g.journal, p.run), p.run)
    {
      EachIsOneRun(g, p.run);
    }
  }

  lemma EachIsOneRun(g: Global, run: string)
    requires Inv(g)
    ensures OneRun(Of(g.journal, run), run)
  {
    hide Inv, Of, HasAttempt, InOrder, UniqueIds, Canonical;
    EventsFit(g, run);
  }
}
