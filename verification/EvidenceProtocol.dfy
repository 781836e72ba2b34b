/** The writers of the journal: research runs (runtime/evidence_session.py, driven by
    runtime/research_loop.py) and stand-alone evaluations (orchestration/evaluation_runner.py), any
    number of them, interleaved at single appends. */
module EvidenceProtocol {
  import opened Prelude
  import opened EvidenceStore

  /** What a run is doing: nothing, running an evaluator for an attempt, holding its result, on the way
      out after an integrity error, or done. `frozen` says that this evaluation wrote the manifest. */
  datatype Phase =
    | Idle
    | Running(attempt: string, frozen: bool, committed: bool)
    | Evaluated(attempt: string)
    | Failing
    | Closed

  /** A run finishes the generations from `first` on, `requested` of them, one after the other. A
      research run starts at one; a stand-alone evaluation has one generation of any number. */
  datatype Session = Session(first: nat, requested: nat, next: nat, phase: Phase)

  /** `owners` remembers which run drew which attempt id; ids are drawn fresh. */
  datatype Global = Global(journal: seq<Event>, sessions: map<string, Session>, owners: map<string, string>)

  const COMPLETED: string := "COMPLETED"

  datatype Action =
    | Open(run: string, requested: nat, first: nat, rest: string)
    | Begin(run: string, attempt: string)
    | FreezeManifest(run: string, comparisonKey: string, rest: string)
    | Commit(run: string, candidates: seq<Candidate>, rest: string)
    | RunnerReturns(run: string, rest: string)
    | RunnerRaises(run: string, rest: string)
    | RunnerRaisesIntegrity(run: string)
    | FinishGeneration(run: string, status: string)
    | Degrade(run: string, status: string)
    | FinishRun(run: string, status: string)
    | Abort(run: string, status: string)
    | WriteFails(run: string)

  /** The session of `run` moves to `then` if the append is accepted, and to `otherwise` if not. */
  function Write(g: Global, id: EventId, p: Payload, after: Session, otherwise: Session): Global {
    var r := Appended(g.journal, id, p);
    if r.Ok? then g.(journal := r.value, sessions := g.sessions[p.run := after])
    else g.(sessions := g.sessions[p.run := otherwise])
  }

  predicate Enabled(g: Global, a: Action) {
    if a.Open? then a.run != "" && a.run !in g.sessions && a.requested >= 1 && a.first >= 1
    else
      && a.run in g.sessions
      && var s := g.sessions[a.run];
         match a
         case Begin(_, attempt) => s.phase.Idle? && s.next < s.first + s.requested && attempt != ""
             && attempt !in g.owners
         case FreezeManifest(_, _, _) => s.phase.Running? && !s.phase.committed
         case Commit(_, _, _) => s.phase.Running? && s.phase.frozen && !s.phase.committed
         case RunnerReturns(_, _) => s.phase.Running?
         case RunnerRaises(_, _) => s.phase.Running?
         case RunnerRaisesIntegrity(_) => s.phase.Running?
         case FinishGeneration(_, _) => s.phase.Evaluated?
         case Degrade(_, _) => s.phase.Idle? && s.next < s.first + s.requested
         case FinishRun(_, _) => s.phase.Idle? && s.next == s.first + s.requested
         case Abort(_, status) => !s.phase.Closed? && !(COMPLETED <= status)
         case WriteFails(_) => !s.phase.Closed?
  }

  /** One atomic step; an action that is not enabled does nothing. */
  function Apply(g: Global, a: Action): Global {
    if !Enabled(g, a) then g else
    if a.Open? then
      var r := Appended(g.journal, RunId(a.run), RunPayload(a.run, a.requested, a.rest));
      if r.Err? then g
      else g.(journal := r.value, sessions := g.sessions[a.run := Session(a.first, a.requested, a.first, Idle)])
    else
      var s := g.sessions[a.run];
      var failing := s.(phase := Failing);
      match a
      case Begin(run, attempt) =>
        g.(sessions := g.sessions[run := s.(phase := Running(attempt, false, false))],
            owners := g.owners[attempt := run])
      case FreezeManifest(run, key, rest) =>
        Write(g, ManifestId(run), ManifestPayload(run, key, rest), s.(phase := s.phase.(frozen := true)), failing)
      case Commit(run, candidates, rest) =>
        Write(g, AttemptId(s.phase.attempt), AttemptPayload(run, s.phase.attempt, s.next, COMPLETED, candidates, rest),
              s.(phase := s.phase.(committed := true)), failing)
      case RunnerReturns(run, rest) =>
        // The session looks the attempt up, and writes it without candidates if the runner did not.
        if exists e :: e in g.journal && e.id == AttemptId(s.phase.attempt) then
          g.(sessions := g.sessions[run := s.(phase := Evaluated(s.phase.attempt))])
        else
          Write(g, AttemptId(s.phase.attempt), AttemptPayload(run, s.phase.attempt, s.next, COMPLETED, [], rest),
                s.(phase := Evaluated(s.phase.attempt)), failing)
      case RunnerRaises(run, rest) =>
        Write(g, AttemptId(s.phase.attempt), AttemptPayload(run, s.phase.attempt, s.next, "FAILED", [], rest),
              s.(phase := Idle), failing)
      case RunnerRaisesIntegrity(run) => g.(sessions := g.sessions[run := failing])
      case FinishGeneration(run, status) =>
        Write(g, GenerationId(run, s.next), GenerationPayload(run, s.next, status, Some(s.phase.attempt)),
              s.(next := s.next + 1, phase := Idle), failing)
      case Degrade(run, status) =>
        Write(g, GenerationId(run, s.next), GenerationPayload(run, s.next, status, None),
              s.(next := s.next + 1, phase := Idle), failing)
      case FinishRun(run, status) =>
        Write(g, EndId(run), EndPayload(run, status), s.(phase := Closed), s.(phase := Closed))
      case Abort(run, status) =>
        Write(g, EndId(run), EndPayload(run, status), s.(phase := Closed), s.(phase := Closed))
      case WriteFails(run) => g.(sessions := g.sessions[run := failing])
  }

  const EMPTY: Global := Global([], map[], map[])

  function Execute(g: Global, actions: seq<Action>): Global {
    if actions == [] then g else Apply(Execute(g, actions[..|actions| - 1]), actions[|actions| - 1])
  }

  // ----- The invariant

  predicate Canonical(e: Event) {
    match e.payload
    case RunPayload(run, _, _) => e.id == RunId(run)
    case ManifestPayload(run, _, _) => e.id == ManifestId(run)
    case AttemptPayload(_, attempt, _, _, _, _) => e.id == AttemptId(attempt)
    case GenerationPayload(run, generation, _, _) => e.id == GenerationId(run, generation)
    case EndPayload(run, _) => e.id == EndId(run)
  }

  /** A completed attempt of this run and generation is in the journal. */
  ghost predicate HasAttempt(journal: seq<Event>, run: string, attempt: string, generation: int) {
    exists e :: e in journal && e.id == AttemptId(attempt) && e.payload.AttemptPayload? && e.payload.run == run
                && e.payload.generation == generation && e.payload.status == COMPLETED
  }

  ghost predicate HasId(journal: seq<Event>, id: EventId) {
    exists e :: e in journal && e.id == id
  }

  ghost predicate HasManifest(journal: seq<Event>, run: string) {
    exists e :: e in journal && e.payload.run == run && e.payload.ManifestPayload?
  }

  ghost predicate EventFits(e: Event, g: Global) {
    && Canonical(e)
    && e.payload.run in g.sessions
    && var s := g.sessions[e.payload.run];
       match e.payload
       case RunPayload(_, requested, _) => requested == s.requested
       case ManifestPayload(_, _, _) => true
       case AttemptPayload(run, attempt, _, _, _, _) => attempt in g.owners && g.owners[attempt] == run
       case GenerationPayload(run, generation, _, chosen) =>
         && s.first <= generation < s.next
         && (chosen.Some? ==> HasAttempt(g.journal, run, chosen.value, generation))
       case EndPayload(_, status) => s.phase.Closed? && (COMPLETED <= status ==> s.next == s.first + s.requested)
  }

  ghost predicate PhaseFits(run: string, s: Session, g: Global) {
    match s.phase
    case Running(attempt, frozen, committed) =>
      && s.next < s.first + s.requested
      && attempt in g.owners && g.owners[attempt] == run
      && (committed <==> HasId(g.journal, AttemptId(attempt)))
      && (committed ==> HasAttempt(g.journal, run, attempt, s.next))
      && (frozen ==> HasManifest(g.journal, run))
    case Evaluated(attempt) => s.next < s.first + s.requested && HasAttempt(g.journal, run, attempt, s.next)
    case _ => true
  }

  ghost predicate SessionFits(run: string, s: Session, g: Global) {
    && 1 <= s.first <= s.next <= s.first + s.requested
    && HasId(g.journal, RunId(run))
    && (forall k | s.first <= k < s.next :: HasId(g.journal, GenerationId(run, k)))
    && PhaseFits(run, s, g)
  }

  /** Attempts with candidates come after the manifest of their run. */
  ghost predicate ManifestFirst(journal: seq<Event>) {
    forall i | 0 <= i < |journal| && journal[i].payload.AttemptPayload? && journal[i].payload.candidates != [] ::
      HasManifest(journal[..i], journal[i].payload.run)
  }

  ghost predicate Inv(g: Global) {
    && Orderly(g.journal)
    && ManifestFirst(g.journal)
    && (forall e | e in g.journal :: EventFits(e, g))
    && (forall run | run in g.sessions :: SessionFits(run, g.sessions[run], g))
  }

  lemma ManifestFirstSnoc(journal: seq<Event>, e: Event)
    requires ManifestFirst(journal)
    requires e.payload.AttemptPayload? && e.payload.candidates != [] ==> HasManifest(journal, e.payload.run)
    ensures ManifestFirst(journal + [e])
  {
    var after := journal + [e];
    forall i | 0 <= i < |after| && after[i].payload.AttemptPayload? && after[i].payload.candidates != []
      ensures HasManifest(after[..i], after[i].payload.run)
    {
      assert after[..i] == journal[..i];
      assert journal[..|journal|] == journal;
    }
  }

  /** A run whose session is not closed has no end in the journal, and an attempt id has its owner. */
  lemma OpenRun(g: Global, run: string)
    requires Inv(g) && run in g.sessions && !g.sessions[run].phase.Closed?
    ensures !exists e :: e in g.journal && e.payload.run == run && e.payload.EndPayload?
  {
    forall e | e in g.journal && e.payload.run == run
      ensures !e.payload.EndPayload?
    {
      assert EventFits(e, g);
    }
  }

  lemma AttemptStays(j: seq<Event>, k: seq<Event>, run: string, attempt: string, generation: int)
    requires j <= k && HasAttempt(j, run, attempt, generation)
    ensures HasAttempt(k, run, attempt, generation)
  {
    assert forall e | e in j :: e in k;
  }

  lemma IdStays(j: seq<Event>, k: seq<Event>, id: EventId)
    requires j <= k && HasId(j, id)
    ensures HasId(k, id)
  {
    assert forall e | e in j :: e in k;
  }

  lemma ManifestStays(j: seq<Event>, k: seq<Event>, run: string)
    requires j <= k && HasManifest(j, run)
    ensures HasManifest(k, run)
  {
    assert forall e | e in j :: e in k;
  }

  /** The journal has grown by at most one event of `run`; the sessions of the other runs, and the
      owners, are the same. */
  ghost predicate OneStep(g: Global, h: Global, run: string, e: Event) {
    && (h.journal == g.journal || h.journal == g.journal + [e])
    && e.payload.run == run && Canonical(e)
    && (e.payload.AttemptPayload? ==> e.payload.attempt in g.owners && g.owners[e.payload.attempt] == run)
    && h.owners == g.owners
    && h.sessions.Keys == g.sessions.Keys + {run}
    && (forall r | r in g.sessions && r != run :: h.sessions[r] == g.sessions[r])
  }

  lemma OtherEventStays(g: Global, h: Global, run: string, e: Event, f: Event)
    requires OneStep(g, h, run, e) && EventFits(f, g) && f.payload.run != run
    ensures EventFits(f, h)
  {
    hide HasAttempt;
    if f.payload.GenerationPayload? && f.payload.chosen.Some? {
      AttemptStays(g.journal, h.journal, f.payload.run, f.payload.chosen.value, f.payload.generation);
    }
  }

  lemma OtherPhaseStays(g: Global, h: Global, run: string, e: Event, r: string, s: Session)
    requires OneStep(g, h, run, e) && r != run && PhaseFits(r, s, g)
    ensures PhaseFits(r, s, h)
  {
    hide HasAttempt, HasManifest;
    match s.phase
    case Running(attempt, frozen, committed) =>
      if committed {
        AttemptStays(g.journal, h.journal, r, attempt, s.next);
        IdStays(g.journal, h.journal, AttemptId(attempt));
      } else {
        assert e.id != AttemptId(attempt);
      }
      if frozen {
        ManifestStays(g.journal, h.journal, r);
      }
    case Evaluated(attempt) => AttemptStays(g.journal, h.journal, r, attempt, s.next);
    case _ =>
  }

  lemma OtherSessionStays(g: Global, h: Global, run: string, e: Event, r: string, s: Session)
    requires OneStep(g, h, run, e) && r != run && SessionFits(r, s, g)
    ensures SessionFits(r, s, h)
  {
    hide HasId, PhaseFits;
    OtherPhaseStays(g, h, run, e, r, s);
    IdStays(g.journal, h.journal, RunId(r));
    forall k | s.first <= k < s.next
      ensures HasId(h.journal, GenerationId(r, k))
    {
      IdStays(g.journal, h.journal, GenerationId(r, k));
    }
  }

  /** An event of the run itself stays in place when its session moves on. */
  lemma OwnEventStays(g: Global, h: Global, run: string, e: Event, f: Event)
    requires OneStep(g, h, run, e) && EventFits(f, g) && f.payload.run == run
    requires run in g.sessions && !g.sessions[run].phase.Closed?
    requires h.sessions[run].first == g.sessions[run].first && h.sessions[run].requested == g.sessions[run].requested
    requires h.sessions[run].next >= g.sessions[run].next
    ensures EventFits(f, h)
  {
    hide HasAttempt;
    if f.payload.GenerationPayload? && f.payload.chosen.Some? {
      AttemptStays(g.journal, h.journal, run, f.payload.chosen.value, f.payload.generation);
    }
  }

  /** To keep the invariant, a step of one run has to place its new event and fit its new session. */
  lemma StepKeepsInv(g: Global, h: Global, run: string, e: Event)
    requires Inv(g) && OneStep(g, h, run, e) && Orderly(h.journal) && ManifestFirst(h.journal)
    requires run in g.sessions ==>
               && !g.sessions[run].phase.Closed?
               && h.sessions[run].first == g.sessions[run].first
                   && h.sessions[run].requested == g.sessions[run].requested
               && h.sessions[run].next >= g.sessions[run].next
    requires h.journal != g.journal ==> EventFits(e, h)
    requires SessionFits(run, h.sessions[run], h)
    ensures Inv(h)
  {
    hide SessionFits, EventFits, Orderly, ManifestFirst, Canonical;
    forall f | f in h.journal
      ensures EventFits(f, h)
    {
      if f in g.journal {
        EventRunKnown(f, g);
        if f.payload.run == run {
          OwnEventStays(g, h, run, e, f);
        } else {
          OtherEventStays(g, h, run, e, f);
        }
      }
    }
    forall r | r in h.sessions
      ensures SessionFits(r, h.sessions[r], h)
    {
      if r != run {
        OtherSessionStays(g, h, run, e, r, g.sessions[r]);
      }
    }
  }

  lemma EventRunKnown(f: Event, g: Global)
    requires EventFits(f, g)
    ensures f.payload.run in g.sessions
  {
  }

  /** The two ways that a write can end, for any open session. */
  lemma WriteKeepsInv(g: Global, id: EventId, p: Payload, after: Session, otherwise: Session)
    requires Inv(g) && p.run in g.sessions && !g.sessions[p.run].phase.Closed?
    requires Canonical(Event(id, p)) && !p.RunPayload?
    requires p.AttemptPayload? ==> p.attempt in g.owners && g.owners[p.attempt] == p.run
    requires p.AttemptPayload? && p.candidates != [] ==> HasManifest(g.journal, p.run)
    requires var s := g.sessions[p.run];
             && after.first == s.first && after.requested == s.requested && after.next >= s.next
             && otherwise == s.(phase := otherwise.phase)
    requires otherwise.phase.Failing? || otherwise.phase.Closed?
    requires Appended(g.journal, id, p).Ok? ==>
               var h := Write(g, id, p, after, otherwise);
               EventFits(Event(id, p), h) && SessionFits(p.run, after, h)
    ensures Inv(Write(g, id, p, after, otherwise))
  {
    hide EventFits, Orderly, ManifestFirst, HasManifest, HasId;
    var e := Event(id, p);
    var h := Write(g, id, p, after, otherwise);
    var r := Appended(g.journal, id, p);
    AppendKeepsOrder(g.journal, id, p);
    AppendedShape(g.journal, id, p);
    if r.Ok? && r.value != g.journal {
      ManifestFirstSnoc(g.journal, e);
    }
    assert SessionFits(p.run, g.sessions[p.run], g);
    StepKeepsInv(g, h, p.run, e);
  }

  lemma AppendedShape(events: seq<Event>, id: EventId, p: Payload)
    ensures Appended(events, id, p).Ok? ==>
              var after := Appended(events, id, p).value;
              && Event(id, p) in after
              && (after == events || after == events + [Event(id, p)])
  {
  }

  // ----- Every action keeps the invariant

  lemma SessionIn(g: Global, run: string)
    requires Inv(g) && run in g.sessions
    ensures SessionFits(run, g.sessions[run], g)
  {
  }

  lemma EventIn(g: Global, e: Event)
    requires Inv(g) && e in g.journal
    ensures EventFits(e, g)
  {
  }

  /** What a journal has by having an event. */
  lemma Recorded(journal: seq<Event>, e: Event)
    requires e in journal
    ensures HasId(journal, e.id)
    ensures e.payload.ManifestPayload? ==> HasManifest(journal, e.payload.run)
    ensures e.payload.AttemptPayload? && e.payload.status == COMPLETED && e.id == AttemptId(e.payload.attempt) ==>
              HasAttempt(journal, e.payload.run, e.payload.attempt, e.payload.generation)
  {
  }

  /** What a session relies on in a journal besides its phase stays there. */
  lemma BasicsStay(run: string, s: Session, g: Global, journal: seq<Event>)
    requires SessionFits(run, s, g) && g.journal <= journal
    ensures HasId(journal, RunId(run)) && forall k | s.first <= k < s.next :: HasId(journal, GenerationId(run, k))
  {
    hide HasId, PhaseFits;
    IdStays(g.journal, journal, RunId(run));
    forall k | s.first <= k < s.next
      ensures HasId(journal, GenerationId(run, k))
    {
      IdStays(g.journal, journal, GenerationId(run, k));
    }
  }

  /** A step that leaves the journal alone and moves one session. */
  lemma MoveKeepsInv(g: Global, run: string, s: Session)
    requires Inv(g) && run in g.sessions && !g.sessions[run].phase.Closed?
    requires s == g.sessions[run].(phase := s.phase) && PhaseFits(run, s, g)
    ensures Inv(g.(sessions := g.sessions[run := s]))
  {
    hide Orderly, ManifestFirst, HasId, HasAttempt, HasManifest;
    SessionIn(g, run);
    StepKeepsInv(g, g.(sessions := g.sessions[run := s]), run, Event(EndId(run), EndPayload(run, "")));
  }

  lemma InvParts(g: Global)
    requires Inv(g)
    ensures Orderly(g.journal) && ManifestFirst(g.journal)
  {
  }

  lemma OpenKeepsInv(g: Global, a: Action)
    requires Inv(g) && a.Open? && Enabled(g, a)
    ensures Inv(Apply(g, a))
  {
    hide Inv, Orderly, ManifestFirst, Appended, HasId;
    var p := RunPayload(a.run, a.requested, a.rest);
    var e := Event(RunId(a.run), p);
    var h := Apply(g, a);
    InvParts(g);
    AppendKeepsOrder(g.journal, e.id, p);
    AppendedShape(g.journal, e.id, p);
    if Appended(g.journal, e.id, p).Ok? {
      ManifestFirstSnoc(g.journal, e);
      Recorded(h.journal, e);
      StepKeepsInv(g, h, a.run, e);
    }
  }

  lemma BeginKeepsInv(g: Global, a: Action)
    requires Inv(g) && a.Begin? && Enabled(g, a)
    ensures Inv(Apply(g, a))
  {
    hide Orderly, ManifestFirst, HasAttempt, HasManifest, HasId, EventFits, SessionFits;
    var h := Apply(g, a);
    forall e | e in g.journal
      ensures EventFits(e, h)
    {
      EventOwner(g, h, a.run, a.attempt, e);
    }
    forall r | r in h.sessions
      ensures SessionFits(r, h.sessions[r], h)
    {
      SessionOwner(g, h, a.run, a.attempt, r);
    }
  }

  /** Drawing a fresh attempt id changes nothing for the events so far, none of which carries it. */
  lemma EventOwner(g: Global, h: Global, run: string, attempt: string, e: Event)
    requires EventFits(e, g) && attempt !in g.owners && run in g.sessions && g.sessions[run].phase.Idle?
    requires h == Apply(g, Begin(run, attempt))
    ensures EventFits(e, h) && e.id != AttemptId(attempt)
  {
    hide HasAttempt;
  }

  lemma SessionOwner(g: Global, h: Global, run: string, attempt: string, r: string)
    requires Inv(g) && Enabled(g, Begin(run, attempt)) && h == Apply(g, Begin(run, attempt)) && r in h.sessions
    ensures SessionFits(r, h.sessions[r], h)
  {
    hide Inv, HasAttempt, HasManifest, EventFits;
    SessionIn(g, r);
    if r == run {
      forall e | e in g.journal
        ensures e.id != AttemptId(attempt)
      {
        EventIn(g, e);
        EventOwner(g, h, run, attempt, e);
      }
    }
  }

  lemma FreezeKeepsInv(g: Global, a: Action)
    requires Inv(g) && a.FreezeManifest? && Enabled(g, a)
    ensures Inv(Apply(g, a))
  {
    hide Inv, Appended, HasId, HasAttempt, HasManifest;
    var run, s := a.run, g.sessions[a.run];
    var id, p := ManifestId(run), ManifestPayload(run, a.comparisonKey, a.rest);
    var after := s.(phase := s.phase.(frozen := true));
    var h := Write(g, id, p, after, s.(phase := Failing));
    SessionIn(g, run);
    AppendedShape(g.journal, id, p);
    if Appended(g.journal, id, p).Ok? {
      BasicsStay(run, s, g, h.journal);
      NoIdYet(g.journal, h.journal, Event(id, p), AttemptId(s.phase.attempt));
      Recorded(h.journal, Event(id, p));
    }
    WriteKeepsInv(g, id, p, after, s.(phase := Failing));
  }

  lemma NoIdYet(j: seq<Event>, k: seq<Event>, e: Event, id: EventId)
    requires (k == j || k == j + [e]) && e.id != id
    ensures HasId(k, id) <==> HasId(j, id)
  {
    assert forall f | f in j :: f in k;
  }

  lemma CommitKeepsInv(g: Global, a: Action)
    requires Inv(g) && a.Commit? && Enabled(g, a)
    ensures Inv(Apply(g, a))
  {
    hide Inv, Appended, HasId, HasAttempt, HasManifest;
    var run, s := a.run, g.sessions[a.run];
    var id, p := AttemptId(s.phase.attempt), AttemptPayload(run, s.phase.attempt, s.next, COMPLETED, a.candidates,
        a.rest);
    var after := s.(phase := s.phase.(committed := true));
    var h := Write(g, id, p, after, s.(phase := Failing));
    SessionIn(g, run);
    AppendedShape(g.journal, id, p);
    if Appended(g.journal, id, p).Ok? {
      BasicsStay(run, s, g, h.journal);
      ManifestStays(g.journal, h.journal, run);
      Recorded(h.journal, Event(id, p));
    }
    WriteKeepsInv(g, id, p, after, s.(phase := Failing));
  }

  lemma ReturnsKeepsInv(g: Global, a: Action)
    requires Inv(g) && a.RunnerReturns? && Enabled(g, a)
    ensures Inv(Apply(g, a))
  {
    hide Inv, Appended, HasAttempt, HasManifest;
    var run, s := a.run, g.sessions[a.run];
    var attempt := s.phase.attempt;
    var after := s.(phase := Evaluated(attempt));
    SessionIn(g, run);
    if HasId(g.journal, AttemptId(attempt)) {
      MoveKeepsInv(g, run, after);
    } else {
      UnverifiedKeepsInv(g, run, a.rest);
    }
  }

  /** The session writes the attempt itself. */
  lemma UnverifiedKeepsInv(g: Global, run: string, rest: string)
    requires Inv(g) && run in g.sessions && g.sessions[run].phase.Running?
    ensures var s := g.sessions[run];
            var attempt := s.phase.attempt;
            Inv(Write(g, AttemptId(attempt), AttemptPayload(run, attempt, s.next, COMPLETED, [], rest),
                      s.(phase := Evaluated(attempt)), s.(phase := Failing)))
  {
    hide Inv, Appended, HasId, HasAttempt, HasManifest;
    var s := g.sessions[run];
    var id, p := AttemptId(s.phase.attempt), AttemptPayload(run, s.phase.attempt, s.next, COMPLETED, [], rest);
    var after := s.(phase := Evaluated(s.phase.attempt));
    var h := Write(g, id, p, after, s.(phase := Failing));
    SessionIn(g, run);
    AppendedShape(g.journal, id, p);
    if Appended(g.journal, id, p).Ok? {
      BasicsStay(run, s, g, h.journal);
      Recorded(h.journal, Event(id, p));
    }
    WriteKeepsInv(g, id, p, after, s.(phase := Failing));
  }

  lemma RaisesKeepsInv(g: Global, a: Action)
    requires Inv(g) && a.RunnerRaises? && Enabled(g, a)
    ensures Inv(Apply(g, a))
  {
    hide Inv, Appended, HasId, HasAttempt, HasManifest;
    var run, s := a.run, g.sessions[a.run];
    var id, p := AttemptId(s.phase.attempt), AttemptPayload(run, s.phase.attempt, s.next, "FAILED", [], a.rest);
    var after := s.(phase := Idle);
    var h := Write(g, id, p, after, s.(phase := Failing));
    SessionIn(g, run);
    AppendedShape(g.journal, id, p);
    if Appended(g.journal, id, p).Ok? {
      BasicsStay(run, s, g, h.journal);
    }
    WriteKeepsInv(g, id, p, after, s.(phase := Failing));
  }

  /** A generation is finished with an evaluated attempt, or without one. */
  lemma FinishKeepsInv(g: Global, run: string, status: string, chosen: Option<string>)
    requires Inv(g) && run in g.sessions && !g.sessions[run].phase.Closed?
    requires g.sessions[run].next < g.sessions[run].first + g.sessions[run].requested
    requires chosen.Some? ==> HasAttempt(g.journal, run, chosen.value, g.sessions[run].next)
    ensures var s := g.sessions[run];
            Inv(Write(g, GenerationId(run, s.next), GenerationPayload(run, s.next, status, chosen),
                      s.(next := s.next + 1, phase := Idle), s.(phase := Failing)))
  {
    hide Inv, Appended, HasId, HasAttempt, HasManifest;
    var s := g.sessions[run];
    var id, p := GenerationId(run, s.next), GenerationPayload(run, s.next, status, chosen);
    var after := s.(next := s.next + 1, phase := Idle);
    var h := Write(g, id, p, after, s.(phase := Failing));
    SessionIn(g, run);
    AppendedShape(g.journal, id, p);
    if Appended(g.journal, id, p).Ok? {
      BasicsStay(run, s, g, h.journal);
      Recorded(h.journal, Event(id, p));
      if chosen.Some? {
        AttemptStays(g.journal, h.journal, run, chosen.value, s.next);
      }
    }
    WriteKeepsInv(g, id, p, after, s.(phase := Failing));
  }

  /** A run ends completed only after all its generations. */
  lemma EndKeepsInv(g: Global, run: string, status: string)
    requires Inv(g) && run in g.sessions && !g.sessions[run].phase.Closed?
    requires COMPLETED <= status ==> g.sessions[run].next == g.sessions[run].first + g.sessions[run].requested
    ensures var s := g.sessions[run].(phase := Closed); Inv(Write(g, EndId(run), EndPayload(run, status), s, s))
  {
    hide Inv, Appended, HasId, HasAttempt, HasManifest;
    var s := g.sessions[run];
    var id, p, after := EndId(run), EndPayload(run, status), s.(phase := Closed);
    var h := Write(g, id, p, after, after);
    SessionIn(g, run);
    AppendedShape(g.journal, id, p);
    if Appended(g.journal, id, p).Ok? {
      BasicsStay(run, s, g, h.journal);
    }
    WriteKeepsInv(g, id, p, after, after);
  }

  lemma ApplyKeepsInv(g: Global, a: Action)
    requires Inv(g)
    ensures Inv(Apply(g, a))
  {
    hide Inv, Write, Appended, HasId, HasAttempt, HasManifest;
    if Enabled(g, a) {
      match a
      case Open(_, _, _, _) => OpenKeepsInv(g, a);
      case Begin(_, _) => BeginKeepsInv(g, a);
      case FreezeManifest(_, _, _) => FreezeKeepsInv(g, a);
      case Commit(_, _, _) => CommitKeepsInv(g, a);
      case RunnerReturns(_, _) => ReturnsKeepsInv(g, a);
      case RunnerRaises(_, _) => RaisesKeepsInv(g, a);
      case RunnerRaisesIntegrity(run) => MoveKeepsInv(g, run, g.sessions[run].(phase := Failing));
      case FinishGeneration(run, status) =>
        SessionIn(g, run);
        FinishKeepsInv(g, run, status, Some(g.sessions[run].phase.attempt));
      case Degrade(run, status) => FinishKeepsInv(g, run, status, None);
      case FinishRun(run, status) => EndKeepsInv(g, run, status);
      case Abort(run, status) => EndKeepsInv(g, run, status);
      case WriteFails(run) => MoveKeepsInv(g, run, g.sessions[run].(phase := Failing));
    }
  }

  /** Whatever the runs do, in whatever interleaving, the invariant holds. */
  lemma {:induction false} ReachableInv(actions: seq<Action>)
    ensures Inv(Execute(EMPTY, actions))
  {
    hide Apply, Inv;
    if actions == [] {
      EmptyInv();
    } else {
      ReachableInv(actions[..|actions| - 1]);
      ApplyKeepsInv(Execute(EMPTY, actions[..|actions| - 1]), actions[|actions| - 1]);
    }
  }

  lemma EmptyInv()
    ensures Inv(EMPTY)
  {
  }

  /** A runner that fails after its attempt is in the journal does not overwrite it: the failed attempt
      is refused as a conflict, the journal is as before, and the run goes on to fail. */
  lemma CommittedAttemptStands(g: Global, run: string, rest: string)
    requires Inv(g) && run in g.sessions && g.sessions[run].phase.Running? && g.sessions[run].phase.committed
    ensures Apply(g, RunnerRaises(run, rest)) == g.(sessions := g.sessions[run := g.sessions[run].(phase := Failing)])
    ensures var s := g.sessions[run];
            Appended(g.journal, AttemptId(s.phase.attempt), AttemptPayload(run, s.phase.attempt, s.next, "FAILED", [],
                rest))
            == Err(IdentityConflict)
  {
    hide Inv, HasManifest;
    var s := g.sessions[run];
    SessionIn(g, run);
    var p := AttemptPayload(run, s.phase.attempt, s.next, "FAILED", [], rest);
    var e :| e in g.journal && e.id == AttemptId(s.phase.attempt) && e.payload.AttemptPayload?
        && e.payload.status == COMPLETED;
    InvParts(g);
    OtherPayloadConflicts(g.journal, e, p);
  }

  /** An id that is taken by another payload is refused. */
  lemma OtherPayloadConflicts(events: seq<Event>, e: Event, p: Payload)
    requires Orderly(events) && e in events && e.payload != p && e.id != OtherId("")
    ensures Appended(events, e.id, p) == Err(IdentityConflict)
  {
    hide RegisteredFirst, InOrder;
  }
}
