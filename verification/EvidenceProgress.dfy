/** When the store refuses a write of the protocol: exactly when a runner brings a manifest other than
    the one frozen for its run, or fails after its attempt has been committed. */
module EvidenceProgress {
  import opened Prelude
  import opened EvidenceStore
  import opened EvidenceProtocol

  /** An event is known by its id. */
  lemma ByItsId(g: Global, e: Event)
    requires Inv(g) && e in g.journal
    ensures match e.id
            case RunId(run) => e.payload.RunPayload? && e.payload.run == run
            case ManifestId(run) => e.payload.ManifestPayload? && e.payload.run == run
            case AttemptId(attempt) => e.payload.AttemptPayload? && e.payload.attempt == attempt
            case GenerationId(run, generation) =>
              e.payload.GenerationPayload? && e.payload.run == run && e.payload.generation == generation
            case EndId(run) => e.payload.EndPayload? && e.payload.run == run
            case OtherId(_) => false
  {
    hide Inv, HasAttempt;
    EventIn(g, e);
  }

  /** A run of the protocol is registered, under a name that is not empty. */
  lemma Registered(g: Global, run: string)
    requires Inv(g) && run in g.sessions
    ensures run != "" && exists e :: e in g.journal && e.payload.run == run && e.payload.RunPayload?
  {
    hide Inv, PhaseFits;
    SessionIn(g, run);
    var e :| e in g.journal && e.id == RunId(run);
    ByItsId(g, e);
    InvParts(g);
    ValidIn(g.journal, e);
  }

  lemma ValidIn(events: seq<Event>, e: Event)
    requires Orderly(events) && e in events
    ensures ValidPayload(e.payload)
  {
    hide UniqueIds, RegisteredFirst, ValidPayload;
  }

  /** A new event of an open run is accepted, unless it is a second manifest. */
  lemma NewAccepted(g: Global, id: EventId, p: Payload)
    requires Inv(g) && p.run in g.sessions && !g.sessions[p.run].phase.Closed?
    requires !HasId(g.journal, id) && !id.OtherId? && ValidPayload(p) && !p.RunPayload?
    ensures Appended(g.journal, id, p).Ok? <==> !(p.ManifestPayload? && HasManifest(g.journal, p.run))
  {
    hide Inv, ValidPayload;
    Registered(g, p.run);
    OpenRun(g, p.run);
  }

  lemma EndAccepted(g: Global, run: string, status: string)
    requires Inv(g) && run in g.sessions && !g.sessions[run].phase.Closed?
    ensures Appended(g.journal, EndId(run), EndPayload(run, status)).Ok?
  {
    hide Inv, Appended;
    Registered(g, run);
    OpenRun(g, run);
    if e :| e in g.journal && e.id == EndId(run) {
      ByItsId(g, e);
    }
    NewAccepted(g, EndId(run), EndPayload(run, status));
  }

  lemma GenerationAccepted(g: Global, run: string, status: string, chosen: Option<string>)
    requires Inv(g) && run in g.sessions && !g.sessions[run].phase.Closed?
    ensures var n := g.sessions[run].next; Appended(g.journal, GenerationId(run, n),
            GenerationPayload(run, n, status, chosen)).Ok?
  {
    hide Inv, Appended, HasAttempt, PhaseFits;
    var n := g.sessions[run].next;
    Registered(g, run);
    SessionIn(g, run);
    if e :| e in g.journal && e.id == GenerationId(run, n) {
      ByItsId(g, e);
      EventIn(g, e);
    }
    NewAccepted(g, GenerationId(run, n), GenerationPayload(run, n, status, chosen));
  }

  /** An attempt that the runner has not committed is accepted. */
  lemma AttemptAccepted(g: Global, run: string, status: string, candidates: seq<Candidate>, rest: string)
    requires Inv(g) && run in g.sessions && g.sessions[run].phase.Running? && !g.sessions[run].phase.committed
    ensures var s := g.sessions[run];
            Appended(g.journal, AttemptId(s.phase.attempt), AttemptPayload(run, s.phase.attempt, s.next, status,
                candidates, rest)).Ok?
  {
    hide Inv, Appended, HasAttempt, HasManifest;
    var s := g.sessions[run];
    Registered(g, run);
    SessionIn(g, run);
    NewAccepted(g, AttemptId(s.phase.attempt), AttemptPayload(run, s.phase.attempt, s.next, status, candidates, rest));
  }

  /** A manifest is accepted when there is none of the run yet, or when it is the same. */
  lemma ManifestAcceptedIff(g: Global, run: string, key: string, rest: string)
    requires Inv(g) && run in g.sessions && !g.sessions[run].phase.Closed?
    ensures Appended(g.journal, ManifestId(run), ManifestPayload(run, key, rest)).Ok?
            <==> forall e | e in g.journal && e.payload.run == run && e.payload.ManifestPayload? ::
                e.payload == ManifestPayload(run, key, rest)
  {
    hide Inv, HasAttempt;
    var p := ManifestPayload(run, key, rest);
    Registered(g, run);
    forall e | e in g.journal && (e.id == ManifestId(run) || (e.payload.ManifestPayload? && e.payload.run == run))
      ensures e.id == ManifestId(run) && e.payload.ManifestPayload? && e.payload.run == run
    {
      EventIn(g, e);
    }
    if e :| e in g.journal && e.id == ManifestId(run) {
      InvParts(g);
      SameId(g.journal, e, p);
    } else {
      NewAccepted(g, ManifestId(run), p);
    }
  }

  /** Repeating an event is accepted, and changing it is not. */
  lemma SameId(events: seq<Event>, e: Event, p: Payload)
    requires Orderly(events) && e in events && e.id != OtherId("")
    ensures Appended(events, e.id, p).Ok? <==> e.payload == p
  {
    hide RegisteredFirst, InOrder;
  }

  /** A run under a fresh name is registered. */
  lemma OpenAccepted(g: Global, run: string, requested: nat, rest: string)
    requires Inv(g) && run != "" && run !in g.sessions && requested >= 1
    ensures Appended(g.journal, RunId(run), RunPayload(run, requested, rest))
            == Ok(g.journal + [Event(RunId(run), RunPayload(run, requested, rest))])
  {
    hide Inv, HasAttempt, PhaseFits;
    forall e | e in g.journal
      ensures e.payload.run != run && e.id != RunId(run)
    {
      EventIn(g, e);
      ByItsId(g, e);
    }
  }

  /** What an enabled action writes, if it writes. */
  function Written(g: Global, a: Action): Option<Event>
    requires Enabled(g, a)
  {
    if a.Open? then Some(Event(RunId(a.run), RunPayload(a.run, a.requested, a.rest))) else
    var s := g.sessions[a.run];
    match a
    case FreezeManifest(run, key, rest) => Some(Event(ManifestId(run), ManifestPayload(run, key, rest)))
    case Commit(run, candidates, rest) =>
      Some(Event(AttemptId(s.phase.attempt), AttemptPayload(run, s.phase.attempt, s.next, COMPLETED, candidates, rest)))
    case RunnerReturns(run, rest) =>
      if s.phase.committed then None
      else Some(Event(AttemptId(s.phase.attempt), AttemptPayload(run, s.phase.attempt, s.next, COMPLETED, [], rest)))
    case RunnerRaises(run, rest) =>
      Some(Event(AttemptId(s.phase.attempt), AttemptPayload(run, s.phase.attempt, s.next, "FAILED", [], rest)))
    case FinishGeneration(run, status) =>
        Some(Event(GenerationId(run, s.next), GenerationPayload(run, s.next, status, Some(s.phase.attempt))))
    case Degrade(run, status) => Some(Event(GenerationId(run, s.next), GenerationPayload(run, s.next, status, None)))
    case FinishRun(run, status) => Some(Event(EndId(run), EndPayload(run, status)))
    case Abort(run, status) => Some(Event(EndId(run), EndPayload(run, status)))
    case _ => None
  }

  /** That is what the action does to the journal, and an action that writes nothing leaves it alone. */
  lemma WrittenIsApplied(g: Global, a: Action)
    requires Inv(g) && Enabled(g, a)
    ensures Apply(g, a).journal
         == match Written(g, a)
            case None => g.journal
            case Some(w) => if Appended(g.journal, w.id, w.payload).Ok? then Appended(g.journal, w.id, w.payload).value
                else g.journal
  {
    hide Inv, Appended, HasAttempt, HasManifest;
    if !a.Open? {
      SessionIn(g, a.run);
    }
  }

  /** In any reachable state, a write of the protocol is refused exactly when it is a manifest that
      differs from the one frozen for its run, or the failure of an attempt that has been committed. */
  lemma RefusedIff(g: Global, a: Action)
    requires Inv(g) && Enabled(g, a) && Written(g, a).Some?
    ensures var w := Written(g, a).value;
            Appended(g.journal, w.id, w.payload).Err? <==>
              || (a.FreezeManifest? && exists e ::
                  e in g.journal && e.payload.run == a.run && e.payload.ManifestPayload? && e.payload != w.payload)
              || (a.RunnerRaises? && g.sessions[a.run].phase.committed)
  {
    hide Inv, Appended;
    match a
    case Open(run, requested, first, rest) => OpenAccepted(g, run, requested, rest);
    case FreezeManifest(run, key, rest) => ManifestAcceptedIff(g, run, key, rest);
    case Commit(run, candidates, rest) => AttemptAccepted(g, run, COMPLETED, candidates, rest);
    case RunnerReturns(run, rest) => AttemptAccepted(g, run, COMPLETED, [], rest);
    case RunnerRaises(run, rest) =>
      if g.sessions[run].phase.committed {
        CommittedAttemptStands(g, run, rest);
      } else {
        AttemptAccepted(g, run, "FAILED", [], rest);
      }
    case FinishGeneration(run, status) => GenerationAccepted(g, run, status, Some(g.sessions[run].phase.attempt));
    case Degrade(run, status) => GenerationAccepted(g, run, status, None);
    case FinishRun(run, status) => EndAccepted(g, run, status);
    case Abort(run, status) => EndAccepted(g, run, status);
  }
}
