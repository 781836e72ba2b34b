/** A research run as the code performs it: the session object of runtime/evidence_session.py around a
    store, and the loop of `run_repeated_evaluation`. Each method extends a trace of the protocol, so
    that all that is proved of the protocol holds of the journals these methods leave. */
module EvidenceSession {
  import opened Prelude
  import opened EvidenceStore
  import opened EvidenceProtocol
  import opened EvidenceProgress

  /** What an evaluator does when called: it may freeze the manifest, then may commit the attempt with
      its candidates, and then returns or raises. */
  datatype Ending = Returns | Raises | RaisesIntegrity

  datatype Manifest = Manifest(key: string, rest: string)

  /** `status` is what the result of an evaluator that returns says. */
  datatype Runner =
    Runner(manifest: Option<Manifest>, candidates: Option<seq<Candidate>>, rest: string, ending: Ending, status: string)

  datatype Evaluation = Evaluated(attempt: string) | Raised | IntegrityRaised

  /** The store holds the journal of the trace. */
  ghost predicate Follows(store: Store, trace: seq<Action>)
    reads store
  {
    store.events == Execute(EMPTY, trace).journal
  }

  lemma ExecuteSnoc(trace: seq<Action>, a: Action)
    ensures Execute(EMPTY, trace + [a]) == Apply(Execute(EMPTY, trace), a)
  {
    assert (trace + [a])[..|trace|] == trace;
  }

  /** The session of the run in the protocol. */
  ghost predicate At(trace: seq<Action>, run: string, s: EvidenceProtocol.Session) {
    var g := Execute(EMPTY, trace);
    run in g.sessions && g.sessions[run] == s
  }

  /** The manifest frozen for the run, if any. */
  ghost predicate Frozen(journal: seq<Event>, run: string, m: Option<Manifest>) {
    && (m.Some? ==> HasManifest(journal, run))
    && forall e | e in journal && e.payload.run == run && e.payload.ManifestPayload? ::
         m.Some? && e.payload == ManifestPayload(run, m.value.key, m.value.rest)
  }

  /** A runner may bring no manifest, the first one, or the one that is frozen. */
  predicate Welcome(m: Option<Manifest>, brought: Option<Manifest>) {
    brought.None? || m.None? || brought == m
  }

  function Kept(m: Option<Manifest>, brought: Option<Manifest>): Option<Manifest> {
    if m.Some? then m else brought
  }

  lemma FrozenStays(j: seq<Event>, k: seq<Event>, e: Event, run: string, m: Option<Manifest>)
    requires Frozen(j, run, m) && (k == j || k == j + [e]) && !e.payload.ManifestPayload?
    ensures Frozen(k, run, m)
  {
    assert forall f | f in j :: f in k;
  }

  /** A manifest is accepted exactly when it is welcome, and is then the one frozen. */
  lemma FreezeIff(g: Global, run: string, m: Option<Manifest>, brought: Manifest)
    requires Inv(g) && run in g.sessions && !g.sessions[run].phase.Closed? && Frozen(g.journal, run, m)
    ensures var r := Appended(g.journal, ManifestId(run), ManifestPayload(run, brought.key, brought.rest));
            && (r.Ok? <==> Welcome(m, Some(brought)))
            && (r.Ok? ==> Frozen(r.value, run, Kept(m, Some(brought))))
  {
    hide Inv, Appended;
    var e := Event(ManifestId(run), ManifestPayload(run, brought.key, brought.rest));
    ManifestAcceptedIff(g, run, brought.key, brought.rest);
    AppendedShape(g.journal, e.id, e.payload);
  }

  /** One append of the protocol performed on the store. */
  method Perform(store: Store, id: EventId, p: Payload, ghost trace: seq<Action>, ghost a: Action,
                 ghost after: EvidenceProtocol.Session, ghost otherwise: EvidenceProtocol.Session)
    returns (ok: bool)
    requires Follows(store, trace)
    requires p.run in Execute(EMPTY, trace).sessions
    requires Apply(Execute(EMPTY, trace), a) == Write(Execute(EMPTY, trace), id, p, after, otherwise)
    modifies store
    ensures Follows(store, trace + [a])
    ensures ok <==> Appended(Execute(EMPTY, trace).journal, id, p).Ok?
    ensures ok ==> store.events == Appended(Execute(EMPTY, trace).journal, id, p).value
    ensures store.events == old(store.events) || store.events == old(store.events) + [Event(id, p)]
    ensures At(trace + [a], p.run, if ok then after else otherwise)
    ensures Execute(EMPTY, trace + [a]).owners == Execute(EMPTY, trace).owners
    ensures Execute(EMPTY, trace + [a]).sessions.Keys == Execute(EMPTY, trace).sessions.Keys
  {
    hide Apply, Execute, Inv, Appended;
    ReachableInv(trace);
    InvParts(Execute(EMPTY, trace));
    ExecuteSnoc(trace, a);
    AppendedShape(store.events, id, p);
    var r := store.Append(id, p);
    ok := r.Ok?;
  }

  class Session {
    const runId: string
    const store: Store

    constructor (store: Store, runId: string)
      ensures this.store == store && this.runId == runId
    {
      this.store, this.runId := store, runId;
    }

    /** The runner's write of the manifest. */
    method Freeze(manifest: Manifest, ghost trace: seq<Action>, ghost s: EvidenceProtocol.Session,
                  ghost m: Option<Manifest>)
      returns (ok: bool, ghost longer: seq<Action>)
      requires Follows(store, trace) && At(trace, runId, s) && s.phase.Running? && !s.phase.committed
               && Frozen(store.events, runId, m)
      modifies store
      ensures old(store.events) <= store.events
      ensures Follows(store, longer) && trace <= longer && Execute(EMPTY, longer).owners == Execute(EMPTY, trace).owners
      ensures ok <==> Welcome(m, Some(manifest))
      ensures At(longer, runId, s.(phase := if ok then Running(s.phase.attempt, true, false) else Failing))
      ensures ok ==> Frozen(store.events, runId, Kept(m, Some(manifest)))
    {
      hide Execute, Inv, Write, Apply, Frozen, Appended;
      ghost var a := FreezeManifest(runId, manifest.key, manifest.rest);
      ReachableInv(trace);
      FreezeIff(Execute(EMPTY, trace), runId, m, manifest);
      StepIsWrite(trace, runId, s, a);
      ok := Perform(store, ManifestId(runId), ManifestPayload(runId, manifest.key, manifest.rest), trace, a,
                    s.(phase := Running(s.phase.attempt, true, false)), s.(phase := Failing));
      longer := trace + [a];
    }

    /** The runner's write of its attempt with the candidates. It is never refused. */
    method Commit(candidates: seq<Candidate>, attempt: string, generation: nat, rest: string, ghost trace: seq<Action>,
                  ghost s: EvidenceProtocol.Session, ghost m: Option<Manifest>)
      returns (ok: bool, ghost longer: seq<Action>)
      requires Follows(store, trace) && At(trace, runId, s) && s.phase.Running? && s.phase.frozen && !s.phase.committed
      requires attempt == s.phase.attempt && generation == s.next && Frozen(store.events, runId, m)
      modifies store
      ensures old(store.events) <= store.events
      ensures Follows(store, longer) && trace <= longer && Execute(EMPTY, longer).owners == Execute(EMPTY, trace).owners
      ensures ok && At(longer, runId, s.(phase := Running(s.phase.attempt, true, true)))
              && Frozen(store.events, runId, m)
    {
      hide Execute, Inv, Write, Apply, Frozen, Appended;
      ghost var a := EvidenceProtocol.Commit(runId, candidates, rest);
      ghost var before := store.events;
      var payload := AttemptPayload(runId, attempt, generation, COMPLETED, candidates, rest);
      ReachableInv(trace);
      AttemptAccepted(Execute(EMPTY, trace), runId, COMPLETED, candidates, rest);
      StepIsWrite(trace, runId, s, a);
      ok := Perform(store, AttemptId(attempt), payload, trace, a, s.(phase := Running(attempt, true, true)),
          s.(phase := Failing));
      FrozenStays(before, store.events, Event(AttemptId(attempt), payload), runId, m);
      longer := trace + [a];
    }

    /** The end of an evaluation: what the session records of a runner that returned or raised. */
    method Conclude(attempt: string, generation: nat, runner: Runner, ghost trace: seq<Action>,
                    ghost s: EvidenceProtocol.Session, ghost m: Option<Manifest>)
      returns (r: Evaluation, ghost longer: seq<Action>)
      requires Follows(store, trace) && At(trace, runId, s) && s.phase.Running? && s.phase.attempt == attempt
      requires generation == s.next && Frozen(store.events, runId, m)
               && (s.phase.committed <==> runner.candidates.Some?)
      modifies store
      ensures old(store.events) <= store.events
      ensures Follows(store, longer) && trace <= longer && Execute(EMPTY, longer).owners == Execute(EMPTY, trace).owners
      ensures Frozen(store.events, runId, m)
      ensures r == if runner.ending.Returns? then Evaluation.Evaluated(attempt)
                   else if runner.ending.Raises? && runner.candidates.None? then Raised
                   else IntegrityRaised
      ensures At(longer, runId, Concluded(s, r))
    {
      hide Execute, Inv, Write, Apply, Frozen, Appended;
      ReachableInv(trace);
      ghost var before, g := store.events, Execute(EMPTY, trace);
      ghost var failing := s.(phase := Failing);
      match runner.ending
      case RaisesIntegrity =>
        MoveStep(trace, runId, s, RunnerRaisesIntegrity(runId));
        return IntegrityRaised, trace + [RunnerRaisesIntegrity(runId)];
      case Raises =>
        ghost var a := RunnerRaises(runId, runner.rest);
        var payload := AttemptPayload(runId, attempt, generation, "FAILED", [], runner.rest);
        FailureAcceptedIff(g, runId, runner.rest);
        StepIsWrite(trace, runId, s, a);
        var ok := Perform(store, AttemptId(attempt), payload, trace, a, s.(phase := Idle), failing);
        FrozenStays(before, store.events, Event(AttemptId(attempt), payload), runId, m);
        return if ok then Raised else IntegrityRaised, trace + [a];
      case Returns =>
        ghost var a := RunnerReturns(runId, runner.rest);
        CommittedIff(g, runId);
        if exists e :: e in store.events && e.id == AttemptId(attempt) {
          MoveStep(trace, runId, s, a);
          return Evaluation.Evaluated(attempt), trace + [a];
        }
        var payload := AttemptPayload(runId, attempt, generation, COMPLETED, [], runner.rest);
        AttemptAccepted(g, runId, COMPLETED, [], runner.rest);
        StepIsWrite(trace, runId, s, a);
        var ok := Perform(store, AttemptId(attempt), payload, trace, a,
            s.(phase := EvidenceProtocol.Evaluated(attempt)), failing);
        FrozenStays(before, store.events, Event(AttemptId(attempt), payload), runId, m);
        return if ok then Evaluation.Evaluated(attempt) else IntegrityRaised, trace + [a];
    }

    /** `evaluate`: a fresh attempt id, the evaluator, and the record of how it ended. The evaluation is
        taken exactly when the evaluator returns and its manifest is not another one than the run's. */
    method Evaluate(attempt: string, generation: nat, runner: Runner, ghost trace: seq<Action>,
                    ghost s: EvidenceProtocol.Session, ghost m: Option<Manifest>)
      returns (r: Evaluation, ghost longer: seq<Action>)
      requires Follows(store, trace) && At(trace, runId, s) && s.phase.Idle? && s.next < s.first + s.requested
      requires generation == s.next && attempt != "" && attempt !in Execute(EMPTY, trace).owners
      requires (runner.candidates.Some? ==> runner.manifest.Some?) && Frozen(store.events, runId, m)
      modifies store
      ensures old(store.events) <= store.events
      ensures Follows(store, longer) && trace <= longer
      ensures Execute(EMPTY, longer).owners == Execute(EMPTY, trace).owners[attempt := runId]
      ensures r == if Welcome(m, runner.manifest) && runner.ending.Returns? then Evaluation.Evaluated(attempt)
                   else if Welcome(m, runner.manifest) && runner.ending.Raises? && runner.candidates.None? then Raised
                   else IntegrityRaised
      ensures r.Evaluated? ==> Frozen(store.events, runId, Kept(m, runner.manifest))
      ensures At(longer, runId, Concluded(s, r))
    {
      hide Execute, Inv, Write, Apply, Frozen;
      longer := trace + [Begin(runId, attempt)];
      BeginStep(trace, runId, attempt, s);
      ghost var running := s.(phase := Running(attempt, false, false));
      var ok;
      if runner.manifest.Some? {
        ok, longer := Freeze(runner.manifest.value, longer, running, m);
        if !ok {
          return IntegrityRaised, longer;
        }
        running := running.(phase := Running(attempt, true, false));
      }
      if runner.candidates.Some? {
        ok, longer := Commit(runner.candidates.value, attempt, generation, runner.rest, longer, running,
            Kept(m, runner.manifest));
        running := running.(phase := Running(attempt, true, true));
      }
      r, longer := Conclude(attempt, generation, runner, longer, running, Kept(m, runner.manifest));
    }

    /** The record of a generation is never refused. */
    method FinishGeneration(generation: nat, status: string, attempt: string, ghost trace: seq<Action>,
                            ghost s: EvidenceProtocol.Session, ghost m: Option<Manifest>)
      returns (ok: bool, ghost longer: seq<Action>)
      requires Follows(store, trace) && At(trace, runId, s) && s.phase == EvidenceProtocol.Evaluated(attempt)
               && generation == s.next
      requires Frozen(store.events, runId, m)
      modifies store
      ensures old(store.events) <= store.events
      ensures Follows(store, longer) && trace <= longer && Execute(EMPTY, longer).owners == Execute(EMPTY, trace).owners
      ensures Event(GenerationId(runId, generation), GenerationPayload(runId, generation, status,
              Some(attempt))) in store.events
      ensures ok && At(longer, runId, s.(next := s.next + 1, phase := Idle)) && Frozen(store.events, runId, m)
    {
      hide Execute, Inv, Write, Apply, Frozen, Appended;
      ghost var a := EvidenceProtocol.FinishGeneration(runId, status);
      ghost var before := store.events;
      ReachableInv(trace);
      GenerationAccepted(Execute(EMPTY, trace), runId, status, Some(attempt));
      AppendedShape(Execute(EMPTY, trace).journal, GenerationId(runId, generation),
                    GenerationPayload(runId, generation, status, Some(attempt)));
      StepIsWrite(trace, runId, s, a);
      var payload := GenerationPayload(runId, generation, status, Some(attempt));
      ok := Perform(store, GenerationId(runId, generation), payload, trace, a, s.(next := s.next + 1, phase := Idle),
          s.(phase := Failing));
      FrozenStays(before, store.events, Event(GenerationId(runId, generation), payload), runId, m);
      longer := trace + [a];
    }

    /** `finish_run`, with a status that says completed only after the last generation. The end of an open
        run is never refused, however it came to its end. */
    method FinishRun(status: string, ghost trace: seq<Action>, ghost s: EvidenceProtocol.Session)
      returns (ok: bool, ghost longer: seq<Action>)
      requires Follows(store, trace) && At(trace, runId, s) && !s.phase.Closed?
      requires COMPLETED <= status ==> s.phase.Idle? && s.next == s.first + s.requested
      modifies store
      ensures old(store.events) <= store.events
      ensures Follows(store, longer) && trace <= longer && At(longer, runId, s.(phase := Closed))
      ensures ok && Event(EndId(runId), EndPayload(runId, status)) in store.events
    {
      hide Execute, Inv, Write, Apply, Appended;
      ghost var a := if COMPLETED <= status then EvidenceProtocol.FinishRun(runId, status) else Abort(runId, status);
      ReachableInv(trace);
      EndAccepted(Execute(EMPTY, trace), runId, status);
      AppendedShape(Execute(EMPTY, trace).journal, EndId(runId), EndPayload(runId, status));
      StepIsWrite(trace, runId, s, a);
      ok := Perform(store, EndId(runId), EndPayload(runId, status), trace, a, s.(phase := Closed), s.(phase := Closed));
      longer := trace + [a];
    }
  }

  /** The session after an evaluation. */
  function Concluded(s: EvidenceProtocol.Session, r: Evaluation): EvidenceProtocol.Session {
    s.(phase := match r
                case Evaluated(attempt) => EvidenceProtocol.Evaluated(attempt)
                case Raised => Idle
                case IntegrityRaised => Failing)
  }

  lemma CommittedIff(g: Global, run: string)
    requires Inv(g) && run in g.sessions && g.sessions[run].phase.Running?
    ensures g.sessions[run].phase.committed <==> exists e ::
            e in g.journal && e.id == AttemptId(g.sessions[run].phase.attempt)
  {
    hide Inv;
    SessionIn(g, run);
  }

  /** The failure of an attempt is recorded unless the attempt was committed. */
  lemma FailureAcceptedIff(g: Global, run: string, rest: string)
    requires Inv(g) && run in g.sessions && g.sessions[run].phase.Running?
    ensures var s := g.sessions[run];
            var p := AttemptPayload(run, s.phase.attempt, s.next, "FAILED", [], rest);
            Appended(g.journal, AttemptId(s.phase.attempt), p).Ok? <==> !s.phase.committed
  {
    hide Inv, Appended;
    if g.sessions[run].phase.committed {
      CommittedAttemptStands(g, run, rest);
    } else {
      AttemptAccepted(g, run, "FAILED", [], rest);
    }
  }

  lemma BeginStep(trace: seq<Action>, run: string, attempt: string, s: EvidenceProtocol.Session)
    requires At(trace, run, s) && s.phase.Idle? && s.next < s.first + s.requested
    requires attempt != "" && attempt !in Execute(EMPTY, trace).owners
    ensures At(trace + [Begin(run, attempt)], run, s.(phase := Running(attempt, false, false)))
    ensures Execute(EMPTY, trace + [Begin(run, attempt)]).journal == Execute(EMPTY, trace).journal
    ensures Execute(EMPTY, trace + [Begin(run, attempt)]).owners == Execute(EMPTY, trace).owners[attempt := run]
  {
    ExecuteSnoc(trace, Begin(run, attempt));
  }

  /** The write that an enabled action of a session is. */
  lemma StepIsWrite(trace: seq<Action>, run: string, s: EvidenceProtocol.Session, a: Action)
    requires At(trace, run, s) && !a.Open? && a.run == run && Enabled(Execute(EMPTY, trace), a)
    ensures var g := Execute(EMPTY, trace);
            var failing := s.(phase := Failing);
            match a
            case FreezeManifest(_, key, rest) =>
              Apply(g, a) == Write(g, ManifestId(run), ManifestPayload(run, key, rest),
                  s.(phase := Running(s.phase.attempt, true, false)), failing)
            case Commit(_, candidates, rest) =>
              Apply(g, a) == Write(g, AttemptId(s.phase.attempt),
                  AttemptPayload(run, s.phase.attempt, s.next, COMPLETED, candidates, rest),
                                   s.(phase := Running(s.phase.attempt, true, true)), failing)
            case RunnerRaises(_, rest) =>
              Apply(g, a) == Write(g, AttemptId(s.phase.attempt),
                  AttemptPayload(run, s.phase.attempt, s.next, "FAILED", [], rest),
                                   s.(phase := Idle), failing)
            case RunnerReturns(_, rest) =>
              (!exists e :: e in g.journal && e.id == AttemptId(s.phase.attempt)) ==>
                Apply(g, a) == Write(g, AttemptId(s.phase.attempt),
                    AttemptPayload(run, s.phase.attempt, s.next, COMPLETED, [], rest),
                                     s.(phase := EvidenceProtocol.Evaluated(s.phase.attempt)), failing)
            case FinishGeneration(_, status) =>
              Apply(g, a) == Write(g, GenerationId(run, s.next),
                  GenerationPayload(run, s.next, status, Some(s.phase.attempt)),
                                   s.(next := s.next + 1, phase := Idle), failing)
            case FinishRun(_, status) =>
              Apply(g, a) == Write(g, EndId(run), EndPayload(run, status), s.(phase := Closed), s.(phase := Closed))
            case Abort(_, status) =>
              Apply(g, a) == Write(g, EndId(run), EndPayload(run, status), s.(phase := Closed), s.(phase := Closed))
            case _ => true
  {
    hide Execute, Write;
  }

  /** The steps that write nothing. */
  lemma MoveStep(trace: seq<Action>, run: string, s: EvidenceProtocol.Session, a: Action)
    requires At(trace, run, s) && s.phase.Running? && (a.RunnerRaisesIntegrity? || a.RunnerReturns?) && a.run == run
    requires a.RunnerReturns? ==> exists e :: e in Execute(EMPTY, trace).journal && e.id == AttemptId(s.phase.attempt)
    ensures At(trace + [a], run, s.(phase := if a.RunnerReturns? then EvidenceProtocol.Evaluated(s.phase.attempt)
            else Failing))
    ensures Execute(EMPTY, trace + [a]).journal == Execute(EMPTY, trace).journal
    ensures Execute(EMPTY, trace + [a]).owners == Execute(EMPTY, trace).owners
  {
    hide Execute;
    ExecuteSnoc(trace, a);
  }

  /** Registering a run under a fresh id, which is never refused. */
  method Register(store: Store, runId: string, requested: nat, rest: string, ghost trace: seq<Action>)
    returns (ok: bool, ghost longer: seq<Action>)
    requires Follows(store, trace) && runId != "" && requested >= 1 && runId !in Execute(EMPTY, trace).sessions
    modifies store
    ensures Follows(store, longer) && trace <= longer && Execute(EMPTY, longer).owners == Execute(EMPTY, trace).owners
    ensures ok && At(longer, runId, EvidenceProtocol.Session(1, requested, 1, Idle))
            && Frozen(store.events, runId, None)
  {
    hide Execute, Inv, Appended;
    ReachableInv(trace);
    InvParts(Execute(EMPTY, trace));
    OpenAccepted(Execute(EMPTY, trace), runId, requested, rest);
    NothingFrozen(Execute(EMPTY, trace), runId);
    longer := trace + [Open(runId, requested, 1, rest)];
    ExecuteSnoc(trace, Open(runId, requested, 1, rest));
    FrozenStays(store.events, store.events + [Event(RunId(runId), RunPayload(runId, requested, rest))],
                Event(RunId(runId), RunPayload(runId, requested, rest)), runId, None);
    var r := store.Append(RunId(runId), RunPayload(runId, requested, rest));
    ok := r.Ok?;
  }

  lemma NothingFrozen(g: Global, run: string)
    requires Inv(g) && run !in g.sessions
    ensures Frozen(g.journal, run, None)
  {
    hide Inv, HasAttempt;
    forall e | e in g.journal
      ensures e.payload.run != run
    {
      EventIn(g, e);
    }
  }

  /** All evaluators return, and those that bring a manifest bring the same one. */
  ghost predicate AllAgree(runners: seq<Runner>) {
    && (forall i | 0 <= i < |runners| :: runners[i].ending.Returns?)
    && (forall i, j | 0 <= i < j < |runners| && runners[i].manifest.Some? && runners[j].manifest.Some? ::
          runners[i].manifest == runners[j].manifest)
  }

  /** The first manifest brought. */
  function FirstManifest(runners: seq<Runner>): Option<Manifest> {
    if runners == [] then None else Kept(FirstManifest(runners[..|runners| - 1]), runners[|runners| - 1].manifest)
  }

  lemma {:induction false} FirstManifestBrought(runners: seq<Runner>)
    ensures FirstManifest(runners).Some? <==> exists i | 0 <= i < |runners| :: runners[i].manifest.Some?
    ensures FirstManifest(runners).Some? ==> exists i | 0 <= i < |runners| ::
            runners[i].manifest == FirstManifest(runners)
  {
    if runners != [] {
      FirstManifestBrought(runners[..|runners| - 1]);
    }
  }

  /** One more evaluator agrees when it returns and its manifest is welcome. */
  lemma AllAgreeSnoc(runners: seq<Runner>, runner: Runner)
    ensures AllAgree(runners + [runner]) <==>
            AllAgree(runners) && runner.ending.Returns? && Welcome(FirstManifest(runners), runner.manifest)
    ensures FirstManifest(runners + [runner]) == Kept(FirstManifest(runners), runner.manifest)
  {
    hide FirstManifest;
    var all := runners + [runner];
    assert FirstManifest(all) == Kept(FirstManifest(runners), runner.manifest) by {
      FirstManifestSnoc(runners, runner);
    }
    FirstManifestBrought(runners);
    assert forall i | 0 <= i < |runners| :: all[i] == runners[i];
    assert all[|runners|] == runner;
  }

  lemma FirstManifestSnoc(runners: seq<Runner>, runner: Runner)
    ensures FirstManifest(runners + [runner]) == Kept(FirstManifest(runners), runner.manifest)
  {
    assert (runners + [runner])[..|runners|] == runners;
  }

  lemma AgreePrefix(runners: seq<Runner>, n: nat)
    requires n <= |runners| && !AllAgree(runners[..n])
    ensures !AllAgree(runners)
  {
  }

  /** The record of a generation: the status that its evaluator returned, and its attempt. */
  ghost predicate Recorded(events: seq<Event>, run: string, generation: nat, status: string, attempt: string) {
    Event(GenerationId(run, generation), GenerationPayload(run, generation, status, Some(attempt))) in events
  }

  /** `run_repeated_evaluation`: one evaluation a generation, and the end of the run; there is no run
      without generations. `begun` and `written` say which writes of the progress file succeed, the first
      of them before any generation. The run is completed exactly when there is a generation, all these
      writes succeed, every evaluator returns, and all manifests brought are the same; each generation is
      then recorded with the status that its evaluator returned. Unless the first write fails, which leaves
      the run open, it is ended in the journal either way. Whatever the evaluators do, the journal left is
      one of the protocol. */
  method RunRepeatedEvaluation(store: Store, runId: string, rest: string, runners: seq<Runner>, attempts: seq<string>,
                               begun: bool, written: seq<bool>, ghost trace: seq<Action>)
    returns (completed: bool, ghost longer: seq<Action>)
    requires Follows(store, trace) && runId != "" && runId !in Execute(EMPTY, trace).sessions
    requires |runners| == |attempts| == |written|
    requires forall i | 0 <= i < |attempts| :: attempts[i] != "" && attempts[i] !in Execute(EMPTY, trace).owners
    requires forall i, j | 0 <= i < j < |attempts| :: attempts[i] != attempts[j]
    requires forall i | 0 <= i < |runners| && runners[i].candidates.Some? :: runners[i].manifest.Some?
    modifies store
    ensures Follows(store, longer) && trace <= longer
    ensures completed <==> runners != [] && begun && false !in written && AllAgree(runners)
    ensures completed ==> At(longer, runId, EvidenceProtocol.Session(1, |runners|, |runners| + 1, Closed))
    ensures completed ==> forall i | 0 <= i < |runners| ::
            Recorded(store.events, runId, i + 1, runners[i].status, attempts[i])
    ensures runners != [] && begun ==>
              Event(EndId(runId), EndPayload(runId, if completed then COMPLETED else "FAILED")) in store.events
    ensures runners != [] && !begun ==> At(longer, runId, EvidenceProtocol.Session(1, |runners|, 1, Idle))
  {
    hide Execute, Frozen, AllAgree, FirstManifest;
    if |runners| == 0 {
      return false, trace;
    }
    var ok;
    ok, longer := Register(store, runId, |runners|, rest, trace);
    if !begun {
      return false, longer;
    }
    var session := new Session(store, runId);
    ghost var s := EvidenceProtocol.Session(1, |runners|, 1, Idle);
    NoneAgree();
    for i := 0 to |runners|
      invariant Follows(store, longer) && trace <= longer
      invariant s == EvidenceProtocol.Session(1, |runners|, i + 1, Idle) && At(longer, runId, s)
      invariant forall k | i <= k < |attempts| :: attempts[k] !in Execute(EMPTY, longer).owners
      invariant Frozen(store.events, runId, FirstManifest(runners[..i])) && AllAgree(runners[..i])
      invariant forall k | 0 <= k < i :: written[k]
      invariant forall k | 0 <= k < i :: Recorded(store.events, runId, k + 1, runners[k].status, attempts[k])
    {
      ghost var m := FirstManifest(runners[..i]);
      assert runners[..i + 1] == runners[..i] + [runners[i]];
      AllAgreeSnoc(runners[..i], runners[i]);
      var r;
      r, longer := session.Evaluate(attempts[i], i + 1, runners[i], longer, s, m);
      s := Concluded(s, r);
      if !r.Evaluated? {
        AgreePrefix(runners, i + 1);
        ok, longer := session.FinishRun("FAILED", longer, s);
        return false, longer;
      }
      ok, longer := session.FinishGeneration(i + 1, runners[i].status, r.attempt, longer, s,
          Kept(m, runners[i].manifest));
      s := s.(next := s.next + 1, phase := Idle);
      if !written[i] {
        ok, longer := session.FinishRun("FAILED", longer, s);
        return false, longer;
      }
    }
    assert runners[..|runners|] == runners;
    ok, longer := session.FinishRun(COMPLETED, longer, s);
    return true, longer;
  }

  lemma NoneAgree()
    ensures AllAgree([]) && FirstManifest([]) == None
  {
  }
}
