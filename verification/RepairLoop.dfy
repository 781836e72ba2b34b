/** Proposal, repair, evaluation and fallback of the generations of a directed run: `run_autoresearch`
    of runtime/research_loop.py, with the director and the evaluator as arbitrary outcomes. */
module RepairLoop {
  import opened Prelude

  /** What comes of asking for a proposal: an intent that passes preflight, one that does not, an error
      without an intent, or a broken journal. */
  datatype Proposal = Proposed(intent: string) | Rejected(intent: string) | NotProposed | ProposalIntegrity

  /** What comes of a repair call: the returned intent may fail preflight, and then what follows on it,
      its record above all, may fail. */
  datatype Reply = Unavailable | Raises | ReplyIntegrity | Returns(intent: string, preflight: bool, recorded: bool)

  datatype Evaluation = Succeeds | Fails | EvaluationIntegrity

  /** What the director and the evaluator do in a generation, call by call. */
  datatype Script = Script(proposal: Proposal, replies: nat -> Reply, evaluations: nat -> Evaluation)

  datatype IntentStatus = PROPOSED | REPAIRED | FALLBACK

  /** How a generation ends: with an evaluation, with none, or with the run. `UnboundName` is the read of
      `repaired_intent` before anything has been assigned to it. */
  datatype End =
    | Evaluated(status: IntentStatus, intent: Option<string>)
    | Degraded(intent: Option<string>)
    | Integrity
    | UnboundName

  /** A payload as the signatures tell it apart. */
  type Payload = Option<string>

  // ----- The two loops, as a single optional repair

  /** The intent that came with the proposal. */
  function Intent(p: Proposal): Payload {
    if p.Proposed? || p.Rejected? then Some(p.intent) else None
  }

  predicate Repairs(r: Reply) {
    r.Returns? && r.preflight && r.recorded
  }

  /** The intent after a repair reply: a returned one replaces it once it has passed preflight. */
  function After(before: Payload, r: Reply): Payload {
    if r.Returns? && r.preflight then Some(r.intent) else before
  }

  /** The last try of a generation: the parent without changes. */
  function Fallback(e: Evaluation, intent: Payload): End {
    match e
    case Succeeds => Evaluated(FALLBACK, intent)
    case Fails => Degraded(intent)
    case EvaluationIntegrity => Integrity
  }

  /** A generation whose proposal failed: one repair, if allowed, and the evaluation of what it leaves. */
  function AfterBadProposal(allowed: nat, s: Script): End {
    if allowed > 0 && s.replies(0).ReplyIntegrity? then Integrity else
    var repaired := allowed > 0 && Repairs(s.replies(0));
    var intent := if allowed > 0 then After(Intent(s.proposal), s.replies(0)) else Intent(s.proposal);
    match s.evaluations(0)
    case Succeeds => Evaluated(if repaired then REPAIRED else FALLBACK, intent)
    case Fails => Fallback(s.evaluations(1), intent)
    case EvaluationIntegrity => Integrity
  }

  /** A generation whose proposal passed but could not be evaluated: one repair, if allowed. */
  function AfterBadEvaluation(allowed: nat, s: Script, bound: bool): End {
    var r, intent := s.replies(0), After(Intent(s.proposal), s.replies(0));
    if allowed == 0 then Fallback(s.evaluations(1), Intent(s.proposal))
    else if r.ReplyIntegrity? then Integrity
    else if r.Raises? && !bound then UnboundName
    else if !Repairs(r) then Fallback(s.evaluations(1), intent)
    else
      match s.evaluations(1)
      case Succeeds => Evaluated(REPAIRED, intent)
      case Fails => Fallback(s.evaluations(2), intent)
      case EvaluationIntegrity => Integrity
  }

  function Generation(allowed: nat, s: Script, bound: bool): End {
    match s.proposal
    case ProposalIntegrity => Integrity
    case Rejected(_) => AfterBadProposal(allowed, s)
    case NotProposed => AfterBadProposal(allowed, s)
    case Proposed(intent) =>
      match s.evaluations(0)
      case Succeeds => Evaluated(PROPOSED, Some(intent))
      case Fails => AfterBadEvaluation(allowed, s, bound)
      case EvaluationIntegrity => Integrity
  }

  /** Whether the generation asks for a repair at all. */
  predicate AsksRepair(allowed: nat, s: Script) {
    && allowed > 0
    && (s.proposal.Rejected? || s.proposal.NotProposed? || (s.proposal.Proposed? && s.evaluations(0).Fails?))
  }

  function Sent(allowed: nat, s: Script): seq<Payload> {
    if AsksRepair(allowed, s) then [Intent(s.proposal)] else []
  }

  /** Whether `repaired_intent` has a value after the generation. */
  predicate BoundAfter(allowed: nat, s: Script, bound: bool) {
    || bound
    || s.proposal.Rejected? || s.proposal.NotProposed?
    || (AsksRepair(allowed, s) && s.replies(0).Returns?)
  }

  // ----- The code

  /** The repairs after a failed proposal. `attempted` holds the signatures of the payloads sent and of
      those returned. */
  method RepairProposal(allowed: nat, s: Script)
    returns (aborted: bool, status: IntentStatus, intent: Payload, attempted: set<Payload>, sent: seq<Payload>)
    requires s.proposal.Rejected? || s.proposal.NotProposed?
    ensures sent == if allowed > 0 then [Intent(s.proposal)] else []
    ensures aborted <==> allowed > 0 && s.replies(0).ReplyIntegrity?
    ensures !aborted ==> status == if allowed > 0 && Repairs(s.replies(0)) then REPAIRED else FALLBACK
    ensures !aborted ==> intent == if allowed > 0 then After(Intent(s.proposal), s.replies(0)) else Intent(s.proposal)
    ensures !aborted ==> if allowed > 0 then intent in attempted else attempted == {}
  {
    aborted, status, intent, attempted, sent := false, PROPOSED, Intent(s.proposal), {}, [];
    var invalid := intent;
    for attempt := 0 to allowed
      invariant attempt == 0 ==>
                  && sent == [] && attempted == {} && invalid == intent == Intent(s.proposal) && status == PROPOSED
      invariant attempt > 0 ==>
                  && sent == [Intent(s.proposal)] && invalid in attempted && intent in attempted
                  && !s.replies(0).ReplyIntegrity? && !Repairs(s.replies(0))
                  && status == PROPOSED && intent == After(Intent(s.proposal), s.replies(0))
      invariant !aborted
    {
      if invalid in attempted {
        break;
      }
      attempted := attempted + {invalid};
      var reply := s.replies(|sent|);
      sent := sent + [invalid];
      match reply {
        case Unavailable => break;
        case ReplyIntegrity =>
          aborted := true;
          return;
        case Raises =>
        case Returns(repaired, preflight, recorded) =>
          attempted := attempted + {Some(repaired)};
          if preflight {
            intent := Some(repaired);
            if recorded {
              status := REPAIRED;
              break;
            }
          }
          invalid := Some(repaired);
      }
    }
    if status != REPAIRED {
      status := FALLBACK;
    }
  }

  /** The repairs after a failed evaluation of `intent`, with what has been attempted and sent before. */
  method RepairEvaluation(allowed: nat, s: Script, bound: bool, before: Payload, attemptedBefore: set<Payload>,
                          sentBefore: seq<Payload>)
    returns (end: Option<End>, status: IntentStatus, intent: Payload, sent: seq<Payload>, boundAfter: bool,
        evaluations: nat)
    requires s.evaluations(0).Fails?
    requires sentBefore == [] ==> attemptedBefore == {} && before == Intent(s.proposal)
    requires |sentBefore| <= 1 && (sentBefore != [] ==> before in attemptedBefore)
    ensures allowed == 0 || sentBefore != [] ==>
              end.None? && intent == before && sent == sentBefore && boundAfter == bound && evaluations == 1
    ensures allowed > 0 && sentBefore == [] ==> sent == [before] && boundAfter == (bound || s.replies(0).Returns?)
    ensures allowed > 0 && sentBefore == [] ==>
              match end
              case Some(e) => e == AfterBadEvaluation(allowed, s, bound)
              case None => Fallback(s.evaluations(evaluations), intent) == AfterBadEvaluation(allowed, s, bound)
  {
    end, intent, sent, boundAfter, evaluations := None, before, sentBefore, bound, 1;
    status := PROPOSED;
    var attempted := attemptedBefore;
    while |sent| < allowed
      invariant end.None?
      invariant sentBefore != [] ==>
                  && intent == before && sent == sentBefore && attempted == attemptedBefore
                  && boundAfter == bound && evaluations == 1
      invariant sentBefore == [] ==> |sent| <= allowed && (sent == [] || sent == [before])
      invariant sentBefore == [] && sent == [] ==>
                intent == before && attempted == {} && boundAfter == bound && evaluations == 1
      invariant sentBefore == [] && sent != [] ==>
                  && intent in attempted && boundAfter == (bound || s.replies(0).Returns?)
                  && Fallback(s.evaluations(evaluations), intent) == AfterBadEvaluation(allowed, s, bound)
      decreases allowed - |sent|
    {
      var input := intent;
      if input in attempted {
        break;
      }
      attempted := attempted + {input};
      var reply := s.replies(|sent|);
      sent := sent + [input];
      match reply {
        case Unavailable => break;
        case ReplyIntegrity =>
          end := Some(Integrity);
          return;
        case Raises =>
          if !boundAfter {
            end := Some(UnboundName);
            return;
          }
        case Returns(repaired, preflight, recorded) =>
          boundAfter := true;
          attempted := attempted + {Some(repaired)};
          if preflight {
            intent := Some(repaired);
            if recorded {
              status := REPAIRED;
              var outcome := s.evaluations(evaluations);
              evaluations := evaluations + 1;
              match outcome {
                case Succeeds =>
                  end := Some(Evaluated(REPAIRED, intent));
                  return;
                case EvaluationIntegrity =>
                  end := Some(Integrity);
                  return;
                case Fails =>
              }
            }
          }
      }
    }
  }

  /** One generation: the two repair loops together make at most one call, and do what the single
      optional repair does. */
  method RunGeneration(allowed: nat, s: Script, bound: bool)
    returns (end: End, sent: seq<Payload>, boundAfter: bool)
    ensures end == Generation(allowed, s, bound)
    ensures sent == Sent(allowed, s) && |sent| <= 1 && |sent| <= allowed
    ensures !end.Integrity? && !end.UnboundName? ==> boundAfter == BoundAfter(allowed, s, bound)
  {
    boundAfter, sent := bound, [];
    var intent, status := Intent(s.proposal), PROPOSED;
    var attempted: set<Payload> := {};
    match s.proposal {
      case ProposalIntegrity =>
        end := Integrity;
        return;
      case Proposed(_) =>
      case _ =>
        boundAfter := true;
        var aborted;
        aborted, status, intent, attempted, sent := RepairProposal(allowed, s);
        if aborted {
          end := Integrity;
          return;
        }
    }
    match s.evaluations(0) {
      case Succeeds =>
        end := Evaluated(status, intent);
        return;
      case EvaluationIntegrity =>
        end := Integrity;
        return;
      case Fails =>
    }
    var early, evaluations;
    early, status, intent, sent, boundAfter, evaluations := RepairEvaluation(allowed, s, boundAfter, intent, attempted,
        sent);
    if early.Some? {
      end := early.value;
      return;
    }
    match s.evaluations(evaluations) {
      case Succeeds => end := Evaluated(FALLBACK, intent);
      case EvaluationIntegrity => end := Integrity;
      case Fails => end := Degraded(intent);
    }
  }

  // ----- Runs

  predicate Ends(e: End) {
    e.Integrity? || e.UnboundName?
  }

  /** Whether `repaired_intent` has a value before generation `i`. */
  predicate BoundBefore(allowed: nat, scripts: seq<Script>, i: nat)
    requires i <= |scripts|
  {
    i > 0 && BoundAfter(allowed, scripts[i - 1], BoundBefore(allowed, scripts, i - 1))
  }

  function EndOf(allowed: nat, scripts: seq<Script>, i: nat): End
    requires i < |scripts|
  {
    Generation(allowed, scripts[i], BoundBefore(allowed, scripts, i))
  }

  /** All generations in turn, until one ends the run. */
  method RunGenerations(allowed: nat, scripts: seq<Script>) returns (records: seq<End>, error: Option<End>, calls: nat)
    ensures |records| <= |scripts| && forall i | 0 <= i < |records| ::
            records[i] == EndOf(allowed, scripts, i) && !Ends(records[i])
    ensures error.None? <==> |records| == |scripts|
    ensures error.Some? ==> error.value in {Integrity, UnboundName} && error.value == EndOf(allowed, scripts, |records|)
    ensures calls <= |records| + if error.Some? then 1 else 0
  {
    records, error, calls := [], None, 0;
    var bound := false;
    for i := 0 to |scripts|
      invariant |records| == i && calls <= i && error.None?
      invariant bound == BoundBefore(allowed, scripts, i)
      invariant forall k | 0 <= k < i :: records[k] == EndOf(allowed, scripts, k) && !Ends(records[k])
    {
      var end, sent, boundAfter := RunGeneration(allowed, scripts[i], bound);
      calls := calls + |sent|;
      if Ends(end) {
        error := Some(end);
        return;
      }
      records := records + [end];
      bound := boundAfter;
    }
  }

  /** The repair call of a generation whose evaluation failed raised something else than that repair is
      unavailable. */
  predicate RepairRaises(allowed: nat, s: Script) {
    allowed > 0 && s.proposal.Proposed? && s.evaluations(0).Fails? && s.replies(0).Raises?
  }

  /** Nothing in a generation assigns to `repaired_intent`. */
  predicate LeavesUnbound(allowed: nat, s: Script) {
    && !s.proposal.Rejected? && !s.proposal.NotProposed?
    && !(AsksRepair(allowed, s) && s.replies(0).Returns?)
  }

  lemma {:induction false} BoundBeforeIff(allowed: nat, scripts: seq<Script>, i: nat)
    requires i <= |scripts|
    ensures BoundBefore(allowed, scripts, i) <==> exists k | 0 <= k < i :: !LeavesUnbound(allowed, scripts[k])
  {
    if i > 0 {
      BoundBeforeIff(allowed, scripts, i - 1);
    }
  }

  /** A generation reads `repaired_intent` unassigned exactly when its repair call raises after a failed
      evaluation and no earlier generation of the run had a failed proposal or a returned repair. */
  lemma UnboundIff(allowed: nat, scripts: seq<Script>, i: nat)
    requires i < |scripts|
    ensures EndOf(allowed, scripts, i) == UnboundName <==>
            RepairRaises(allowed, scripts[i]) && forall k | 0 <= k < i :: LeavesUnbound(allowed, scripts[k])
  {
    BoundBeforeIff(allowed, scripts, i);
  }

  // ----- What an end means

  /** The evaluations a generation has at most: one of the proposal or what stands in for it, one of a repair
      that follows a failed evaluation, and one of the parent without changes. */
  function Tries(allowed: nat, s: Script): nat {
    if s.proposal.Proposed? && allowed > 0 && Repairs(s.replies(0)) then 3 else 2
  }

  /** The generation ends the run before its evaluations decide. */
  predicate Cut(allowed: nat, s: Script, bound: bool) {
    || s.proposal.ProposalIntegrity?
    || (AsksRepair(allowed, s) && s.replies(0).ReplyIntegrity?)
    || (AsksRepair(allowed, s) && s.proposal.Proposed? && s.replies(0).Raises? && !bound)
  }

  /** The first evaluation that does not fail is number `m`. */
  predicate FirstStanding(s: Script, m: nat) {
    !s.evaluations(m).Fails? && forall k: nat | k < m :: s.evaluations(k).Fails?
  }

  predicate AllFail(allowed: nat, s: Script) {
    forall k: nat | k < Tries(allowed, s) :: s.evaluations(k).Fails?
  }

  /** What evaluation `m` is of. */
  function StatusAt(allowed: nat, s: Script, m: nat): IntentStatus {
    if m == 0 && s.proposal.Proposed? then PROPOSED
    else if AsksRepair(allowed, s) && Repairs(s.replies(0)) && m == (if s.proposal.Proposed? then 1 else 0)
    then REPAIRED
    else FALLBACK
  }

  /** How a generation ends, whatever the director and the evaluator do: degraded exactly when all its
      evaluations fail, and otherwise as its first evaluation that does not fail has it, under the status of
      what that one is of. */
  lemma GenerationIff(allowed: nat, s: Script, bound: bool)
    ensures var end := Generation(allowed, s, bound);
            && (Cut(allowed, s, bound) ==> Ends(end))
            && (!Cut(allowed, s, bound) ==>
                  && (end.Degraded? <==> AllFail(allowed, s))
                  && (end.Degraded? || exists m: nat :: m < Tries(allowed, s) && FirstStanding(s, m))
                  && forall m: nat | m < Tries(allowed, s) && FirstStanding(s, m) ::
                       if s.evaluations(m).EvaluationIntegrity? then end == Integrity
                       else
                         && end.Evaluated? && end.status == StatusAt(allowed, s, m)
                         && end.intent == if AsksRepair(allowed, s) then After(Intent(s.proposal), s.replies(0))
                                          else Intent(s.proposal))
  {
    hide Repairs;
    var first, second := s.evaluations(0).Fails?, s.evaluations(1).Fails?;
    assert !first ==> FirstStanding(s, 0);
    assert first && !second ==> FirstStanding(s, 1);
    assert first && second && !s.evaluations(2).Fails? ==> FirstStanding(s, 2);
  }

  // ----- Final status

  function FinalStatus(records: seq<End>): string {
    if exists r :: r in records && r.Degraded? then "COMPLETED_WITH_ERRORS"
    else if exists r :: r in records && r.Evaluated? && r.status == FALLBACK then "COMPLETED_WITH_FALLBACKS"
    else "COMPLETED"
  }

  /** The generation was evaluated with its proposal or with a repaired one. */
  predicate Clean(allowed: nat, s: Script) {
    if s.proposal.Proposed? && s.evaluations(0).Succeeds? then true
    else
      && AsksRepair(allowed, s) && Repairs(s.replies(0))
      && s.evaluations(if s.proposal.Proposed? then 1 else 0).Succeeds?
  }

  /** A run that gets to its end reports plain completion exactly when all its generations were clean, and
      errors exactly when in some generation every evaluation failed. */
  lemma CompletedIff(allowed: nat, scripts: seq<Script>, records: seq<End>)
    requires |records| == |scripts|
    requires forall i | 0 <= i < |records| :: records[i] == EndOf(allowed, scripts, i) && !Ends(records[i])
    ensures FinalStatus(records) == "COMPLETED" <==> forall i | 0 <= i < |scripts| :: Clean(allowed, scripts[i])
    ensures FinalStatus(records) == "COMPLETED_WITH_ERRORS"
            <==> exists i | 0 <= i < |scripts| :: AllFail(allowed, scripts[i])
    ensures FinalStatus(records) in {"COMPLETED", "COMPLETED_WITH_ERRORS", "COMPLETED_WITH_FALLBACKS"}
  {
    hide BoundBefore, AllFail;
    assert |"COMPLETED"| != |"COMPLETED_WITH_ERRORS"| && |"COMPLETED"| != |"COMPLETED_WITH_FALLBACKS"|
        && |"COMPLETED_WITH_ERRORS"| != |"COMPLETED_WITH_FALLBACKS"|;
    forall i | 0 <= i < |records|
      ensures records[i] in records && (records[i].Degraded? <==> AllFail(allowed, scripts[i]))
    {
      GenerationIff(allowed, scripts[i], BoundBefore(allowed, scripts, i));
    }
    forall i | 0 <= i < |records|
      ensures records[i] in records
      ensures Clean(allowed, scripts[i]) <==> !records[i].Degraded? && records[i].status != FALLBACK
    {
    }
  }
}
