/** Candidate and evaluation submissions: authority first, then state, then content. */
module Ingest {
  import opened Base
  import opened Spec
  import opened Lifecycle
  import opened Records
  import opened Attempts
  import opened Participants

  // ---- Authority ------------------------------------------------------------------------------

  /** Epoch, ensemble generation, execution and the incarnation of one participant. */
  function IncarnationFault(s: State, a: ParticipantAuthority, execution: nat, attempt: nat): Option<Error> {
    if a.epoch != s.epoch then Some(StaleCoordinatorEpoch)
    else if a.ensemble !in s.ensembles then Some(UnknownEnsemble)
    else
      var e := s.ensembles[a.ensemble];
      if e.spec.generation != a.ensembleGeneration then Some(StaleEnsembleGeneration)
      else if e.execution.None? || e.execution.value.id != execution then Some(StaleExecutionGeneration)
      else if e.execution.value.attemptGeneration != attempt then Some(StaleExecutionGeneration)
      else
        match FindParticipant(e.participants, a.participant)
        case None => Some(UnknownParticipant)
        case Some(j) =>
          var p := e.participants[j];
          if p.generation != a.participantGeneration then Some(StaleParticipantGeneration)
          else if p.worker != a.worker || p.workerBoot != a.workerBoot then Some(StaleWorkerBoot)
          else if !p.Authoritative(s.epoch) then Some(ParticipantNotAuthoritative)
          else None
  }

  /** The first reason the runtime rejects a candidate-scoped authority. */
  function LocateFault(s: State, a: CandidateAuthority): Option<Error> {
    if !a.Complete() then Some(InvalidIdentityCombination)
    else
      match IncarnationFault(s, a.participant, a.execution, a.attemptGeneration)
      case Some(error) => Some(error)
      case None =>
        var x := s.ensembles[a.participant.ensemble].execution.value;
        match FindCandidate(x.candidates, a.candidate)
        case None => Some(UnknownCandidate)
        case Some(k) =>
          if x.candidates[k].generation != a.candidateGeneration then Some(StaleCandidateGeneration)
          else if x.candidates[k].participant != a.participant.participant then Some(ParticipantRoleMismatch)
          else None
  }

  /** The authority names current state in every component. */
  predicate Accepts(s: State, a: CandidateAuthority) {
    LocateFault(s, a).None?
  }

  function RejectedOutput(state: CandidateState): Error
    requires state != Dispatched
  {
    match state
    case Cancelled => ExecutionCancelled
    case Superseded => EnsembleSuperseded
    case Invalid => DuplicateCompletion
    case Valid => DuplicateCompletion
    case Eligible => DuplicateCompletion
    case Selected => DuplicateCompletion
    case Rejected => DuplicateCompletion
    case _ => InvalidStateTransition
  }

  function CountDuplicate(s: State): State {
    s.(counters := s.counters.(duplicateSubmissionsSuppressed := s.counters.duplicateSubmissionsSuppressed + 1))
  }

  /** Why a candidate submission is turned away before its content is looked at. */
  function SubmissionFault(s: State, a: CandidateAuthority): Option<Error> {
    match LocateFault(s, a)
    case Some(error) => Some(error)
    case None =>
      var x := s.ensembles[a.participant.ensemble].execution.value;
      var c := x.candidates[FindCandidate(x.candidates, a.candidate).value];
      if c.state != Dispatched then Some(RejectedOutput(c.state)) else None
  }

  /** The counters after such a rejection; a candidate that can still take output is not a duplicate. */
  function Rejecting(s: State, a: CandidateAuthority, error: Error): State {
    match LocateFault(s, a)
    case Some(e) => CountStale(s, e)
    case None =>
      var x := s.ensembles[a.participant.ensemble].execution.value;
      var c := x.candidates[FindCandidate(x.candidates, a.candidate).value];
      if InFlight(c.state) then s else CountDuplicate(s)
  }

  function WithExecution(s: State, id: nat, x: Execution): State
    requires id in s.ensembles
  {
    Put(s, id, s.ensembles[id].(execution := Some(x)))
  }

  // ---- Candidate output -----------------------------------------------------------------------

  function LatencyOf(received: nat, dispatched: nat): nat {
    if dispatched != 0 && received != 0 && received >= dispatched then (received - dispatched) % 0x1_0000_0000 else 0
  }

  function Received(c: Candidate, payload: seq<byte>, sequence: nat, budget: nat, minBytes: nat): Candidate {
    var d := c.(trace := c.trace.(receivedSequence := sequence, latency := LatencyOf(sequence, c.trace.dispatchSequence),
                                  budgetUnitsUsed := budget));
    if payload == [] || |payload| < minBytes
    then d.(state := Invalid, failure := Some(MalformedCandidate), payload := [])
    else d.(state := Valid, failure := None, payload := payload)
  }

  function SubmitCandidate(s: State, a: CandidateAuthority, payload: seq<byte>): (State, Outcome<()>) {
    match SubmissionFault(s, a)
    case Some(error) => (Rejecting(s, a, error), Err(error))
    case None =>
      if |payload| > s.config.limits.maxCandidatePayloadBytes then (s, Err(ResourceLimitExceeded))
      else if |payload| > s.config.limits.maxFrameBytes then (s, Err(PayloadTooLarge))
      else
        var e := s.ensembles[a.participant.ensemble];
        var x := e.execution.value;
        var k := FindCandidate(x.candidates, a.candidate).value;
        var p := e.participants[FindParticipant(e.participants, a.participant.participant).value];
        var c := Received(x.candidates[k], payload, SequenceValue(s.ids), p.declaration.executionBudgetUnits,
                          e.spec.evidence.minCandidatePayloadBytes);
        (WithExecution(s, a.participant.ensemble, x.(candidates := x.candidates[k := c])).(ids := AfterSequence(s.ids)),
         Ok(()))
  }

  function SubmitFailure(s: State, a: CandidateAuthority, rawKind: nat): (State, Outcome<()>) {
    match SubmissionFault(s, a)
    case Some(error) => (Rejecting(s, a, error), Err(error))
    case None =>
      match KindOf(rawKind)
      case None => (s, Err(InvalidEnumValue))
      case Some(kind) =>
        var e := s.ensembles[a.participant.ensemble];
        var x := e.execution.value;
        var k := FindCandidate(x.candidates, a.candidate).value;
        var failure := FailureOf(kind);
        var x' := if RetryAuthorized(e.spec, x.candidates[k], failure) then RewindAt(x, k) else FailAt(x, k, failure);
        (WithExecution(s, a.participant.ensemble, x'), Ok(()))
  }

  function AbstainedCandidate(c: Candidate, sequence: nat): Candidate {
    c.(state := Abstained, payload := [], trace := c.trace.(receivedSequence := sequence))
  }

  function SubmitAbstention(s: State, a: CandidateAuthority): (State, Outcome<()>) {
    match SubmissionFault(s, a)
    case Some(error) => (Rejecting(s, a, error), Err(error))
    case None =>
      var x := s.ensembles[a.participant.ensemble].execution.value;
      var k := FindCandidate(x.candidates, a.candidate).value;
      var c := AbstainedCandidate(x.candidates[k], SequenceValue(s.ids));
      (WithExecution(s, a.participant.ensemble, x.(candidates := x.candidates[k := c])).(ids := AfterSequence(s.ids)), Ok(()))
  }

  // ---- Evaluations ----------------------------------------------------------------------------

  /** `score` and `weight` are `None` when the submitted double is not finite. */
  datatype EvaluationSubmission = EvaluationSubmission(
    authority: EvaluationAuthority,
    criterion: Criterion,
    kind: CriterionKind,
    verification: Verification,
    judgment: Judgment,
    scoreDefined: bool,
    score: Option<real>,
    weight: Option<real>,
    evidenceBytes: nat,
    rationaleBytes: nat,
    fingerprint: nat)

  /** Authority of the evaluator and currency of its target. */
  function TargetFault(s: State, a: EvaluationAuthority): Option<Error> {
    if !a.Complete() then Some(InvalidIdentityCombination)
    else
      match IncarnationFault(s, a.evaluator, a.execution, a.attemptGeneration)
      case Some(error) => Some(error)
      case None =>
        var e := s.ensembles[a.evaluator.ensemble];
        var x := e.execution.value;
        var p := e.participants[FindParticipant(e.participants, a.evaluator.participant).value];
        if !p.declaration.roles.Evaluates() then Some(ParticipantRoleMismatch)
        else
          match FindCandidate(x.candidates, a.candidate)
          case None => Some(UnknownCandidate)
          case Some(k) =>
            if x.candidates[k].generation != a.candidateGeneration then Some(StaleCandidateGeneration)
            else if !IsContent(x.candidates[k].state) then Some(InvalidStateTransition)
            else None
  }

  /** The submission against the plan it answers. */
  function PlanFault(x: Execution, sub: EvaluationSubmission): Option<Error> {
    var a := sub.authority;
    match FindPending(x.pending, a.evaluation)
    case None => Some(InvalidIdentityCombination)
    case Some(j) =>
      var q := x.pending[j];
      if q.generation != a.evaluationGeneration then Some(StaleEvaluationGeneration)
      else if q.answered then Some(DuplicateEvaluation)
      else if q.abandoned then Some(RevalidationRequired)
      else if q.evaluator != a.evaluator.participant || q.candidate != a.candidate
        || q.candidateGeneration != a.candidateGeneration || q.criterion != sub.criterion || q.kind != sub.kind
      then Some(EvaluationTargetMismatch)
      else None
  }

  function ContentFault(s: State, spec: RuntimeSpec, p: Participant, sub: EvaluationSubmission): Option<Error> {
    if p.declaration.roles.verifier && sub.kind != HardPredicate then Some(MalformedEvaluation)
    else if !p.declaration.roles.verifier && sub.kind != RankingSignal then Some(MalformedEvaluation)
    else if sub.evidenceBytes > s.config.limits.maxEvaluationPayloadBytes then Some(ResourceLimitExceeded)
    else if sub.rationaleBytes > s.config.limits.maxMetadataBytes then Some(ResourceLimitExceeded)
    else if spec.evidence.requireRationale && sub.rationaleBytes == 0 then Some(MalformedEvaluation)
    else if sub.scoreDefined && sub.score.None? then Some(MalformedEvaluation)
    else if sub.weight.None? || sub.weight.value <= 0.0 then Some(MalformedEvaluation)
    else None
  }

  /** Same evaluator incarnation, same criterion, same candidate. */
  predicate SameQuestion(e: Evaluation, sub: EvaluationSubmission) {
    && e.evaluator == sub.authority.evaluator.participant
    && e.evaluatorGeneration == sub.authority.evaluator.participantGeneration
    && e.criterion == sub.criterion
    && e.candidate == sub.authority.candidate
  }

  /** The first earlier answer decides between a repeat and a contradiction. */
  function DuplicateFault(evaluations: seq<Evaluation>, sub: EvaluationSubmission): (r: Option<Error>)
    ensures r.None? <==> forall e :: e in evaluations ==> !SameQuestion(e, sub)
  {
    if evaluations == [] then None
    else if SameQuestion(evaluations[0], sub)
    then Some(if evaluations[0].fingerprint == sub.fingerprint then DuplicateEvaluation else ConflictingEvaluation)
    else DuplicateFault(evaluations[1..], sub)
  }

  method FindDuplicate(evaluations: seq<Evaluation>, sub: EvaluationSubmission) returns (r: Option<Error>)
    ensures r == DuplicateFault(evaluations, sub)
  {
    for i := 0 to |evaluations|
      invariant DuplicateFault(evaluations, sub) == DuplicateFault(evaluations[i..], sub)
    {
      if SameQuestion(evaluations[i], sub) {
        return Some(if evaluations[i].fingerprint == sub.fingerprint then DuplicateEvaluation else ConflictingEvaluation);
      }
    }
    return None;
  }

  function CountDuplicateVote(s: State): State {
    s.(counters := s.counters.(duplicateVotesSuppressed := s.counters.duplicateVotesSuppressed + 1))
  }

  /** Why an evaluation is rejected, and which counter records it. */
  datatype EvaluationFault = Plain(error: Error) | Repeated(error: Error)

  function EvaluationFaultOf(s: State, sub: EvaluationSubmission): Option<EvaluationFault> {
    var a := sub.authority;
    match TargetFault(s, a)
    case Some(error) => Some(Plain(error))
    case None =>
      var e := s.ensembles[a.evaluator.ensemble];
      var x := e.execution.value;
      var p := e.participants[FindParticipant(e.participants, a.evaluator.participant).value];
      match PlanFault(x, sub)
      case Some(DuplicateEvaluation) => Some(Repeated(DuplicateEvaluation))
      case Some(error) => Some(Plain(error))
      case None =>
        match ContentFault(s, e.spec, p, sub)
        case Some(error) => Some(Plain(error))
        case None =>
          match DuplicateFault(x.evaluations, sub)
          case Some(error) => Some(Repeated(error))
          case None => None
  }

  function EvaluationOf(s: State, sub: EvaluationSubmission, q: Pending, p: Participant): Evaluation {
    var a := sub.authority;
    Evaluation(q.id, q.generation, a.evaluator.participant, a.evaluator.participantGeneration, q.role, a.candidate,
               a.candidateGeneration, sub.criterion, sub.kind, sub.verification, sub.judgment, sub.scoreDefined,
               if sub.score.Some? then sub.score.value else 0.0, if sub.weight.Some? then sub.weight.value else 0.0,
               SequenceValue(s.ids), s.epoch, p.worker, p.workerBoot, sub.fingerprint, true)
  }

  function SubmitEvaluation(s: State, sub: EvaluationSubmission): (State, Outcome<nat>) {
    match EvaluationFaultOf(s, sub)
    case Some(Plain(error)) => (CountStale(s, error), Err(error))
    case Some(Repeated(error)) => (CountDuplicateVote(s), Err(error))
    case None =>
      var a := sub.authority;
      var e := s.ensembles[a.evaluator.ensemble];
      var x := e.execution.value;
      var j := FindPending(x.pending, a.evaluation).value;
      var p := e.participants[FindParticipant(e.participants, a.evaluator.participant).value];
      var x' := x.(evaluations := x.evaluations + [EvaluationOf(s, sub, x.pending[j], p)],
                   pending := x.pending[j := x.pending[j].(answered := true)]);
      (WithExecution(s, a.evaluator.ensemble, x').(ids := AfterSequence(s.ids)), Ok(a.evaluation))
  }
}
