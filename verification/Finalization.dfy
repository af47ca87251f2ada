/** Preparation and commit of the single authoritative result, and the checks of `finalize`. */
module Finalization {
  import opened Base
  import opened Spec
  import opened Lifecycle
  import opened Records
  import opened Participants
  import opened Definition
  import opened Reports
  import opened Progress
  import Quorum
  import Consensus
  import Arbitration

  /** Terminal consensus states decide alone; every other one commits exactly when a selection exists. */
  function DecisionFor(state: Consensus.ConsensusState, hasSelection: bool): Decision {
    match state
    case ConsensusCancelled => DecisionCancelled
    case ConsensusSuperseded => DecisionSuperseded
    case ConsensusRevalidationRequired => DecisionRevalidation
    case FallbackRequired => DecisionFallbackRequired
    case QuorumNotReachedState => DecisionFailed
    case QuorumImpossibleState => DecisionFailed
    case RequiredParticipantFailedState => DecisionFailed
    case _ => if hasSelection then DecisionCommitted else DecisionNoEligible
  }

  /** What `finalize` answers for a decision other than COMMITTED. */
  function ConsensusError(state: Consensus.ConsensusState): Error {
    match state
    case QuorumNotReachedState => QuorumNotReachedError
    case QuorumImpossibleState => QuorumImpossibleError
    case Disagreement => DisagreementUnresolved
    case Tie => TieUnresolved
    case InsufficientEvidence => EvidenceInsufficient
    case RequiredParticipantFailedState => RequiredParticipantFailed
    case AllCandidatesInvalid => EveryCandidateInvalid
    case NoEligibleCandidate => NobodyEligible
    case FallbackRequired => FallbackNotAuthorized
    case ConsensusCancelled => EnsembleCancelled
    case ConsensusSuperseded => EnsembleSuperseded
    case ConsensusRevalidationRequired => RevalidationRequired
    case _ => ConsensusNotReached
  }

  function StatusFor(d: Decision): ExecutionStatus {
    match d
    case DecisionCommitted => ExecCommitted
    case DecisionCancelled => ExecCancelled
    case DecisionSuperseded => ExecSuperseded
    case DecisionRevalidation => ExecRevalidation
    case DecisionNoEligible => ExecNoEligible
    case _ => ExecFailed
  }

  predicate TieResolvedByPolicy(spec: RuntimeSpec, x: Execution) {
    x.reports.consensus.state == Consensus.Tie && spec.arbitration.tieBreak != ReportTie && !x.reports.arbitration.tieUnresolved
  }

  predicate HasSelection(spec: RuntimeSpec, x: Execution) {
    && x.reports.arbitration.selected != 0
    && !x.reports.arbitration.noEligibleCandidate
    && !x.reports.arbitration.tieUnresolved
    && (Consensus.Resolved(x.reports.consensus.state) || TieResolvedByPolicy(spec, x))
  }

  function Draft(spec: RuntimeSpec, x: Execution): Result {
    Result(x.id, 1, spec.id, spec.generation, x.id, x.attemptGeneration, x.epoch,
           DecisionFor(x.reports.consensus.state, HasSelection(spec, x)), false, 0, 0, 0, 0, CandidateRole, [],
           x.reports.quorum, x.reports.consensus, x.reports.arbitration, x.fallbackActivated, x.fallbackDepth, 0, 0)
  }

  function Sealed(config: Config, r: Result): Result {
    r.(fingerprint := config.commitHash(ContentOf(r)))
  }

  function WithSelected(r: Result, c: Candidate): Result {
    r.(hasSelected := true, selectedCandidate := c.id, selectedCandidateGeneration := c.generation,
       selectedParticipant := c.participant, selectedParticipantGeneration := c.participantGeneration,
       selectedRole := c.role, payload := c.payload)
  }

  /** The result an execution would publish, from its freshly computed reports. */
  function Conclusion(config: Config, spec: RuntimeSpec, x: Execution): Outcome<Result> {
    var draft := Draft(spec, x);
    if draft.decision == DecisionCommitted && HasSelection(spec, x) then
      match FindCandidate(x.candidates, x.reports.arbitration.selected)
      case None => Err(InternalError)
      case Some(k) =>
        if !IsContent(x.candidates[k].state) then Err(InternalError)
        else Ok(Sealed(config, WithSelected(draft, x.candidates[k])))
    else Ok(Sealed(config, draft))
  }

  function Prepare(s: State, id: nat, generation: nat): (State, Outcome<Result>) {
    match GenerationFault(s, id, generation)
    case Some(error) => (s, Err(error))
    case None =>
      var e := s.ensembles[id];
      if e.execution.None? then (s, Err(UnknownExecution))
      else if e.execution.value.result.Some? then (s, Ok(e.execution.value.result.value))
      else
        var x := WithReports(e.execution.value, s.config.kernel(e.spec, e.superseded, e.participants, e.execution.value));
        (Put(s, id, e.(execution := Some(x))), Conclusion(s.config, e.spec, x))
  }

  // ---- Commit -----------------------------------------------------------------------------------

  function ValidateResult(r: Result, spec: RuntimeSpec, epoch: nat): Option<Error> {
    if r.ensemble != spec.id then Some(InvalidArgument)
    else if r.ensembleGeneration != spec.generation then Some(StaleEnsembleGeneration)
    else if r.epoch != epoch then Some(StaleCoordinatorEpoch)
    else if r.execution == 0 || r.attemptGeneration == 0 then Some(InvalidIdentityCombination)
    else if r.decision == DecisionCommitted && !r.hasSelected then Some(InvalidArgument)
    else None
  }

  /** Why an execution without a result may not get one. */
  function PublicationFault(e: Ensemble, x: Execution): Option<Error> {
    if x.cancellationRequested || x.status == ExecCancelled then Some(EnsembleCancelled)
    else if x.status == ExecSuperseded || e.superseded then Some(EnsembleSuperseded)
    else if x.status == ExecRevalidation then Some(RevalidationRequired)
    else None
  }

  function Marked(c: Candidate, selected: nat): Candidate {
    if c.id == selected then c.(state := Selected)
    else if IsContent(c.state) then c.(state := Rejected)
    else c
  }

  function MarkAll(cs: seq<Candidate>, selected: nat): seq<Candidate> {
    seq(|cs|, i requires 0 <= i < |cs| => Marked(cs[i], selected))
  }

  method MarkCandidates(cs: seq<Candidate>, selected: nat) returns (marked: seq<Candidate>)
    ensures marked == MarkAll(cs, selected)
  {
    marked := [];
    for i := 0 to |cs|
      invariant marked == MarkAll(cs[..i], selected)
    {
      if cs[i].id == selected {
        marked := marked + [cs[i].(state := Selected)];
      } else if IsContent(cs[i].state) {
        marked := marked + [cs[i].(state := Rejected)];
      } else {
        marked := marked + [cs[i]];
      }
    }
    assert cs[..|cs|] == cs;
  }

  function Stored(config: Config, r: Result, id: nat, sequence: nat): Result {
    Sealed(config, r.(id := id, generation := 1, commitSequence := sequence))
  }

  function Published(x: Execution, stored: Result): Execution {
    var y := x.(result := Some(stored), status := StatusFor(stored.decision));
    if stored.decision == DecisionCommitted then y.(candidates := MarkAll(x.candidates, stored.selectedCandidate)) else y
  }

  function CountCommit(s: State, r: Result): State {
    if r.decision == DecisionCommitted
    then s.(counters := s.counters.(commitsAccepted := s.counters.commitsAccepted + 1)) else s
  }

  /** The state changes of a commit, and whether it is this call that published the result. */
  datatype Commitment = Commitment(state: State, outcome: Outcome<Result>, published: bool)

  function CommitCurrent(s: State, r: Result, e: Ensemble, x: Execution): Commitment
    requires r.ensemble in s.ensembles
  {
    if x.result.Some? then
      if x.result.value.fingerprint == r.fingerprint then Commitment(s, Ok(x.result.value), false)
      else Commitment(
        s.(counters := s.counters.(commitsRejectedConflicting := s.counters.commitsRejectedConflicting + 1)),
        Err(ConflictingResultCommit), false)
    else
      match PublicationFault(e, x)
      case Some(error) => Commitment(s, Err(error), false)
      case None =>
        match Allocate(s.ids.result)
        case None => Commitment(s, Err(ResourceLimitExceeded), false)
        case Some((id, next)) =>
          var stored := Stored(s.config, r, id, SequenceValue(s.ids));
          var s1 := Put(s, r.ensemble, e.(execution := Some(Published(x, stored))))
                      .(ids := AfterSequence(s.ids).(result := next));
          Commitment(CountCommit(s1, stored), Ok(stored), true)
  }

  function Commit(s: State, r: Result): Commitment {
    if r.ensemble !in s.ensembles then Commitment(s, Err(UnknownEnsemble), false)
    else
      var e := s.ensembles[r.ensemble];
      match ValidateResult(r, e.spec, s.epoch)
      case Some(error) =>
        Commitment(
          if error == StaleEnsembleGeneration || error == StaleCoordinatorEpoch
          then s.(counters := s.counters.(commitsRejectedStale := s.counters.commitsRejectedStale + 1)) else s,
          Err(error), false)
      case None =>
        if e.execution.None? || e.execution.value.id != r.execution
        then Commitment(s, Err(StaleExecutionGeneration), false)
        else CommitCurrent(s, r, e, e.execution.value)
  }

  // ---- Finalize ---------------------------------------------------------------------------------

  /** The first critical section of `finalize`: which execution it is about to conclude. */
  function FinalizeCheck(s: State, id: nat, generation: nat): Outcome<nat> {
    match GenerationFault(s, id, generation)
    case Some(error) => Err(error)
    case None =>
      var e := s.ensembles[id];
      if e.execution.None? then Err(UnknownExecution)
      else if !ExecutionSettled(e) then Err(InvalidStateTransition)
      else
        match e.execution.value.status
        case ExecRevalidation => Err(RevalidationRequired)
        case ExecCancelled => Err(EnsembleCancelled)
        case ExecSuperseded => Err(EnsembleSuperseded)
        case _ => if e.superseded then Err(EnsembleSuperseded) else Ok(e.execution.value.id)
  }

  /** A committed result is the answer; any other decision is stored as well, but answered with its error. */
  function FinalAnswer(committed: Outcome<Result>): Outcome<Result> {
    match committed
    case Err(error) => Err(error)
    case Ok(r) => if r.decision == DecisionCommitted then Ok(r) else Err(ConsensusError(r.consensus.state))
  }

  /** `finalize` when nothing happens between its three sections. */
  function FinalizeAlone(s: State, id: nat, generation: nat): (State, Outcome<Result>) {
    match FinalizeCheck(s, id, generation)
    case Err(error) => (s, Err(error))
    case Ok(execution) =>
      var prepared := Prepare(s, id, generation);
      match prepared.1
      case Err(error) => (prepared.0, Err(error))
      case Ok(r) =>
        if r.execution != execution then (prepared.0, Err(InternalError))
        else
          var v := Commit(prepared.0, r);
          (v.state, FinalAnswer(v.outcome))
  }
}
