/** The mutable records of the runtime, as values, with the lookups every operation uses. */
module Records {
  import opened Base
  import opened Spec
  import opened Lifecycle
  import Quorum
  import Consensus
  import Arbitration

  type RuntimeSpec = EnsembleSpec<real>

  // ---- Participants -----------------------------------------------------------------------

  datatype ParticipantStatus =
    | StatusCurrent | StatusUnavailable | StatusFailed | StatusFenced | StatusRevalidation | StatusRetired

  datatype Profile = Profile(
    protocolVersion: nat,
    capabilityMask: nat,
    taskClass: nat,
    outputSchema: nat,
    modelFamily: nat,
    backendFeatures: nat)

  const NO_PROFILE: Profile := Profile(1, 0, 0, 0, 0, 0)

  function BitAnd(a: nat, b: nat): nat {
    if a == 0 || b == 0 then 0 else (a % 2) * (b % 2) + 2 * BitAnd(a / 2, b / 2)
  }

  predicate Compatible(r: Requirement, p: Profile) {
    && p.protocolVersion >= r.minProtocolVersion
    && (r.requiredCapabilities != 0 ==> BitAnd(p.capabilityMask, r.requiredCapabilities) == r.requiredCapabilities)
    && (r.requiredTaskClass != 0 ==> p.taskClass == r.requiredTaskClass)
    && (r.requiredOutputSchema != 0 ==> p.outputSchema == r.requiredOutputSchema)
    && (r.excludedModelFamily != 0 ==> p.modelFamily != r.excludedModelFamily)
    && (r.requiredBackendFeatures != 0 ==> BitAnd(p.backendFeatures, r.requiredBackendFeatures) == r.requiredBackendFeatures)
  }

  /** A logical participant and the physical worker incarnation that currently serves it. */
  datatype Participant = Participant(
    id: nat,
    generation: nat,
    declaration: ParticipantSpec,
    status: ParticipantStatus,
    worker: nat,
    workerBoot: nat,
    epoch: nat,
    profile: Profile,
    registered: bool,
    replacementCount: nat,
    fallbackActivated: bool) {

    predicate Authoritative(currentEpoch: nat) {
      registered && status == StatusCurrent && epoch == currentEpoch
    }

    predicate Capable() {
      status == StatusCurrent || status == StatusRevalidation
    }
  }

  // ---- Candidates and evidence --------------------------------------------------------------

  /** Where and when the present attempt of a slot ran. */
  datatype Trace = Trace(
    worker: nat,
    workerBoot: nat,
    epoch: nat,
    dispatchSequence: nat,
    receivedSequence: nat,
    budgetUnitsUsed: nat,
    latency: nat)

  const NO_TRACE: Trace := Trace(0, 0, 0, 0, 0, 0, 0)

  /** One logical candidate slot; a retry advances `generation` inside the same slot. */
  datatype Candidate = Candidate(
    id: nat,
    generation: nat,
    participant: nat,
    participantGeneration: nat,
    role: Role,
    stage: nat,
    state: CandidateState,
    attempt: nat,
    attemptsUsed: nat,
    payload: seq<byte>,
    failure: Option<Error>,
    fallback: bool,
    current: bool,
    trace: Trace)

  datatype Verification = Pass | Fail | AbstainVerification | UnknownVerification

  datatype Judgment = Accept | Reject | AbstainJudgment | UnknownJudgment

  datatype Evaluation = Evaluation(
    id: nat,
    generation: nat,
    evaluator: nat,
    evaluatorGeneration: nat,
    role: Role,
    candidate: nat,
    candidateGeneration: nat,
    criterion: Criterion,
    kind: CriterionKind,
    verification: Verification,
    judgment: Judgment,
    scoreDefined: bool,
    score: real,
    weight: real,
    receivedSequence: nat,
    epoch: nat,
    worker: nat,
    workerBoot: nat,
    fingerprint: nat,
    current: bool)

  datatype Pending = Pending(
    id: nat,
    generation: nat,
    evaluator: nat,
    evaluatorGeneration: nat,
    role: Role,
    candidate: nat,
    candidateGeneration: nat,
    criterion: Criterion,
    kind: CriterionKind,
    emitted: bool,
    answered: bool,
    abandoned: bool)

  // ---- Executions, ensembles, runtime -------------------------------------------------------

  datatype ExecutionStatus =
    | ExecOpen | ExecCommitted | ExecCancelled | ExecSuperseded | ExecRevalidation | ExecFailed | ExecNoEligible

  datatype Decision =
    | DecisionPending | DecisionCommitted | DecisionCancelled | DecisionSuperseded | DecisionFailed
    | DecisionRevalidation | DecisionNoEligible | DecisionFallbackRequired

  datatype Result = Result(
    id: nat,
    generation: nat,
    ensemble: nat,
    ensembleGeneration: nat,
    execution: nat,
    attemptGeneration: nat,
    epoch: nat,
    decision: Decision,
    hasSelected: bool,
    selectedCandidate: nat,
    selectedCandidateGeneration: nat,
    selectedParticipant: nat,
    selectedParticipantGeneration: nat,
    selectedRole: Role,
    payload: seq<byte>,
    quorum: Quorum.QuorumReport,
    consensus: Consensus.ConsensusReport,
    arbitration: Arbitration.Report,
    fallbackUsed: bool,
    fallbackDepth: nat,
    commitSequence: nat,
    fingerprint: nat)

  /** Everything the commit fingerprint digests. */
  datatype CommitContent = CommitContent(
    ensemble: nat,
    ensembleGeneration: nat,
    execution: nat,
    attemptGeneration: nat,
    epoch: nat,
    decision: Decision,
    hasSelected: bool,
    selectedCandidate: nat,
    selectedCandidateGeneration: nat,
    selectedParticipant: nat,
    payload: seq<byte>,
    fallbackUsed: bool,
    fallbackDepth: nat,
    consensus: Consensus.ConsensusState)

  function ContentOf(r: Result): CommitContent {
    CommitContent(r.ensemble, r.ensembleGeneration, r.execution, r.attemptGeneration, r.epoch, r.decision, r.hasSelected,
                  r.selectedCandidate, r.selectedCandidateGeneration, r.selectedParticipant, r.payload,
                  r.fallbackUsed, r.fallbackDepth, r.consensus.state)
  }

  /** The three derived reports and the number of times they were recomputed. */
  datatype ReportSet = ReportSet(
    generation: nat,
    quorum: Quorum.QuorumReport,
    consensus: Consensus.ConsensusReport,
    arbitration: Arbitration.Report)

  const NO_REPORTS: ReportSet :=
    ReportSet(0, Quorum.EMPTY_REPORT, Consensus.EMPTY_CONSENSUS, Arbitration.EMPTY_ARBITRATION)

  datatype Execution = Execution(
    id: nat,
    attemptGeneration: nat,
    status: ExecutionStatus,
    epoch: nat,
    candidates: seq<Candidate>,
    evaluations: seq<Evaluation>,
    pending: seq<Pending>,
    extraStages: seq<Stage>,
    stageIndex: nat,
    declaredCurrentStage: bool,
    planningComplete: bool,
    fallbackActivated: bool,
    fallbackDepth: nat,
    cancellationRequested: bool,
    cancellationEmitted: bool,
    result: Option<Result>,
    reports: ReportSet)

  function FreshExecution(id: nat, epoch: nat): Execution {
    Execution(id, 1, ExecOpen, epoch, [], [], [], [], 0, false, false, false, 0, false, false, None, NO_REPORTS)
  }

  datatype Ensemble = Ensemble(
    spec: RuntimeSpec,
    participants: seq<Participant>,
    execution: Option<Execution>,
    superseded: bool,
    history: seq<Result>)

  /** Next value of every identity allocator. */
  datatype Ids = Ids(ensemble: nat, candidate: nat, evaluation: nat, result: nat, sequence: nat)

  /** Every allocator starts at 1 and stops at the last 64-bit value. */
  predicate InRange(ids: Ids) {
    && 1 <= ids.ensemble <= U64_MAX && 1 <= ids.candidate <= U64_MAX && 1 <= ids.evaluation <= U64_MAX
    && 1 <= ids.result <= U64_MAX && 1 <= ids.sequence <= U64_MAX
  }

  datatype Counters = Counters(
    commitsAccepted: nat,
    commitsRejectedConflicting: nat,
    commitsRejectedStale: nat,
    staleSubmissionsRejected: nat,
    duplicateSubmissionsSuppressed: nat,
    duplicateVotesSuppressed: nat,
    fallbackActivations: nat,
    cancellations: nat,
    supersessions: nat,
    revalidationsRequired: nat)

  const NO_COUNTERS: Counters := Counters(0, 0, 0, 0, 0, 0, 0, 0, 0, 0)

  /** Recomputes the reports of an execution from its specification, supersession flag and participants. */
  type Kernel = (RuntimeSpec, bool, seq<Participant>, Execution) -> ReportSet

  /**
   `kernel` is the decision kernel and `commitHash` the digest behind the commit fingerprint; the
   state machine calls both and depends on neither until a property says so.
   */
  datatype Config = Config(limits: Limits, commitHash: CommitContent -> nat, kernel: Kernel)

  datatype State = State(
    config: Config,
    epoch: nat,
    ids: Ids,
    counters: Counters,
    ensembles: map<nat, Ensemble>)

  // ---- Identity allocation ------------------------------------------------------------------

  /** The identity handed out and the allocator afterwards, or `None` when the 64-bit space is exhausted. */
  function Allocate(next: nat): Option<(nat, nat)> {
    if next >= U64_MAX then None else Some((next, next + 1))
  }

  function Observe(next: nat, id: nat): nat {
    if next <= id < U64_MAX then id + 1 else next
  }

  /** Sequence numbers never run out visibly: an exhausted allocator answers 1. */
  function SequenceValue(ids: Ids): nat {
    if ids.sequence == U64_MAX then 1 else ids.sequence
  }

  function AfterSequence(ids: Ids): Ids {
    if ids.sequence == U64_MAX then ids else ids.(sequence := ids.sequence + 1)
  }

  // ---- Lookups ------------------------------------------------------------------------------

  function FindParticipant(ps: seq<Participant>, id: nat): (r: Option<nat>)
    ensures r.Some? ==> r.value < |ps| && ps[r.value].id == id
    ensures r.None? ==> forall p :: p in ps ==> p.id != id
  {
    if ps == [] then None
    else if ps[0].id == id then Some(0)
    else match FindParticipant(ps[1..], id) case None => None case Some(k) => Some(k + 1)
  }

  function FindCandidate(cs: seq<Candidate>, id: nat): (r: Option<nat>)
    ensures r.Some? ==> r.value < |cs| && cs[r.value].id == id
    ensures r.None? ==> forall c :: c in cs ==> c.id != id
  {
    if cs == [] then None
    else if cs[0].id == id then Some(0)
    else match FindCandidate(cs[1..], id) case None => None case Some(k) => Some(k + 1)
  }

  function FindPending(ps: seq<Pending>, id: nat): (r: Option<nat>)
    ensures r.Some? ==> r.value < |ps| && ps[r.value].id == id
    ensures r.None? ==> forall p :: p in ps ==> p.id != id
  {
    if ps == [] then None
    else if ps[0].id == id then Some(0)
    else match FindPending(ps[1..], id) case None => None case Some(k) => Some(k + 1)
  }

  // ---- Authorities --------------------------------------------------------------------------

  datatype ParticipantAuthority = ParticipantAuthority(
    ensemble: nat,
    ensembleGeneration: nat,
    participant: nat,
    participantGeneration: nat,
    worker: nat,
    workerBoot: nat,
    epoch: nat) {

    predicate Complete() {
      && ensemble != 0 && ensembleGeneration != 0 && participant != 0 && participantGeneration != 0
      && worker != 0 && workerBoot != 0 && epoch != 0
    }
  }

  datatype CandidateAuthority = CandidateAuthority(
    participant: ParticipantAuthority,
    execution: nat,
    attemptGeneration: nat,
    candidate: nat,
    candidateGeneration: nat) {

    predicate Complete() {
      && participant.Complete() && execution != 0 && attemptGeneration != 0 && candidate != 0 && candidateGeneration != 0
    }
  }

  datatype EvaluationAuthority = EvaluationAuthority(
    evaluator: ParticipantAuthority,
    execution: nat,
    attemptGeneration: nat,
    evaluation: nat,
    evaluationGeneration: nat,
    candidate: nat,
    candidateGeneration: nat) {

    predicate Complete() {
      && evaluator.Complete() && execution != 0 && attemptGeneration != 0 && evaluation != 0 && evaluationGeneration != 0
      && candidate != 0 && candidateGeneration != 0
    }
  }

  /** Rejections that name a historical generation, boot or epoch; each one is counted. */
  predicate IsStale(e: Error) {
    e == StaleCoordinatorEpoch || e == StaleEnsembleGeneration || e == StaleExecutionGeneration
    || e == StaleParticipantGeneration || e == StaleWorkerBoot || e == StaleCandidateGeneration
    || e == StaleEvaluationGeneration
  }

  function CountStale(s: State, e: Error): State {
    if IsStale(e)
    then s.(counters := s.counters.(staleSubmissionsRejected := s.counters.staleSubmissionsRejected + 1))
    else s
  }

  // ---- Actions ------------------------------------------------------------------------------

  /** Which execution of which ensemble generation. */
  datatype ExecutionKey = ExecutionKey(ensemble: nat, generation: nat, execution: nat)

  datatype Action =
    | DispatchAction(key: ExecutionKey, candidate: nat, candidateGeneration: nat, participant: nat,
                     participantGeneration: nat, role: Role, stage: nat, attempt: nat, sequence: nat)
    | EvaluationAction(key: ExecutionKey, evaluation: nat, evaluationGeneration: nat, judge: nat, judgeGeneration: nat,
                       judgeRole: Role, target: nat, targetGeneration: nat, criterion: Criterion,
                       kind: CriterionKind, sequence: nat)
    | CancelAction(key: ExecutionKey, participant: nat, participantGeneration: nat, candidate: nat,
                   candidateGeneration: nat, sequence: nat)
    | FallbackAction(key: ExecutionKey, participant: nat, participantGeneration: nat, trigger: Trigger, depth: nat,
                     sequence: nat)
}
