/** The generation-bound ensemble specification and its structural validation. */
module Spec {
  import opened Base

  datatype Role = CandidateRole | SpecialistRole | JudgeRole | VerifierRole | FallbackRole

  /** The five-bit role mask. */
  datatype RoleSet = RoleSet(candidate: bool, specialist: bool, judge: bool, verifier: bool, fallback: bool) {
    predicate Contains(role: Role) {
      match role
      case CandidateRole => candidate
      case SpecialistRole => specialist
      case JudgeRole => judge
      case VerifierRole => verifier
      case FallbackRole => fallback
    }

    predicate ContainsAll(other: RoleSet) {
      && (other.candidate ==> candidate) && (other.specialist ==> specialist)
      && (other.judge ==> judge) && (other.verifier ==> verifier) && (other.fallback ==> fallback)
    }

    predicate Empty() {
      !candidate && !specialist && !judge && !verifier && !fallback
    }

    /** Candidate, specialist and fallback participants produce payloads. */
    predicate Produces() {
      candidate || specialist || fallback
    }

    predicate Evaluates() {
      judge || verifier
    }
  }

  datatype Criterion = Criterion(id: nat, version: nat)

  datatype CriterionKind = HardPredicate | RankingSignal

  datatype Requirement = Requirement(
    minProtocolVersion: nat,
    requiredCapabilities: nat,
    requiredTaskClass: nat,
    requiredOutputSchema: nat,
    excludedModelFamily: nat,
    requiredBackendFeatures: nat,
    requireModelFamilyDiversity: bool)

  datatype ParticipantSpec = ParticipantSpec(
    id: nat,
    name: Text,
    roles: RoleSet,
    required: bool,
    domain: Text,
    priority: nat,
    executionBudgetUnits: nat,
    selectableOverride: Option<bool>,
    compatibility: Requirement) {

    predicate Selectable() {
      match selectableOverride
      case Some(b) => b
      case None => roles.Produces()
    }
  }

  datatype TopologyMode = Parallel | Sequential

  datatype Stage = Stage(
    id: nat,
    name: Text,
    mode: TopologyMode,
    participants: seq<nat>,
    requiredDomains: seq<Text>,
    fallbackStage: bool)

  datatype RoleQuota = RoleQuota(role: Role, minCount: nat)

  datatype VoteBasis =
    | DeclaredParticipants
    | AuthoritativeParticipants
    | ContributingParticipants
    | RequiredParticipants
    | EligibleParticipants

  datatype QuorumPolicy = QuorumPolicy(
    minParticipants: nat,
    roleQuota: seq<RoleQuota>,
    minEvaluations: nat,
    minValidCandidates: nat,
    consensusThresholdPercent: nat,
    voteBasis: VoteBasis,
    countAbstentions: bool,
    countOptionalParticipants: bool,
    countFailedInDenominator: bool,
    countUnavailableInDenominator: bool,
    maxFailures: nat,
    maxAbstentions: nat)

  datatype AggregationKind =
    | BestOfN | QuorumVote | WeightedVoteKind | ConsensusThreshold | JudgeArbitration | VerifierGated

  /** `S` is the score type: `real` in the runtime, an opaque 64-bit word in the codec. */
  datatype AggregationPolicy<S> = AggregationPolicy(
    kind: AggregationKind,
    useWeights: bool,
    requireVerificationPass: bool,
    requireJudgeAcceptance: bool,
    minAggregateScore: S,
    minJudgeAcceptanceRatio: S)

  datatype Factor =
    | JudgeAcceptanceRatio | VerifierState | VoteCount | WeightedVote | AggregateScore | MinScore
    | Confidence | ParticipantPriority | SpecialistRelevance | ExecutionCost | Latency
    | ProvenanceQuality | FallbackStatus

  datatype TieBreak = ReportTie | LowestCandidateId | HighestScoreThenId | PreferRequiredParticipant

  datatype ArbitrationPolicy = ArbitrationPolicy(
    factors: seq<Factor>,
    tieBreak: TieBreak,
    requireUniqueWinner: bool,
    maxSelected: nat)

  datatype Trigger =
    | TriggerParticipantUnavailable | TriggerRetryExhausted | TriggerQuorumImpossible
    | TriggerRequiredRoleUnavailable | TriggerAllPrimaryInvalid | TriggerJudgeDisagreement
    | TriggerInsufficientEvidence | TriggerRequiredParticipantFailed

  datatype FallbackPolicy = FallbackPolicy(
    enabled: bool,
    triggers: seq<Trigger>,
    participants: seq<nat>,
    eagerSpeculative: bool,
    maxDepth: nat)

  datatype CompletionPolicy = CompletionPolicy(
    requireConsensus: bool,
    requireAllRequiredParticipants: bool,
    allowPartialResults: bool)

  datatype RetryPolicy = RetryPolicy(
    maxAttempts: nat,
    retryOnUnavailable: bool,
    retryOnTransportError: bool,
    retryOnMalformedCandidate: bool,
    retryOnParticipantFailed: bool,
    replaceParticipant: bool,
    rerunEvaluations: bool)

  datatype CancellationPolicy = CancellationPolicy(
    cancelOnRequiredFailure: bool,
    cancelOnQuorumImpossible: bool,
    preserveCommittedResults: bool)

  datatype Evidence = Evidence(
    minCandidatePayloadBytes: nat,
    minEvaluationsPerCandidate: nat,
    requireRationale: bool,
    mandatoryCriteria: seq<Criterion>,
    unknownVerificationIsFailure: bool,
    abstentionIsFailure: bool)

  datatype EnsembleSpec<S> = EnsembleSpec(
    id: nat,
    generation: nat,
    name: Text,
    taskClass: Text,
    taskClassId: nat,
    participants: seq<ParticipantSpec>,
    stages: seq<Stage>,
    quorum: QuorumPolicy,
    aggregation: AggregationPolicy<S>,
    arbitration: ArbitrationPolicy,
    fallback: FallbackPolicy,
    completion: CompletionPolicy,
    retry: RetryPolicy,
    cancellation: CancellationPolicy,
    evidence: Evidence,
    judgingCriteria: seq<Criterion>,
    requirements: Requirement,
    overallBudgetUnits: nat,
    deterministicSeed: nat,
    fingerprint: nat)

  datatype Limits = Limits(
    maxParticipantsPerEnsemble: nat,
    maxStagesPerEnsemble: nat,
    maxParallelBranches: nat,
    maxRoleQuotaEntries: nat,
    maxInFlightExecutions: nat,
    maxCandidatesPerExecution: nat,
    maxEvaluationsPerCandidate: nat,
    maxEvaluationsPerExecution: nat,
    maxRetries: nat,
    maxFallbackDepth: nat,
    maxCandidatePayloadBytes: nat,
    maxEvaluationPayloadBytes: nat,
    maxMetadataBytes: nat,
    maxFrameBytes: nat,
    maxPersistenceBytes: nat,
    maxRecordsPerSnapshot: nat,
    maxRetainedResults: nat,
    maxLabelBytes: nat) {

    predicate Valid() {
      && maxParticipantsPerEnsemble != 0 && maxStagesPerEnsemble != 0
      && maxParallelBranches != 0 && maxRoleQuotaEntries != 0
      && maxInFlightExecutions != 0
      && maxCandidatesPerExecution != 0 && maxEvaluationsPerCandidate != 0
      && maxEvaluationsPerExecution != 0
      && maxCandidatePayloadBytes != 0 && maxEvaluationPayloadBytes != 0
      && maxFrameBytes >= 128
      && maxCandidatePayloadBytes <= maxFrameBytes
      && maxMetadataBytes != 0 && maxLabelBytes != 0
      && maxRecordsPerSnapshot != 0 && maxRetainedResults != 0
      && maxPersistenceBytes >= 256
      && maxEvaluationsPerCandidate <= U32_MAX / 2
    }
  }

  const UNBOUNDED: nat := 0xFFFF_FFFF

  // ---- Lookups ----------------------------------------------------------------------------

  function FindSpec(participants: seq<ParticipantSpec>, id: nat): (r: Option<ParticipantSpec>)
    ensures r.Some? ==> r.value in participants && r.value.id == id
    ensures r.None? ==> forall p :: p in participants ==> p.id != id
  {
    if participants == [] then None
    else if participants[0].id == id then Some(participants[0])
    else FindSpec(participants[1..], id)
  }

  /** Participants that evaluate other participants' work, in declaration order. */
  function Evaluators<S>(spec: EnsembleSpec<S>): seq<ParticipantSpec> {
    Filter(spec.participants, (p: ParticipantSpec) => p.roles.Evaluates())
  }

  function JudgingCriteria<S>(spec: EnsembleSpec<S>): seq<Criterion> {
    if spec.judgingCriteria != [] then spec.judgingCriteria else [Criterion(1, 1)]
  }

  function ImplicitMembers(participants: seq<ParticipantSpec>, eager: bool): (ids: seq<nat>)
    ensures forall id :: id in ids ==> exists p :: p in participants && p.id == id
  {
    if participants == [] then []
    else
      var p := participants[0];
      (if p.roles.candidate || p.roles.specialist || (eager && p.roles.fallback) then [p.id] else [])
      + ImplicitMembers(participants[1..], eager)
  }

  /** The stages an ensemble executes: the declared ones, or one implicit parallel stage. */
  function EffectiveStages<S>(spec: EnsembleSpec<S>): seq<Stage> {
    if spec.stages != [] then spec.stages
    else
      var ids := ImplicitMembers(spec.participants, spec.fallback.eagerSpeculative);
      if ids == [] then [] else [Stage(1, [], Parallel, ids, [], false)]
  }

  // ---- Validation -------------------------------------------------------------------------

  predicate BoundedAscii(text: Text, maxBytes: nat) {
    |text| <= maxBytes && forall b :: b in text ==> b == 9 || b == 10 || 0x20 <= b <= 0x7E
  }

  predicate HasDuplicate<T(==)>(s: seq<T>) {
    exists i, j :: 0 <= i < j < |s| && s[i] == s[j]
  }

  /** First fault of the participant loop, scanning from `k` (`None`: no fault). */
  function ParticipantFault<S>(spec: EnsembleSpec<S>, limits: Limits, k: nat): Option<Error>
    decreases |spec.participants| - k
  {
    if k >= |spec.participants| then None
    else
      var p := spec.participants[k];
      if p.id == 0 then Some(InvalidArgument)
      else if exists j :: 0 <= j < k && spec.participants[j].id == p.id then Some(ParticipantDuplicate)
      else if p.roles.Empty() then Some(InvalidArgument)
      else if !BoundedAscii(p.name, limits.maxLabelBytes) then Some(InvalidArgument)
      else if !BoundedAscii(p.domain, limits.maxMetadataBytes) then Some(InvalidArgument)
      else if p.compatibility.minProtocolVersion == 0 then Some(InvalidArgument)
      else ParticipantFault(spec, limits, k + 1)
  }

  predicate ProducingMember<S>(spec: EnsembleSpec<S>, id: nat) {
    var p := FindSpec(spec.participants, id);
    p.Some? && p.value.roles.Produces()
  }

  predicate DomainSatisfied<S>(spec: EnsembleSpec<S>, stage: Stage, domain: Text) {
    exists id :: id in stage.participants
      && FindSpec(spec.participants, id).Some? && FindSpec(spec.participants, id).value.domain == domain
  }

  /** First fault of the stage loop, scanning from `k`. */
  function StageFault<S>(spec: EnsembleSpec<S>, limits: Limits, k: nat): Option<Error>
    decreases |spec.stages| - k
  {
    if k >= |spec.stages| then None
    else
      var st := spec.stages[k];
      if st.id == 0 then Some(InvalidArgument)
      else if exists j :: 0 <= j < k && spec.stages[j].id == st.id then Some(InvalidArgument)
      else if st.participants == [] then Some(InvalidArgument)
      else if |st.participants| > limits.maxParallelBranches then Some(ResourceLimitExceeded)
      else if exists id :: id in st.participants && !ProducingMember(spec, id) then Some(InvalidArgument)
      else if (exists d :: d in st.requiredDomains
                 && (!BoundedAscii(d, limits.maxMetadataBytes) || !DomainSatisfied(spec, st, d))) then Some(InvalidArgument)
      else StageFault(spec, limits, k + 1)
  }

  function StageSlots(stages: seq<Stage>): nat {
    if stages == [] then 0 else |stages[0].participants| + StageSlots(stages[1..])
  }

  predicate HoldsRole<S>(spec: EnsembleSpec<S>, role: Role) {
    exists p :: p in spec.participants && p.roles.Contains(role)
  }

  function FallbackFault<S>(spec: EnsembleSpec<S>, limits: Limits): Option<Error> {
    var f := spec.fallback;
    if f.enabled then
      if f.triggers == [] || f.participants == [] then Some(InvalidArgument)
      else if exists id :: id in f.participants && !(var p := FindSpec(spec.participants, id); p.Some? && p.value.roles.fallback)
      then Some(InvalidArgument)
      else if f.maxDepth == 0 || f.maxDepth > limits.maxFallbackDepth then Some(InvalidArgument)
      else None
    else if f.participants != [] then Some(InvalidArgument)
    else None
  }

  function CandidateBoundFault<S>(spec: EnsembleSpec<S>, limits: Limits): Option<Error> {
    if spec.quorum.minValidCandidates > limits.maxCandidatesPerExecution then Some(ResourceLimitExceeded)
    else if StageSlots(spec.stages) > limits.maxCandidatesPerExecution then Some(ResourceLimitExceeded)
    else if spec.stages == []
      && CountIf(spec.participants, (p: ParticipantSpec) => p.roles.candidate || p.roles.specialist)
         > limits.maxCandidatesPerExecution then Some(ResourceLimitExceeded)
    else None
  }

  /** Retry, criteria, candidate bounds and completion policy: the checks after the fallback ones. */
  function PolicyFault<S>(spec: EnsembleSpec<S>, limits: Limits): Option<Error> {
    if spec.retry.maxAttempts == 0 then Some(InvalidArgument)
    else if spec.retry.maxAttempts > (limits.maxRetries + 1) % 0x1_0000_0000 then Some(ResourceLimitExceeded)
    else if (exists c :: c in spec.evidence.mandatoryCriteria && c.id == 0)
      || HasDuplicate(spec.evidence.mandatoryCriteria) then Some(InvalidArgument)
    else if (exists c :: c in spec.judgingCriteria && c.id == 0)
      || HasDuplicate(spec.judgingCriteria) then Some(InvalidArgument)
    else if CandidateBoundFault(spec, limits).Some? then CandidateBoundFault(spec, limits)
    else if spec.completion.requireAllRequiredParticipants
      && spec.quorum.maxFailures != 0 && spec.quorum.maxFailures != UNBOUNDED then Some(InvalidArgument)
    else None
  }

  /** A quota needs a positive count, a role somebody holds, and no later entry for the same role. */
  predicate QuotaFaulty<S>(spec: EnsembleSpec<S>, i: nat)
    requires i < |spec.quorum.roleQuota|
  {
    var quotas := spec.quorum.roleQuota;
    || quotas[i].minCount == 0
    || !HoldsRole(spec, quotas[i].role)
    || exists j :: i < j < |quotas| && quotas[j].role == quotas[i].role
  }

  /** The first fault of a specification, in the order the checks are made. */
  function SpecFault<S>(spec: EnsembleSpec<S>, limits: Limits): Option<Error> {
    if !limits.Valid() then Some(InvalidArgument)
    else if spec.id == 0 then Some(InvalidArgument)
    else if !BoundedAscii(spec.name, limits.maxLabelBytes) then Some(InvalidArgument)
    else if !BoundedAscii(spec.taskClass, limits.maxMetadataBytes) then Some(InvalidArgument)
    else if spec.participants == [] then Some(InvalidArgument)
    else if |spec.participants| > limits.maxParticipantsPerEnsemble then Some(ResourceLimitExceeded)
    else if |spec.stages| > limits.maxStagesPerEnsemble then Some(ResourceLimitExceeded)
    else if |spec.quorum.roleQuota| > limits.maxRoleQuotaEntries then Some(ResourceLimitExceeded)
    else if spec.quorum.consensusThresholdPercent > 100 then Some(InvalidArgument)
    else if spec.arbitration.maxSelected != 1 then Some(InvalidArgument)
    else if ParticipantFault(spec, limits, 0).Some? then ParticipantFault(spec, limits, 0)
    else if !(exists p :: p in spec.participants && p.roles.Produces()) then Some(InvalidArgument)
    else if StageFault(spec, limits, 0).Some? then StageFault(spec, limits, 0)
    else if exists i :: 0 <= i < |spec.quorum.roleQuota| && QuotaFaulty(spec, i) then Some(InvalidArgument)
    else if spec.aggregation.requireVerificationPass && !HoldsRole(spec, VerifierRole) then Some(InvalidArgument)
    else if spec.aggregation.requireJudgeAcceptance && !HoldsRole(spec, JudgeRole) then Some(InvalidArgument)
    else if HasDuplicate(spec.arbitration.factors) then Some(InvalidArgument)
    else if HasDuplicate(spec.fallback.triggers) then Some(InvalidArgument)
    else if FallbackFault(spec, limits).Some? then FallbackFault(spec, limits)
    else PolicyFault(spec, limits)
  }

  /** What the runtime relies on once a specification has been admitted. */
  ghost predicate WellFormed<S>(spec: EnsembleSpec<S>) {
    && (forall i, j :: 0 <= i < j < |spec.participants| ==> spec.participants[i].id != spec.participants[j].id)
    && (forall i, j :: 0 <= i < j < |spec.stages| ==> spec.stages[i].id != spec.stages[j].id)
    && spec.retry.maxAttempts >= 1
    && Distinct(spec.evidence.mandatoryCriteria)
    && Distinct(spec.judgingCriteria)
    && spec.quorum.consensusThresholdPercent <= 100
  }

  lemma {:induction false} NoParticipantFault<S>(spec: EnsembleSpec<S>, limits: Limits, k: nat)
    requires ParticipantFault(spec, limits, k) == None
    ensures forall i, j :: 0 <= i < j < |spec.participants| && k <= j ==> spec.participants[i].id != spec.participants[j].id
    decreases |spec.participants| - k
  {
    if k < |spec.participants| {
      NoParticipantFault(spec, limits, k + 1);
    }
  }

  lemma {:induction false} NoStageFault<S>(spec: EnsembleSpec<S>, limits: Limits, k: nat)
    requires StageFault(spec, limits, k) == None
    ensures forall i, j :: 0 <= i < j < |spec.stages| && k <= j ==> spec.stages[i].id != spec.stages[j].id
    decreases |spec.stages| - k
  {
    if k < |spec.stages| {
      NoStageFault(spec, limits, k + 1);
    }
  }

  /** An admitted specification is well formed. */
  lemma AdmittedIsWellFormed<S>(spec: EnsembleSpec<S>, limits: Limits)
    requires SpecFault(spec, limits) == None
    ensures WellFormed(spec)
  {
    NoParticipantFault(spec, limits, 0);
    NoStageFault(spec, limits, 0);
  }
}
