/** Recomputation of quorum, consensus and arbitration from the current evidence of an execution. */
module Reports {
  import opened Base
  import opened Spec
  import opened Lifecycle
  import opened Records
  import Quorum
  import Consensus
  import Arbitration

  // ---- Evidence summary of one candidate ----------------------------------------------------

  /** Evidence about the present generation of `c`, not superseded. */
  predicate Relevant(e: Evaluation, c: Candidate) {
    e.candidate == c.id && e.current && e.candidateGeneration == c.generation
  }

  function EmptySummary(c: Candidate): Arbitration.Summary {
    Arbitration.Summary(c.id, c.generation, 0, 0, 0, 0, 0, [], 0, 0, 0, 0, 0, 0, 0, false, 0.0, 0.0, 0.0, 0.0)
  }

  function AddJudgment(s: Arbitration.Summary, e: Evaluation): Arbitration.Summary {
    match e.judgment
    case Accept => s.(accepts := s.accepts + 1)
    case Reject => s.(rejects := s.rejects + 1)
    case AbstainJudgment => s.(abstentions := s.abstentions + 1)
    case UnknownJudgment => s.(unknowns := s.unknowns + 1)
  }

  function AddHard(s: Arbitration.Summary, e: Evaluation): Arbitration.Summary {
    if e.kind != HardPredicate then s
    else
      var t := s.(hardPredicates := s.hardPredicates + 1);
      match e.verification
      case Pass => t
      case Fail => t.(hardFailures := t.hardFailures + 1)
      case _ => t.(hardUnknowns := t.hardUnknowns + 1)
  }

  function AddVerification(s: Arbitration.Summary, e: Evaluation): Arbitration.Summary {
    match e.verification
    case Pass => s.(verifierPass := s.verifierPass + 1)
    case Fail => s.(verifierFail := s.verifierFail + 1)
    case AbstainVerification => s.(verifierAbstain := s.verifierAbstain + 1)
    case UnknownVerification => s.(verifierUnknown := s.verifierUnknown + 1)
  }

  function AddScore(s: Arbitration.Summary, e: Evaluation): Arbitration.Summary {
    if !e.scoreDefined then s
    else s.(
      scored := true,
      weightedScoreSum := s.weightedScoreSum + e.score * e.weight,
      weightSum := s.weightSum + e.weight,
      minScore := if !s.scored || e.score < s.minScore then e.score else s.minScore,
      maxScore := if !s.scored || e.score > s.maxScore then e.score else s.maxScore)
  }

  function AddEvaluation(s: Arbitration.Summary, e: Evaluation): Arbitration.Summary {
    var t := s.(
      evaluations := s.evaluations + 1,
      evaluators := if e.evaluator in s.evaluators then s.evaluators else s.evaluators + [e.evaluator]);
    AddScore(AddVerification(AddHard(AddJudgment(t, e), e), e), e)
  }

  function Summarize(evaluations: seq<Evaluation>, c: Candidate): Arbitration.Summary {
    if evaluations == [] then EmptySummary(c)
    else
      var n := |evaluations| - 1;
      var s := Summarize(evaluations[..n], c);
      if Relevant(evaluations[n], c) then AddEvaluation(s, evaluations[n]) else s
  }

  // ---- Inputs of the three computations -----------------------------------------------------

  function MemberOf(p: Participant, epoch: nat): Quorum.Member {
    Quorum.Member(
      p.id, p.generation, p.declaration.roles, p.declaration.required, p.Authoritative(epoch),
      p.status != StatusUnavailable && p.status != StatusFenced && p.status != StatusRetired,
      p.status == StatusFailed, p.fallbackActivated, p.status != StatusRetired)
  }

  function Membership(ps: seq<Participant>, epoch: nat): seq<Quorum.Member> {
    seq(|ps|, i requires 0 <= i < |ps| => MemberOf(ps[i], epoch))
  }

  function VoteOf(e: Evaluation): Quorum.Vote {
    Quorum.Vote(e.evaluator, e.evaluatorGeneration, e.role, e.candidate, e.candidateGeneration, e.weight,
                e.judgment == AbstainJudgment || e.verification == AbstainVerification)
  }

  function Votes(evaluations: seq<Evaluation>): seq<Quorum.Vote> {
    if evaluations == [] then []
    else
      var n := |evaluations| - 1;
      Votes(evaluations[..n]) + (if evaluations[n].current then [VoteOf(evaluations[n])] else [])
  }

  function EmptyTally(c: Candidate): Consensus.Tally {
    Consensus.Tally(c.id, c.generation, c.participant, IsContent(c.state), 0, 0, 0, 0.0, [], [], [])
  }

  function AddVote(t: Consensus.Tally, e: Evaluation): Consensus.Tally {
    match e.judgment
    case Accept => t.(agreeing := t.agreeing + 1, weightedAgree := t.weightedAgree + e.weight,
                      agreeingMembers := t.agreeingMembers + [e.evaluator])
    case Reject => t.(disagreeing := t.disagreeing + 1, disagreeingMembers := t.disagreeingMembers + [e.evaluator])
    case AbstainJudgment => t.(abstaining := t.abstaining + 1, abstainingMembers := t.abstainingMembers + [e.evaluator])
    case UnknownJudgment => t
  }

  function TallyOf(evaluations: seq<Evaluation>, c: Candidate): (t: Consensus.Tally)
    ensures t.candidate == c.id && t.generation == c.generation && t.eligible == IsContent(c.state)
  {
    if evaluations == [] then EmptyTally(c)
    else
      var n := |evaluations| - 1;
      var t := TallyOf(evaluations[..n], c);
      if Relevant(evaluations[n], c) then AddVote(t, evaluations[n]) else t
  }

  function Tallies(x: Execution): seq<Consensus.Tally> {
    seq(|x.candidates|, i requires 0 <= i < |x.candidates| => TallyOf(x.evaluations, x.candidates[i]))
  }

  predicate RequiredFailed(ps: seq<Participant>) {
    exists p :: p in ps && p.declaration.required && p.status == StatusFailed
  }

  function InputOf(spec: RuntimeSpec, ps: seq<Participant>, x: Execution, c: Candidate): Arbitration.Input {
    var found := FindParticipant(ps, c.participant);
    var summary := Summarize(x.evaluations, c);
    var generationCurrent := c.current && c.generation != 0;
    match found
    case None => Arbitration.Input(
      c.id, c.generation, c.participant, c.participantGeneration, c.role, c.state, generationCurrent,
      false, false, false, c.fallback, false, 0, c.trace.budgetUnitsUsed, c.trace.latency, 0, |c.payload|, summary)
    case Some(k) =>
      var p := ps[k];
      Arbitration.Input(
        c.id, c.generation, c.participant, c.participantGeneration, c.role, c.state, generationCurrent,
        p.Authoritative(x.epoch), Compatible(p.declaration.compatibility, p.profile), p.declaration.required, c.fallback,
        p.declaration.Selectable(), p.declaration.priority, c.trace.budgetUnitsUsed, c.trace.latency,
        if p.declaration.domain != [] && p.declaration.domain == spec.taskClass then 1 else 0,
        |c.payload|, summary)
  }

  function InputsOf(spec: RuntimeSpec, ps: seq<Participant>, x: Execution): seq<Arbitration.Input> {
    seq(|x.candidates|, i requires 0 <= i < |x.candidates| => InputOf(spec, ps, x, x.candidates[i]))
  }

  function ArbitrationInputs(spec: RuntimeSpec, ps: seq<Participant>, x: Execution, quorumReached: bool): Arbitration.Inputs {
    Arbitration.Inputs(InputsOf(spec, ps, x), spec.arbitration, spec.aggregation, spec.evidence, quorumReached,
                       spec.generation, x.epoch, x.reports.generation)
  }

  // ---- Fallback triggers --------------------------------------------------------------------

  function CapableHolders(ps: seq<Participant>, role: Role): nat {
    CountIf(ps, (p: Participant) => p.declaration.roles.Contains(role) && p.Capable())
  }

  predicate EvaluatorCapable(ps: seq<Participant>, id: nat) {
    var k := FindParticipant(ps, id);
    k.Some? && ps[k.value].Capable()
  }

  /** The consensus outcomes that count as judges disagreeing. */
  predicate Disagreeing(s: Consensus.ConsensusState) {
    s == Consensus.Disagreement || s == Consensus.Tie || s == Consensus.InsufficientEvidence
  }

  predicate TriggerFires(t: Trigger, spec: RuntimeSpec, ps: seq<Participant>, x: Execution) {
    match t
    case TriggerParticipantUnavailable =>
      exists p :: p in ps && p.declaration.required
        && (p.status == StatusUnavailable || p.status == StatusFenced || (p.status == StatusFailed && !p.registered))
    case TriggerRequiredParticipantFailed => RequiredFailed(ps)
    case TriggerRetryExhausted =>
      exists c :: c in x.candidates && c.state == Failed && c.attemptsUsed >= spec.retry.maxAttempts
    case TriggerAllPrimaryInvalid =>
      && (exists c :: c in x.candidates && !c.fallback)
      && (forall c :: c in x.candidates && !c.fallback ==> !IsContent(c.state))
    case TriggerQuorumImpossible => x.reports.quorum.state == Quorum.QuorumImpossible
    case TriggerRequiredRoleUnavailable =>
      exists q :: q in spec.quorum.roleQuota && CapableHolders(ps, q.role) < q.minCount
    case TriggerInsufficientEvidence =>
      forall p :: p in Evaluators(spec) ==> !EvaluatorCapable(ps, p.id)
    case TriggerJudgeDisagreement => Disagreeing(x.reports.consensus.state)
  }

  /** The first configured trigger that fires, in configuration order. */
  function FirstTrigger(triggers: seq<Trigger>, spec: RuntimeSpec, ps: seq<Participant>, x: Execution): (r: Option<Trigger>)
    ensures r.None? <==> forall t :: t in triggers ==> !TriggerFires(t, spec, ps, x)
  {
    if triggers == [] then None
    else if TriggerFires(triggers[0], spec, ps, x) then Some(triggers[0])
    else FirstTrigger(triggers[1..], spec, ps, x)
  }

  predicate FallbackContent(x: Execution) {
    exists c :: c in x.candidates && c.fallback && IsContent(c.state)
  }

  /** A fallback is still demanded, but the depth to request one is used up. */
  predicate FallbackDemanded(spec: RuntimeSpec, ps: seq<Participant>, x: Execution) {
    && spec.fallback.enabled
    && x.fallbackDepth >= spec.fallback.maxDepth
    && !FallbackContent(x)
    && FirstTrigger(spec.fallback.triggers, spec, ps, x).Some?
  }

  // ---- The recomputation --------------------------------------------------------------------

  function ValidCandidates(cs: seq<Candidate>): nat {
    CountIf(cs, (c: Candidate) => IsContent(c.state))
  }

  function InvalidCandidates(cs: seq<Candidate>): nat {
    CountIf(cs, (c: Candidate) => c.state == Invalid || c.state == Failed)
  }

  function QuorumStep(spec: RuntimeSpec, ps: seq<Participant>, x: Execution): Quorum.QuorumReport {
    var votes := Votes(x.evaluations);
    Quorum.QuorumOf(spec.quorum, Membership(ps, x.epoch), votes, ValidCandidates(x.candidates), spec.generation, x.epoch,
                    x.reports.generation).(evaluations := |votes|)
  }

  function ConsensusInputsOf(spec: RuntimeSpec, superseded: bool, ps: seq<Participant>, x: Execution,
                             fallbackRequired: bool): Consensus.ConsensusInputs {
    Consensus.ConsensusInputs(
      x.reports.quorum, Tallies(x), |x.candidates|, InvalidCandidates(x.candidates), RequiredFailed(ps),
      spec.completion.requireAllRequiredParticipants, x.status == ExecCancelled, x.status == ExecSuperseded || superseded,
      x.status == ExecRevalidation, fallbackRequired, Evaluators(spec) != [], spec.generation, x.epoch, x.reports.generation)
  }

  function ConsensusStep(spec: RuntimeSpec, superseded: bool, ps: seq<Participant>, x: Execution): Consensus.ConsensusReport {
    Consensus.ConsensusOf(ConsensusInputsOf(spec, superseded, ps, x, FallbackDemanded(spec, ps, x)))
  }

  function ArbitrationStep(spec: RuntimeSpec, ps: seq<Participant>, x: Execution): Arbitration.Report {
    Arbitration.ArbitrationOf(ArbitrationInputs(spec, ps, x, x.reports.quorum.state == Quorum.QuorumReached))
  }

  function WithReports(x: Execution, reports: ReportSet): Execution {
    x.(reports := reports)
  }

  /** Quorum first, then consensus on top of it (still seeing the previous consensus), then arbitration. */
  function ReportsOf(spec: RuntimeSpec, superseded: bool, ps: seq<Participant>, x: Execution): ReportSet {
    var r0 := x.reports.(generation := x.reports.generation + 1);
    var r1 := r0.(quorum := QuorumStep(spec, ps, WithReports(x, r0)));
    var r2 := r1.(consensus := ConsensusStep(spec, superseded, ps, WithReports(x, r1)));
    r2.(arbitration := ArbitrationStep(spec, ps, WithReports(x, r2)))
  }

  function ComputeReports(spec: RuntimeSpec, superseded: bool, ps: seq<Participant>, x: Execution): Execution {
    WithReports(x, ReportsOf(spec, superseded, ps, x))
  }

  /** The configured kernel is the recomputation above. */
  ghost predicate Faithful(kernel: Kernel) {
    forall spec, superseded, ps, x {:trigger kernel(spec, superseded, ps, x)} ::
      kernel(spec, superseded, ps, x) == ReportsOf(spec, superseded, ps, x)
  }
}
