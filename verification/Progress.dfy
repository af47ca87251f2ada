/** One call of `advance`: stage declaration and dispatch, evaluation planning, emission and fallback. */
module Progress {
  import opened Base
  import opened Spec
  import opened Lifecycle
  import opened Records
  import opened Attempts
  import opened Participants
  import opened Definition
  import opened Reports

  /** What an advance reads and never writes. */
  datatype Context = Context(limits: Limits, spec: RuntimeSpec, epoch: nat, kernel: Kernel)

  /** What an advance writes; `actions` are the ones performed so far, `progress` the loop flag. */
  datatype Run = Run(participants: seq<Participant>, x: Execution, ids: Ids, actions: seq<Action>, progress: bool)

  /** A loop either runs to its end or stops the whole advance with an error, keeping its writes. */
  datatype Phase = Proceed(run: Run) | Halt(run: Run, error: Error)

  function KeyOf(ctx: Context, x: Execution): ExecutionKey {
    ExecutionKey(ctx.spec.id, ctx.spec.generation, x.id)
  }

  /** The stages of an execution: the specification's, then the synthesized fallback ones. */
  function Plan(spec: RuntimeSpec, x: Execution): seq<Stage> {
    EffectiveStages(spec) + x.extraStages
  }

  // ---- Declaration ------------------------------------------------------------------------------

  function StageRole(roles: RoleSet, stage: Stage): Role {
    if stage.fallbackStage && roles.fallback then FallbackRole
    else if roles.specialist then SpecialistRole
    else if roles.candidate then CandidateRole
    else FallbackRole
  }

  predicate HasSlot(cs: seq<Candidate>, participant: nat, stage: nat) {
    exists c :: c in cs && c.participant == participant && c.stage == stage
  }

  function GenerationOf(ps: seq<Participant>, id: nat): nat {
    match FindParticipant(ps, id)
    case None => 1
    case Some(j) => ps[j].generation
  }

  function NewCandidate(id: nat, d: ParticipantSpec, stage: Stage, generation: nat): Candidate {
    Candidate(id, 1, d.id, generation, StageRole(d.roles, stage), stage.id, Declared, 1, 0, [], None,
              stage.fallbackStage, true, NO_TRACE)
  }

  function DeclareOne(ctx: Context, stage: Stage, r: Run, participant: nat): (v: Phase)
    ensures SlotsOnly(r.x, v.run.x)
  {
    match FindSpec(ctx.spec.participants, participant)
    case None => Proceed(r)
    case Some(d) =>
      if HasSlot(r.x.candidates, participant, stage.id) then Proceed(r)
      else if |r.x.candidates| >= ctx.limits.maxCandidatesPerExecution then Halt(r, ResourceLimitExceeded)
      else
        match Allocate(r.ids.candidate)
        case None => Halt(r, ResourceLimitExceeded)
        case Some((id, next)) =>
          var c := NewCandidate(id, d, stage, GenerationOf(r.participants, participant));
          Proceed(r.(x := r.x.(candidates := r.x.candidates + [c]), ids := r.ids.(candidate := next)))
  }

  function DeclareFrom(ctx: Context, stage: Stage, r: Run, k: nat): (v: Phase)
    ensures SlotsOnly(r.x.(declaredCurrentStage := v.run.x.declaredCurrentStage), v.run.x)
    ensures v.Proceed? ==> v.run.x.declaredCurrentStage
    decreases |stage.participants| - k
  {
    if k >= |stage.participants| then Proceed(r.(x := r.x.(declaredCurrentStage := true), progress := true))
    else
      match DeclareOne(ctx, stage, r, stage.participants[k])
      case Proceed(r1) => DeclareFrom(ctx, stage, r1, k + 1)
      case Halt(r1, error) => Halt(r1, error)
  }

  // ---- Dispatch ---------------------------------------------------------------------------------

  /** Another slot of the stage with a lower identity is still in flight. */
  predicate EarlierPending(cs: seq<Candidate>, stage: nat, id: nat) {
    exists d :: d in cs && d.stage == stage && d.id < id && InFlight(d.state)
  }

  predicate AwaitingReplacement(spec: RuntimeSpec, c: Candidate) {
    spec.retry.replaceParticipant && c.attemptsUsed < spec.retry.maxAttempts
  }

  function DispatchedCandidate(c: Candidate, p: Participant, epoch: nat, sequence: nat): Candidate {
    c.(participantGeneration := p.generation, state := Dispatched, attemptsUsed := c.attemptsUsed + 1,
       trace := c.trace.(dispatchSequence := sequence, epoch := epoch, worker := p.worker, workerBoot := p.workerBoot))
  }

  function DispatchOf(key: ExecutionKey, c: Candidate, p: Participant, sequence: nat): Action {
    DispatchAction(key, c.id, c.generation, c.participant, p.generation, c.role, c.stage, c.attempt, sequence)
  }

  function WithCandidate(r: Run, k: nat, c: Candidate): (w: Run)
    requires k < |r.x.candidates|
    ensures |w.x.candidates| == |r.x.candidates| && SlotsOnly(r.x, w.x)
  {
    r.(x := r.x.(candidates := r.x.candidates[k := c]))
  }

  function DispatchAt(ctx: Context, r: Run, k: nat, p: Participant): (w: Run)
    requires k < |r.x.candidates|
    ensures |w.x.candidates| == |r.x.candidates| && SlotsOnly(r.x, w.x)
  {
    var c := r.x.candidates[k];
    var sequence := SequenceValue(r.ids);
    WithCandidate(r, k, DispatchedCandidate(c, p, ctx.epoch, sequence)).(
      ids := AfterSequence(r.ids),
      actions := r.actions + [DispatchOf(KeyOf(ctx, r.x), c, p, sequence)],
      progress := true)
  }

  /** A participant that can neither serve nor be replaced ends the slot. */
  function GiveUp(r: Run, k: nat): (w: Run)
    requires k < |r.x.candidates|
    ensures |w.x.candidates| == |r.x.candidates| && SlotsOnly(r.x, w.x)
  {
    r.(x := FailAt(r.x, k, ParticipantUnavailable), progress := true)
  }

  /** A visit to a declared slot of the stage whose participant is `p`. */
  function VisitServed(ctx: Context, stage: Stage, r: Run, k: nat, p: Participant): (v: (Run, bool))
    requires k < |r.x.candidates|
    ensures |v.0.x.candidates| == |r.x.candidates| && SlotsOnly(r.x, v.0.x)
  {
    var c := r.x.candidates[k];
    if !p.Authoritative(ctx.epoch) then
      if !p.Capable() && !AwaitingReplacement(ctx.spec, c) then (GiveUp(r, k), true) else (r, true)
    else if stage.mode == Sequential && EarlierPending(r.x.candidates, stage.id, c.id) then (r, false)
    else (DispatchAt(ctx, r, k, p), stage.mode != Sequential)
  }

  /** The slot follows its participant to the present generation. */
  function Touched(r: Run, k: nat, p: Participant): (w: Run)
    requires k < |r.x.candidates|
    ensures |w.x.candidates| == |r.x.candidates| && SlotsOnly(r.x, w.x)
  {
    WithCandidate(r, k, r.x.candidates[k].(participantGeneration := p.generation))
  }

  /** One iteration of the dispatch loop, and whether the loop goes on. */
  function Visit(ctx: Context, stage: Stage, r: Run, k: nat): (v: (Run, bool))
    requires k < |r.x.candidates|
    ensures |v.0.x.candidates| == |r.x.candidates| && SlotsOnly(r.x, v.0.x)
  {
    var c := r.x.candidates[k];
    if c.stage != stage.id || c.state != Declared then (r, true)
    else
      match FindParticipant(r.participants, c.participant)
      case None => (r, true)
      case Some(j) => VisitServed(ctx, stage, Touched(r, k, r.participants[j]), k, r.participants[j])
  }

  function DispatchFrom(ctx: Context, stage: Stage, r: Run, k: nat): (v: Run)
    ensures SlotsOnly(r.x, v.x)
    decreases |r.x.candidates| - k
  {
    if k >= |r.x.candidates| then r
    else
      var v := Visit(ctx, stage, r, k);
      if v.1 then DispatchFrom(ctx, stage, v.0, k + 1) else v.0
  }

  predicate StageComplete(stage: Stage, cs: seq<Candidate>) {
    forall id :: id in stage.participants ==>
      && HasSlot(cs, id, stage.id)
      && forall c :: c in cs && c.participant == id && c.stage == stage.id ==> !InFlight(c.state)
  }

  function Declare(ctx: Context, stage: Stage, r: Run): Phase {
    if r.x.declaredCurrentStage then Proceed(r) else DeclareFrom(ctx, stage, r, 0)
  }

  function NextStage(r: Run): Run {
    r.(x := r.x.(stageIndex := r.x.stageIndex + 1, declaredCurrentStage := false), progress := true)
  }

  /** Declares and dispatches stage after stage, up to the first one that has work in flight. */
  function StageLoop(ctx: Context, stages: seq<Stage>, r: Run): Phase
    decreases |stages| - r.x.stageIndex
  {
    if r.x.stageIndex >= |stages| then Proceed(r)
    else
      var stage := stages[r.x.stageIndex];
      match Declare(ctx, stage, r)
      case Halt(r1, error) => Halt(r1, error)
      case Proceed(r1) =>
        var r2 := DispatchFrom(ctx, stage, r1, 0);
        if !StageComplete(stage, r2.x.candidates) then Proceed(r2)
        else StageLoop(ctx, stages, NextStage(r2))
  }

  // ---- Planning ---------------------------------------------------------------------------------

  predicate Named(x: Execution, candidate: nat) {
    || (exists e :: e in x.evaluations && e.candidate == candidate)
    || (exists p :: p in x.pending && p.candidate == candidate)
  }

  /** Content that nobody has evaluated or was ever asked to evaluate. */
  predicate NeedsPlan(spec: RuntimeSpec, x: Execution) {
    Evaluators(spec) != [] && exists c :: c in x.candidates && IsContent(c.state) && !Named(x, c.id)
  }

  function NewPending(id: nat, evaluator: nat, generation: nat, role: Role, c: Candidate, criterion: Criterion,
                      kind: CriterionKind): Pending {
    Pending(id, 1, evaluator, generation, role, c.id, c.generation, criterion, kind, false, false, false)
  }

  function PlanCriteria(r: Run, evaluator: nat, role: Role, kind: CriterionKind, c: Candidate, criteria: seq<Criterion>,
                        k: nat): Phase
    decreases |criteria| - k
  {
    if k >= |criteria| then Proceed(r)
    else
      match Allocate(r.ids.evaluation)
      case None => Halt(r, ResourceLimitExceeded)
      case Some((id, next)) =>
        var q := NewPending(id, evaluator, GenerationOf(r.participants, evaluator), role, c, criteria[k], kind);
        PlanCriteria(r.(x := r.x.(pending := r.x.pending + [q]), ids := r.ids.(evaluation := next)),
                     evaluator, role, kind, c, criteria, k + 1)
  }

  /** A verifier answers the mandatory criteria, a judge the judging ones; one participant may do both. */
  function PlanEvaluator(ctx: Context, r: Run, d: ParticipantSpec, c: Candidate): Phase {
    var verified := if d.roles.verifier
                    then PlanCriteria(r, d.id, VerifierRole, HardPredicate, c, ctx.spec.evidence.mandatoryCriteria, 0)
                    else Proceed(r);
    match verified
    case Halt(r1, error) => Halt(r1, error)
    case Proceed(r1) =>
      if d.roles.judge then PlanCriteria(r1, d.id, JudgeRole, RankingSignal, c, JudgingCriteria(ctx.spec), 0) else Proceed(r1)
  }

  function PlanEvaluators(ctx: Context, r: Run, evaluators: seq<ParticipantSpec>, c: Candidate, k: nat): Phase
    decreases |evaluators| - k
  {
    if k >= |evaluators| then Proceed(r)
    else
      match PlanEvaluator(ctx, r, evaluators[k], c)
      case Halt(r1, error) => Halt(r1, error)
      case Proceed(r1) => PlanEvaluators(ctx, r1, evaluators, c, k + 1)
  }

  function PlanCandidates(ctx: Context, r: Run, cs: seq<Candidate>, k: nat): Phase
    decreases |cs| - k
  {
    if k >= |cs| then Proceed(r)
    else if !IsContent(cs[k].state) then PlanCandidates(ctx, r, cs, k + 1)
    else
      match PlanEvaluators(ctx, r, Evaluators(ctx.spec), cs[k], 0)
      case Halt(r1, error) => Halt(r1, error)
      case Proceed(r1) => PlanCandidates(ctx, r1, cs, k + 1)
  }

  /** Plans every content candidate unless a complete plan already covers all of them. */
  function PlanStep(ctx: Context, r: Run): Phase {
    if r.x.planningComplete && !NeedsPlan(ctx.spec, r.x) then Proceed(r)
    else PlanCandidates(ctx, r.(x := r.x.(planningComplete := true), progress := true), r.x.candidates, 0)
  }

  // ---- Emission ---------------------------------------------------------------------------------

  predicate TargetCurrent(cs: seq<Candidate>, q: Pending) {
    match FindCandidate(cs, q.candidate)
    case None => false
    case Some(k) => cs[k].generation == q.candidateGeneration && IsContent(cs[k].state)
  }

  datatype EmitChoice = Keep | Abandon(visible: bool) | Emit

  /** What becomes of one planned evaluation; a silent abandonment does not count as progress. */
  function ChoiceFor(ctx: Context, ps: seq<Participant>, cs: seq<Candidate>, q: Pending): EmitChoice {
    if q.answered || q.abandoned || q.emitted then Keep
    else
      match FindParticipant(ps, q.evaluator)
      case None => Abandon(false)
      case Some(j) =>
        if q.evaluatorGeneration != ps[j].generation then Abandon(false)
        else if !ps[j].Authoritative(ctx.epoch) then (if ps[j].Capable() then Keep else Abandon(true))
        else if !TargetCurrent(cs, q) then Abandon(true)
        else Emit
  }

  function EvaluationActionOf(key: ExecutionKey, q: Pending, sequence: nat): Action {
    EvaluationAction(key, q.id, q.generation, q.evaluator, q.evaluatorGeneration, q.role, q.candidate,
                     q.candidateGeneration, q.criterion, q.kind, sequence)
  }

  function WithPending(r: Run, k: nat, q: Pending): Run
    requires k < |r.x.pending|
  {
    r.(x := r.x.(pending := r.x.pending[k := q]))
  }

  function EmitAt(ctx: Context, r: Run, k: nat): (r': Run)
    requires k < |r.x.pending|
    ensures |r'.x.pending| == |r.x.pending|
  {
    var q := r.x.pending[k];
    match ChoiceFor(ctx, r.participants, r.x.candidates, q)
    case Keep => r
    case Abandon(visible) =>
      WithPending(r, k, q.(abandoned := true)).(progress := r.progress || visible)
    case Emit =>
      var sequence := SequenceValue(r.ids);
      WithPending(r, k, q.(emitted := true)).(
        ids := AfterSequence(r.ids),
        actions := r.actions + [EvaluationActionOf(KeyOf(ctx, r.x), q, sequence)],
        progress := true)
  }

  function EmitFrom(ctx: Context, r: Run, k: nat): Run
    decreases |r.x.pending| - k
  {
    if k >= |r.x.pending| then r else EmitFrom(ctx, EmitAt(ctx, r, k), k + 1)
  }

  // ---- Fallback ---------------------------------------------------------------------------------

  predicate Outstanding(x: Execution) {
    || (exists q :: q in x.pending && q.emitted && !q.answered && !q.abandoned)
    || (exists c :: c in x.candidates && InFlight(c.state))
  }

  /** The trigger that activates the fallback now, if any. */
  function ActivationTrigger(ctx: Context, ps: seq<Participant>, x: Execution): Option<Trigger> {
    if ctx.spec.fallback.enabled && !x.fallbackActivated && x.fallbackDepth < ctx.spec.fallback.maxDepth && !Outstanding(x)
    then FirstTrigger(ctx.spec.fallback.triggers, ctx.spec, ps, x)
    else None
  }

  const FALLBACK_STAGE_BASE: nat := 1000

  function FallbackStage(spec: RuntimeSpec, depth: nat): Stage {
    Stage(FALLBACK_STAGE_BASE + depth + 1, [], Parallel, spec.fallback.participants, [], true)
  }

  function AnnounceFrom(ctx: Context, r: Run, trigger: Trigger, k: nat): Run
    decreases |ctx.spec.fallback.participants| - k
  {
    if k >= |ctx.spec.fallback.participants| then r
    else
      var id := ctx.spec.fallback.participants[k];
      var j := FindParticipant(r.participants, id);
      var ps := if j.Some?
                then r.participants[j.value := r.participants[j.value].(fallbackActivated := true)]
                else r.participants;
      var action := FallbackAction(KeyOf(ctx, r.x), id, GenerationOf(r.participants, id), trigger, r.x.fallbackDepth,
                                   SequenceValue(r.ids));
      AnnounceFrom(ctx, r.(participants := ps, ids := AfterSequence(r.ids), actions := r.actions + [action]), trigger, k + 1)
  }

  function Activate(ctx: Context, r: Run, trigger: Trigger): Run {
    var x := r.x.(
      extraStages := r.x.extraStages + [FallbackStage(ctx.spec, r.x.fallbackDepth)],
      fallbackActivated := true,
      fallbackDepth := r.x.fallbackDepth + 1,
      planningComplete := false);
    AnnounceFrom(ctx, r.(x := x, progress := true), trigger, 0)
  }

  /** An advance never runs on a superseded ensemble. */
  function Recomputed(ctx: Context, r: Run): Run {
    r.(x := WithReports(r.x, ctx.kernel(ctx.spec, false, r.participants, r.x)))
  }

  function FallbackStep(ctx: Context, r: Run): Run {
    var r1 := Recomputed(ctx, r);
    match ActivationTrigger(ctx, r1.participants, r1.x)
    case None => r1
    case Some(trigger) => Activate(ctx, r1, trigger)
  }

  // ---- The loop ---------------------------------------------------------------------------------

  /** The second half of a round, once every stage is behind. */
  function EvaluationPhase(ctx: Context, r: Run): Phase {
    match PlanStep(ctx, r)
    case Halt(r1, error) => Halt(r1, error)
    case Proceed(r1) => Proceed(FallbackStep(ctx, EmitFrom(ctx, r1, 0)))
  }

  function Round(ctx: Context, r: Run): Phase {
    match StageLoop(ctx, Plan(ctx.spec, r.x), r.(progress := false))
    case Halt(r1, error) => Halt(r1, error)
    case Proceed(r1) =>
      if r1.x.stageIndex < |Plan(ctx.spec, r.x)| then Proceed(r1) else EvaluationPhase(ctx, r1)
  }

  const GUARD: nat := 64

  function RoundOf(ctx: Context): Run -> Phase {
    (r: Run) => Round(ctx, r)
  }

  /** At most `rounds` more rounds, as long as the last one made progress. */
  function Loop(round: Run -> Phase, r: Run, rounds: nat): Phase
    decreases rounds
  {
    if !r.progress || rounds == 0 then Proceed(r)
    else
      match round(r)
      case Halt(r1, error) => Halt(r1, error)
      case Proceed(r1) => Loop(round, r1, rounds - 1)
  }

  function AdvanceOpen(ctx: Context, r: Run): Phase {
    match Loop(RoundOf(ctx), r.(progress := true), GUARD)
    case Halt(r1, error) => Halt(r1, error)
    case Proceed(r1) => Proceed(Recomputed(ctx, r1))
  }

  // ---- Cancellation and supersession ------------------------------------------------------------

  function CancelFrom(key: ExecutionKey, r: Run, k: nat): Run
    decreases |r.x.candidates| - k
  {
    if k >= |r.x.candidates| then r
    else
      var c := r.x.candidates[k];
      if !InFlight(c.state) then CancelFrom(key, r, k + 1)
      else
        var action := CancelAction(key, c.participant, c.participantGeneration, c.id, c.generation, SequenceValue(r.ids));
        CancelFrom(key, WithCandidate(r, k, c.(state := Cancelled, current := false)).(
          ids := AfterSequence(r.ids), actions := r.actions + [action]), k + 1)
  }

  function EmitCancellation(ctx: Context, r: Run): Run {
    var r1 := CancelFrom(KeyOf(ctx, r.x), r.(x := r.x.(cancellationEmitted := true)), 0);
    r1.(x := r1.x.(pending := AbandonAll(r1.x.pending)))
  }

  function SupersedeOpen(x: Execution): Execution {
    x.(status := ExecSuperseded, candidates := InterruptAll(x.candidates, Superseded, true, None))
  }

  // ---- Advance ----------------------------------------------------------------------------------

  datatype Advanced = Advanced(state: State, outcome: Outcome<seq<Action>>, performed: seq<Action>)

  function Store(s: State, id: nat, r: Run): State
    requires id in s.ensembles
  {
    Put(s, id, s.ensembles[id].(participants := r.participants, execution := Some(r.x))).(ids := r.ids)
  }

  function CountActivation(s: State, before: Execution, after: Execution): State {
    if after.fallbackDepth > before.fallbackDepth
    then s.(counters := s.counters.(fallbackActivations := s.counters.fallbackActivations + after.fallbackDepth - before.fallbackDepth))
    else s
  }

  function ContextOf(s: State, e: Ensemble): Context {
    Context(s.config.limits, e.spec, s.epoch, s.config.kernel)
  }

  function StartOf(s: State, e: Ensemble): Run
    requires e.execution.Some?
  {
    Run(e.participants, e.execution.value, s.ids, [], false)
  }

  /** An error drops the returned actions but none of what was already performed. */
  function Advance(s: State, id: nat, generation: nat): Advanced {
    match GenerationFault(s, id, generation)
    case Some(error) => Advanced(s, Err(error), [])
    case None =>
      var e := s.ensembles[id];
      if e.execution.None? then Advanced(s, Ok([]), [])
      else
        var x := e.execution.value;
        var ctx := ContextOf(s, e);
        if x.status == ExecCancelled then
          if x.cancellationEmitted then Advanced(s, Ok([]), [])
          else
            var r := EmitCancellation(ctx, StartOf(s, e));
            Advanced(Store(s, id, r).(counters := s.counters.(cancellations := s.counters.cancellations + 1)),
                     Ok(r.actions), r.actions)
        else if x.status != ExecOpen then Advanced(s, Ok([]), [])
        else if e.superseded then Advanced(Put(s, id, e.(execution := Some(SupersedeOpen(x)))), Ok([]), [])
        else
          match AdvanceOpen(ctx, StartOf(s, e))
          case Proceed(r) => Advanced(CountActivation(Store(s, id, r), x, r.x), Ok(r.actions), r.actions)
          case Halt(r, error) => Advanced(CountActivation(Store(s, id, r), x, r.x), Err(error), r.actions)
  }

  // ---- Settlement -------------------------------------------------------------------------------

  /** Nothing of an open execution is waiting on a participant that could still deliver. */
  predicate ExecutionSettled(e: Ensemble) {
    && e.execution.Some?
    && var x := e.execution.value;
       || x.status != ExecOpen
       || (&& x.stageIndex >= |Plan(e.spec, x)|
           && (forall c :: c in x.candidates && InFlight(c.state) ==> !EvaluatorCapable(e.participants, c.participant))
           && (forall q :: q in x.pending && !q.answered && !q.abandoned ==> !EvaluatorCapable(e.participants, q.evaluator)))
  }
}
