/**
 Identities and scope: everything recorded lies behind its allocator, and every evaluation, planned
 or accepted, is about a question the specification asks.  Both hold in every reachable state,
 across restarts and recoveries.
 */
module Identities {
  import opened Base
  import opened Spec
  import opened Lifecycle
  import opened Records
  import opened Attempts
  import opened Participants
  import opened Definition
  import opened Ingest
  import opened Reports
  import opened Progress
  import opened Finalization
  import opened Monotone
  import opened Invariants
  import opened Advancing
  import opened Ledger
  import opened Snapshots
  import opened Restoration
  import opened System

  /** Hard predicates are about mandatory criteria, ranking signals come from a judge. */
  ghost predicate InScope(spec: RuntimeSpec, kind: CriterionKind, criterion: Criterion) {
    match kind
    case HardPredicate => criterion in spec.evidence.mandatoryCriteria
    case RankingSignal => exists d :: d in Evaluators(spec) && d.roles.judge
  }

  /** Planned and accepted evaluations carry allocated identities and stay in scope. */
  ghost predicate Asked(spec: RuntimeSpec, next: nat, x: Execution) {
    && (forall q :: q in x.pending ==> q.id < next && InScope(spec, q.kind, q.criterion))
    && (forall e :: e in x.evaluations ==> e.id < next && InScope(spec, e.kind, e.criterion))
  }

  // ---- One slot ------------------------------------------------------------------------------------------

  lemma WithdrawalStaysAsked(spec: RuntimeSpec, next: nat, x: Execution, id: nat)
    requires Asked(spec, next, x)
    ensures Asked(spec, next, SupersedeEvidence(x, id))
  {
    var y := SupersedeEvidence(x, id);
    forall e | e in y.evaluations ensures e.id < next && InScope(spec, e.kind, e.criterion) {
      var i :| 0 <= i < |y.evaluations| && y.evaluations[i] == e;
      assert x.evaluations[i] in x.evaluations;
    }
  }

  lemma FailureStaysAsked(spec: RuntimeSpec, next: nat, x: Execution, k: nat, failure: Error)
    requires Asked(spec, next, x) && k < |x.candidates|
    ensures Asked(spec, next, FailAt(x, k, failure))
  {
    WithdrawalStaysAsked(spec, next, x.(candidates := x.candidates[k := FailedCandidate(x.candidates[k], failure)]), x.candidates[k].id);
  }

  lemma RewindStaysAsked(spec: RuntimeSpec, next: nat, x: Execution, k: nat)
    requires Asked(spec, next, x) && k < |x.candidates|
    ensures Asked(spec, next, RewindAt(x, k))
  {
    WithdrawalStaysAsked(spec, next, x.(candidates := x.candidates[k := RewoundCandidate(x.candidates[k])]), x.candidates[k].id);
  }

  lemma ReleaseAtStaysAsked(spec: RuntimeSpec, next: nat, p: Participant, failure: Error, x: Execution, k: nat)
    requires Asked(spec, next, x) && k < |x.candidates|
    ensures Asked(spec, next, ReleaseAt(spec, p, failure, x, k))
  {
    RewindStaysAsked(spec, next, ReassignAt(x, k, p), k);
    FailureStaysAsked(spec, next, x, k, failure);
  }

  lemma {:induction false} ReleaseStaysAsked(spec: RuntimeSpec, next: nat, p: Participant, failure: Error, x: Execution, k: nat)
    requires Asked(spec, next, x)
    ensures Asked(spec, next, ReleaseFrom(spec, p, failure, x, k))
    decreases |x.candidates| - k
  {
    if k < |x.candidates| {
      ReleaseAtStaysAsked(spec, next, p, failure, x, k);
      ReleaseStaysAsked(spec, next, p, failure, ReleaseAt(spec, p, failure, x, k), k + 1);
    }
  }

  // ---- The loops of an advance ------------------------------------------------------------------------------

  ghost predicate RunAsked(spec: RuntimeSpec, r: Run) {
    InRange(r.ids) && Asked(spec, r.ids.evaluation, r.x)
  }

  /** Slots, flags, participants, actions and sequence numbers do not matter. */
  lemma SameQuestionsStayAsked(spec: RuntimeSpec, r: Run, w: Run)
    requires RunAsked(spec, r)
    requires w.x.pending == r.x.pending && w.x.evaluations == r.x.evaluations
    requires w.ids == r.ids || w.ids == AfterSequence(r.ids)
    ensures RunAsked(spec, w)
  {
  }

  lemma DeclareOneStaysAsked(ctx: Context, stage: Stage, r: Run, participant: nat)
    requires RunAsked(ctx.spec, r)
    ensures RunAsked(ctx.spec, DeclareOne(ctx, stage, r, participant).run)
  {
  }

  lemma {:induction false} DeclareStaysAsked(ctx: Context, stage: Stage, r: Run, k: nat)
    requires RunAsked(ctx.spec, r)
    ensures RunAsked(ctx.spec, DeclareFrom(ctx, stage, r, k).run)
    decreases |stage.participants| - k
  {
    if k < |stage.participants| {
      var v := DeclareOne(ctx, stage, r, stage.participants[k]);
      DeclareOneStaysAsked(ctx, stage, r, stage.participants[k]);
      if v.Proceed? {
        DeclareStaysAsked(ctx, stage, v.run, k + 1);
      }
    } else {
      SameQuestionsStayAsked(ctx.spec, r, DeclareFrom(ctx, stage, r, k).run);
    }
  }

  lemma ServedStaysAsked(ctx: Context, stage: Stage, r: Run, k: nat, p: Participant)
    requires RunAsked(ctx.spec, r) && k < |r.x.candidates|
    ensures RunAsked(ctx.spec, VisitServed(ctx, stage, r, k, p).0)
  {
    var v := VisitServed(ctx, stage, r, k, p).0;
    FailureStaysAsked(ctx.spec, r.ids.evaluation, r.x, k, ParticipantUnavailable);
    if v != GiveUp(r, k) {
      SameQuestionsStayAsked(ctx.spec, r, v);
    }
  }

  lemma VisitStaysAsked(ctx: Context, stage: Stage, r: Run, k: nat)
    requires RunAsked(ctx.spec, r) && k < |r.x.candidates|
    ensures RunAsked(ctx.spec, Visit(ctx, stage, r, k).0)
  {
    var c := r.x.candidates[k];
    var j := FindParticipant(r.participants, c.participant);
    if c.stage == stage.id && c.state == Declared && j.Some? {
      var r1 := Touched(r, k, r.participants[j.value]);
      SameQuestionsStayAsked(ctx.spec, r, r1);
      ServedStaysAsked(ctx, stage, r1, k, r.participants[j.value]);
    }
  }

  lemma {:induction false} DispatchStaysAsked(ctx: Context, stage: Stage, r: Run, k: nat)
    requires RunAsked(ctx.spec, r)
    ensures RunAsked(ctx.spec, DispatchFrom(ctx, stage, r, k))
    decreases |r.x.candidates| - k
  {
    if k < |r.x.candidates| {
      var v := Visit(ctx, stage, r, k);
      VisitStaysAsked(ctx, stage, r, k);
      if v.1 {
        DispatchStaysAsked(ctx, stage, v.0, k + 1);
      }
    }
  }

  lemma {:induction false} StagesStayAsked(ctx: Context, stages: seq<Stage>, r: Run)
    requires RunAsked(ctx.spec, r)
    ensures RunAsked(ctx.spec, StageLoop(ctx, stages, r).run)
    decreases |stages| - r.x.stageIndex
  {
    if r.x.stageIndex < |stages| {
      var stage := stages[r.x.stageIndex];
      var v := Declare(ctx, stage, r);
      DeclareStaysAsked(ctx, stage, r, 0);
      if v.Proceed? {
        var r2 := DispatchFrom(ctx, stage, v.run, 0);
        DispatchStaysAsked(ctx, stage, v.run, 0);
        if StageComplete(stage, r2.x.candidates) {
          SameQuestionsStayAsked(ctx.spec, r2, NextStage(r2));
          StagesStayAsked(ctx, stages, NextStage(r2));
        }
      }
    }
  }

  lemma QuestionStaysAsked(spec: RuntimeSpec, r: Run, q: Pending)
    requires RunAsked(spec, r) && q.id == r.ids.evaluation < U64_MAX && InScope(spec, q.kind, q.criterion)
    ensures RunAsked(spec, WithPlanned(r, q, r.ids.evaluation + 1))
  {
  }

  lemma {:induction false} PlanCriteriaStaysAsked(spec: RuntimeSpec, r: Run, evaluator: nat, role: Role, kind: CriterionKind,
                                                  c: Candidate, criteria: seq<Criterion>, k: nat)
    requires RunAsked(spec, r) && forall m :: m in criteria ==> InScope(spec, kind, m)
    ensures RunAsked(spec, PlanCriteria(r, evaluator, role, kind, c, criteria, k).run)
    decreases |criteria| - k
  {
    if k < |criteria| && Allocate(r.ids.evaluation).Some? {
      var q := NewPending(r.ids.evaluation, evaluator, GenerationOf(r.participants, evaluator), role, c, criteria[k], kind);
      QuestionStaysAsked(spec, r, q);
      PlanCriteriaStaysAsked(spec, WithPlanned(r, q, r.ids.evaluation + 1), evaluator, role, kind, c, criteria, k + 1);
    }
  }

  lemma PlanEvaluatorStaysAsked(ctx: Context, r: Run, d: ParticipantSpec, c: Candidate)
    requires RunAsked(ctx.spec, r) && d in Evaluators(ctx.spec)
    ensures RunAsked(ctx.spec, PlanEvaluator(ctx, r, d, c).run)
  {
    var mandatory := ctx.spec.evidence.mandatoryCriteria;
    var verified := if d.roles.verifier then PlanCriteria(r, d.id, VerifierRole, HardPredicate, c, mandatory, 0) else Proceed(r);
    PlanCriteriaStaysAsked(ctx.spec, r, d.id, VerifierRole, HardPredicate, c, mandatory, 0);
    if verified.Proceed? && d.roles.judge {
      PlanCriteriaStaysAsked(ctx.spec, verified.run, d.id, JudgeRole, RankingSignal, c, JudgingCriteria(ctx.spec), 0);
    }
  }

  lemma {:induction false} PlanEvaluatorsStayAsked(ctx: Context, r: Run, evaluators: seq<ParticipantSpec>, c: Candidate, k: nat)
    requires RunAsked(ctx.spec, r) && forall d :: d in evaluators ==> d in Evaluators(ctx.spec)
    ensures RunAsked(ctx.spec, PlanEvaluators(ctx, r, evaluators, c, k).run)
    decreases |evaluators| - k
  {
    if k < |evaluators| {
      var v := PlanEvaluator(ctx, r, evaluators[k], c);
      PlanEvaluatorStaysAsked(ctx, r, evaluators[k], c);
      if v.Proceed? {
        PlanEvaluatorsStayAsked(ctx, v.run, evaluators, c, k + 1);
      }
    }
  }

  lemma {:induction false} PlanCandidatesStayAsked(ctx: Context, r: Run, cs: seq<Candidate>, k: nat)
    requires RunAsked(ctx.spec, r)
    ensures RunAsked(ctx.spec, PlanCandidates(ctx, r, cs, k).run)
    decreases |cs| - k
  {
    if k < |cs| {
      if !IsContent(cs[k].state) {
        PlanCandidatesStayAsked(ctx, r, cs, k + 1);
      } else {
        var v := PlanEvaluators(ctx, r, Evaluators(ctx.spec), cs[k], 0);
        PlanEvaluatorsStayAsked(ctx, r, Evaluators(ctx.spec), cs[k], 0);
        if v.Proceed? {
          PlanCandidatesStayAsked(ctx, v.run, cs, k + 1);
        }
      }
    }
  }

  lemma MarkStaysAsked(spec: RuntimeSpec, next: nat, x: Execution, k: nat, q: Pending)
    requires Asked(spec, next, x) && k < |x.pending|
    requires q.id == x.pending[k].id && q.kind == x.pending[k].kind && q.criterion == x.pending[k].criterion
    ensures Asked(spec, next, x.(pending := x.pending[k := q]))
  {
    assert x.pending[k] in x.pending;
  }

  lemma EmitAtStaysAsked(ctx: Context, r: Run, k: nat)
    requires RunAsked(ctx.spec, r) && k < |r.x.pending|
    ensures RunAsked(ctx.spec, EmitAt(ctx, r, k))
  {
    var q := r.x.pending[k];
    MarkStaysAsked(ctx.spec, r.ids.evaluation, r.x, k, q.(emitted := true));
    MarkStaysAsked(ctx.spec, r.ids.evaluation, r.x, k, q.(abandoned := true));
  }

  lemma {:induction false} EmitStaysAsked(ctx: Context, r: Run, k: nat)
    requires RunAsked(ctx.spec, r)
    ensures RunAsked(ctx.spec, EmitFrom(ctx, r, k))
    decreases |r.x.pending| - k
  {
    if k < |r.x.pending| {
      EmitAtStaysAsked(ctx, r, k);
      EmitStaysAsked(ctx, EmitAt(ctx, r, k), k + 1);
    }
  }

  lemma {:induction false} AnnounceStaysAsked(ctx: Context, r: Run, trigger: Trigger, k: nat)
    requires RunAsked(ctx.spec, r)
    ensures RunAsked(ctx.spec, AnnounceFrom(ctx, r, trigger, k))
    decreases |ctx.spec.fallback.participants| - k
  {
    if k < |ctx.spec.fallback.participants| {
      var id := ctx.spec.fallback.participants[k];
      var j := FindParticipant(r.participants, id);
      var ps := if j.Some? then r.participants[j.value := r.participants[j.value].(fallbackActivated := true)] else r.participants;
      var a := FallbackAction(KeyOf(ctx, r.x), id, GenerationOf(r.participants, id), trigger, r.x.fallbackDepth, SequenceValue(r.ids));
      var r1 := r.(participants := ps, ids := AfterSequence(r.ids), actions := r.actions + [a]);
      SameQuestionsStayAsked(ctx.spec, r, r1);
      AnnounceStaysAsked(ctx, r1, trigger, k + 1);
    }
  }

  lemma FallbackStaysAsked(ctx: Context, r: Run)
    requires RunAsked(ctx.spec, r)
    ensures RunAsked(ctx.spec, FallbackStep(ctx, r))
  {
    var r1 := Recomputed(ctx, r);
    SameQuestionsStayAsked(ctx.spec, r, r1);
    var trigger := ActivationTrigger(ctx, r1.participants, r1.x);
    if trigger.Some? {
      SameQuestionsStayAsked(ctx.spec, r1, Extended(ctx, r1));
      AnnounceStaysAsked(ctx, Extended(ctx, r1), trigger.value, 0);
      assert FallbackStep(ctx, r) == AnnounceFrom(ctx, Extended(ctx, r1), trigger.value, 0);
    } else {
      assert FallbackStep(ctx, r) == r1;
    }
  }

  lemma PlanStepStaysAsked(ctx: Context, r: Run)
    requires RunAsked(ctx.spec, r)
    ensures RunAsked(ctx.spec, PlanStep(ctx, r).run)
  {
    if !(r.x.planningComplete && !NeedsPlan(ctx.spec, r.x)) {
      var r1 := r.(x := r.x.(planningComplete := true), progress := true);
      SameQuestionsStayAsked(ctx.spec, r, r1);
      PlanCandidatesStayAsked(ctx, r1, r.x.candidates, 0);
    }
  }

  lemma RoundStaysAsked(ctx: Context, r: Run)
    requires RunAsked(ctx.spec, r)
    ensures RunAsked(ctx.spec, Round(ctx, r).run)
  {
    var r0 := r.(progress := false);
    SameQuestionsStayAsked(ctx.spec, r, r0);
    var v := StageLoop(ctx, Plan(ctx.spec, r.x), r0);
    StagesStayAsked(ctx, Plan(ctx.spec, r.x), r0);
    if v.Proceed? && v.run.x.stageIndex >= |Plan(ctx.spec, r.x)| {
      var u := PlanStep(ctx, v.run);
      PlanStepStaysAsked(ctx, v.run);
      if u.Proceed? {
        EmitStaysAsked(ctx, u.run, 0);
        FallbackStaysAsked(ctx, EmitFrom(ctx, u.run, 0));
      }
      assert Round(ctx, r) == EvaluationPhase(ctx, v.run);
    } else {
      assert Round(ctx, r) == v;
    }
  }

  lemma {:induction false} LoopStaysAsked(spec: RuntimeSpec, round: Run -> Phase, r: Run, rounds: nat)
    requires RunAsked(spec, r)
    requires forall q {:trigger round(q)} :: RunAsked(spec, q) ==> RunAsked(spec, round(q).run)
    ensures RunAsked(spec, Loop(round, r, rounds).run)
    decreases rounds
  {
    if r.progress && rounds > 0 {
      var v := round(r);
      if v.Proceed? {
        LoopStaysAsked(spec, round, v.run, rounds - 1);
      }
    }
  }

  lemma AdvanceStaysAsked(ctx: Context, r: Run)
    requires RunAsked(ctx.spec, r)
    ensures RunAsked(ctx.spec, AdvanceOpen(ctx, r).run)
  {
    var r0 := r.(progress := true);
    SameQuestionsStayAsked(ctx.spec, r, r0);
    forall q | RunAsked(ctx.spec, q) ensures RunAsked(ctx.spec, RoundOf(ctx)(q).run) {
      RoundStaysAsked(ctx, q);
    }
    LoopStaysAsked(ctx.spec, RoundOf(ctx), r0, GUARD);
    var v := Loop(RoundOf(ctx), r0, GUARD);
    if v.Proceed? {
      SameQuestionsStayAsked(ctx.spec, v.run, Recomputed(ctx, v.run));
      assert AdvanceOpen(ctx, r).run == Recomputed(ctx, v.run);
    } else {
      assert AdvanceOpen(ctx, r).run == v.run;
    }
  }

  lemma {:induction false} CancelStaysAsked(spec: RuntimeSpec, key: ExecutionKey, r: Run, k: nat)
    requires RunAsked(spec, r)
    ensures RunAsked(spec, CancelFrom(key, r, k))
    decreases |r.x.candidates| - k
  {
    CancelUnrolls(key, r, k);
    if k < |r.x.candidates| {
      if InFlight(r.x.candidates[k].state) {
        SameQuestionsStayAsked(spec, r, CancelledAt(key, r, k));
        CancelStaysAsked(spec, key, CancelledAt(key, r, k), k + 1);
      } else {
        CancelStaysAsked(spec, key, r, k + 1);
      }
    }
  }

  lemma AbandonmentStaysAsked(spec: RuntimeSpec, next: nat, x: Execution)
    requires Asked(spec, next, x)
    ensures Asked(spec, next, x.(pending := AbandonAll(x.pending)))
    ensures Asked(spec, next, x.(pending := AbandonAll(x.pending), evaluations := WithdrawAll(x.evaluations)))
  {
    forall q | q in AbandonAll(x.pending) ensures q.id < next && InScope(spec, q.kind, q.criterion) {
      var i :| 0 <= i < |x.pending| && AbandonAll(x.pending)[i] == q;
      assert x.pending[i] in x.pending;
    }
    forall e | e in WithdrawAll(x.evaluations) ensures e.id < next && InScope(spec, e.kind, e.criterion) {
      var i :| 0 <= i < |x.evaluations| && WithdrawAll(x.evaluations)[i] == e;
      assert x.evaluations[i] in x.evaluations;
    }
  }

  lemma CancellationStaysAsked(ctx: Context, r: Run)
    requires RunAsked(ctx.spec, r)
    ensures RunAsked(ctx.spec, EmitCancellation(ctx, r))
  {
    var r0 := r.(x := r.x.(cancellationEmitted := true));
    SameQuestionsStayAsked(ctx.spec, r, r0);
    CancelStaysAsked(ctx.spec, KeyOf(ctx, r.x), r0, 0);
    var r1 := CancelFrom(KeyOf(ctx, r.x), r0, 0);
    AbandonmentStaysAsked(ctx.spec, r1.ids.evaluation, r1.x);
  }

  // ---- Ensembles and states ------------------------------------------------------------------------------------

  ghost predicate ResultsRecorded(next: nat, e: Ensemble) {
    && (e.execution.Some? && e.execution.value.result.Some? ==> e.execution.value.result.value.id < next)
    && (forall r :: r in e.history ==> r.id < next)
  }

  /** Every identity an ensemble records was handed out before. */
  ghost predicate Recorded(ids: Ids, e: Ensemble) {
    && (e.spec.id < ids.ensemble || e.spec.id >= U64_MAX)
    && ResultsRecorded(ids.result, e)
    && (e.execution.Some? ==> Asked(e.spec, ids.evaluation, e.execution.value))
  }

  ghost predicate RecordedAt(s: State, k: nat) {
    k in s.ensembles ==> Recorded(s.ids, s.ensembles[k])
  }

  ghost predicate Identified(s: State) {
    && InRange(s.ids)
    && (forall k {:trigger RecordedAt(s, k)} :: RecordedAt(s, k))
  }

  lemma RecordedLater(ids: Ids, ids': Ids, e: Ensemble)
    requires Recorded(ids, e) && IdsAdvance(ids, ids')
    ensures Recorded(ids', e)
  {
  }

  /** An operation that rewrites one ensemble, or none. */
  lemma PutIdentifies(s: State, t: State, id: nat, e: Ensemble)
    requires Identified(s) && IdsAdvance(s.ids, t.ids) && InRange(t.ids)
    requires t.ensembles == s.ensembles || t.ensembles == s.ensembles[id := e]
    requires t.ensembles != s.ensembles ==> Recorded(t.ids, e)
    ensures Identified(t)
  {
    forall k ensures RecordedAt(t, k) {
      assert RecordedAt(s, k);
      if k in s.ensembles {
        RecordedLater(s.ids, t.ids, s.ensembles[k]);
      }
    }
  }

  lemma CountersIdentify(s: State, t: State)
    requires Identified(s) && t.ids == s.ids && t.ensembles == s.ensembles
    ensures Identified(t)
  {
    forall k ensures RecordedAt(t, k) {
      assert RecordedAt(s, k);
    }
  }

  // ---- Operations ------------------------------------------------------------------------------------------------

  lemma HistoryIsRecorded(next: nat, e: Ensemble, bound: nat)
    requires ResultsRecorded(next, e)
    ensures forall r :: r in RedefinedHistory(e, bound) ==> r.id < next
  {
  }

  lemma DefineIdentifies(s: State, asked: RuntimeSpec, digest: Digest)
    requires Identified(s)
    ensures Identified(Define(s, asked, digest).0)
  {
    var v := Define(s, asked, digest);
    DefineAdvances(s, asked, digest);
    if v.1.Ok? {
      var id, spec := DefinedSpec(s, asked, digest);
      assert RecordedAt(s, id);
      if id in s.ensembles {
        HistoryIsRecorded(s.ids.result, s.ensembles[id], s.config.limits.maxRetainedResults);
      }
      assert v.0.ids == s.ids.(ensemble := DefinedIdentity(s, asked).value.1);
      PutIdentifies(s, v.0, id, v.0.ensembles[id]);
    } else {
      PutIdentifies(s, v.0, 0, Ensemble(asked, [], None, false, []));
    }
  }

  lemma ManagementIdentifies(s: State, id: nat, generation: nat)
    requires Identified(s)
    ensures Identified(Supersede(s, id, generation).0)
    ensures Identified(Open(s, id, generation).0)
    ensures Identified(Cancel(s, id, generation).0)
  {
    assert RecordedAt(s, id);
    if GenerationFault(s, id, generation).None? {
      var e := s.ensembles[id];
      var superseded, reopened, cancelled := Supersede(s, id, generation).0, Open(s, id, generation).0, Cancel(s, id, generation).0;
      PutIdentifies(s, superseded, id, superseded.ensembles[id]);
      PutIdentifies(s, reopened, id, reopened.ensembles[id]);
      PutIdentifies(s, cancelled, id, cancelled.ensembles[id]);
    }
  }

  lemma RegisterIdentifies(s: State, r: Registration)
    requires Identified(s)
    ensures Identified(Register(s, r).0)
  {
    assert RecordedAt(s, r.ensemble);
    var t := Register(s, r).0;
    if RegistrationFault(s, r).None? {
      PutIdentifies(s, t, r.ensemble, t.ensembles[r.ensemble]);
    } else {
      CountersIdentify(s, t);
    }
  }

  lemma ReportIdentifies(s: State, a: ParticipantAuthority, kind: FailureKind)
    requires Identified(s)
    ensures Identified(ReportFailure(s, a, kind).0)
  {
    assert RecordedAt(s, a.ensemble);
    var t := ReportFailure(s, a, kind).0;
    if ReportFault(s, a).None? {
      var e := s.ensembles[a.ensemble];
      var j := FindParticipant(e.participants, a.participant).value;
      if HasOpenExecution(e) {
        ReleaseStaysAsked(e.spec, s.ids.evaluation, FailedParticipant(e.participants[j], kind), FailureOf(kind), e.execution.value, 0);
      }
      PutIdentifies(s, t, a.ensemble, t.ensembles[a.ensemble]);
    } else {
      CountersIdentify(s, t);
    }
  }

  lemma InvalidationIdentifies(s: State)
    requires Identified(s)
    ensures Identified(Invalidate(s))
  {
    var t := Invalidate(s);
    forall k ensures RecordedAt(t, k) {
      assert RecordedAt(s, k);
      if k in s.ensembles && s.ensembles[k].execution.Some? {
        AbandonmentStaysAsked(s.ensembles[k].spec, s.ids.evaluation, s.ensembles[k].execution.value);
      }
    }
  }

  lemma StoredRunIdentifies(s: State, t: State, id: nat, e: Ensemble, r: Run)
    requires Identified(s) && id in s.ensembles && e == s.ensembles[id] && e.execution.Some?
    requires t == Store(s, id, r).(counters := t.counters)
    requires RunAsked(e.spec, r) && IdsAdvance(s.ids, r.ids) && r.x.result == e.execution.value.result
    ensures Identified(t)
  {
    assert RecordedAt(s, id);
    PutIdentifies(s, t, id, e.(participants := r.participants, execution := Some(r.x)));
  }

  lemma AdvanceIdentifies(sys: System, id: nat, generation: nat)
    requires SysInv(sys) && Identified(sys.fabric)
    ensures Identified(Advance(sys.fabric, id, generation).state)
  {
    var s := sys.fabric;
    var t := Advance(s, id, generation).state;
    assert RecordedAt(s, id);
    var kind := AdvanceCases(s, id, generation);
    match kind {
      case Nothing =>
      case Superseding =>
        PutIdentifies(s, t, id, t.ensembles[id]);
      case Running(r) =>
        var e := s.ensembles[id];
        At(sys, id);
        AdvanceRunKeeps(s, sys.logs[id], id, e, r);
        CancellationStaysAsked(ContextOf(s, e), StartOf(s, e));
        AdvanceStaysAsked(ContextOf(s, e), StartOf(s, e));
        StoredRunIdentifies(s, t, id, e, r);
    }
  }

  /** One execution moves on; its result does not change. */
  lemma ExecutionIdentifies(s: State, t: State, id: nat, y: Execution)
    requires Identified(s) && id in s.ensembles && s.ensembles[id].execution.Some?
    requires t.ensembles == s.ensembles[id := s.ensembles[id].(execution := Some(y))]
    requires t.ids == s.ids || t.ids == AfterSequence(s.ids)
    requires y.result == s.ensembles[id].execution.value.result
    requires Asked(s.ensembles[id].spec, s.ids.evaluation, y)
    ensures Identified(t)
  {
    assert RecordedAt(s, id);
    PutIdentifies(s, t, id, s.ensembles[id].(execution := Some(y)));
  }

  lemma SubmissionIdentifies(s: State, a: CandidateAuthority, payload: seq<byte>, rawKind: nat)
    requires Identified(s)
    ensures Identified(SubmitCandidate(s, a, payload).0)
    ensures Identified(SubmitFailure(s, a, rawKind).0)
    ensures Identified(SubmitAbstention(s, a).0)
  {
    var id := a.participant.ensemble;
    var output, failure, abstention := SubmitCandidate(s, a, payload), SubmitFailure(s, a, rawKind), SubmitAbstention(s, a);
    assert RecordedAt(s, id);
    if SubmissionFault(s, a).None? {
      var x, k := SubmissionTarget(s, a);
      if output.1.Ok? {
        ExecutionIdentifies(s, output.0, id, output.0.ensembles[id].execution.value);
      } else {
        CountersIdentify(s, output.0);
      }
      if failure.1.Ok? {
        RewindStaysAsked(s.ensembles[id].spec, s.ids.evaluation, x, k);
        FailureStaysAsked(s.ensembles[id].spec, s.ids.evaluation, x, k, FailureOf(KindOf(rawKind).value));
        ExecutionIdentifies(s, failure.0, id, failure.0.ensembles[id].execution.value);
      } else {
        CountersIdentify(s, failure.0);
      }
      ExecutionIdentifies(s, abstention.0, id, abstention.0.ensembles[id].execution.value);
    } else {
      CountersIdentify(s, output.0);
    }
  }

  lemma AnswerStaysAsked(spec: RuntimeSpec, next: nat, x: Execution, j: nat, f: Evaluation)
    requires Asked(spec, next, x) && j < |x.pending|
    requires f.id == x.pending[j].id && f.kind == x.pending[j].kind && f.criterion == x.pending[j].criterion
    ensures Asked(spec, next, x.(evaluations := x.evaluations + [f], pending := x.pending[j := x.pending[j].(answered := true)]))
  {
    assert x.pending[j] in x.pending;
    MarkStaysAsked(spec, next, x.(evaluations := x.evaluations + [f]), j, x.pending[j].(answered := true));
  }

  lemma EvaluationIdentifies(s: State, sub: EvaluationSubmission)
    requires Identified(s)
    ensures Identified(SubmitEvaluation(s, sub).0)
  {
    var t := SubmitEvaluation(s, sub).0;
    if EvaluationFaultOf(s, sub).None? {
      var id := sub.authority.evaluator.ensemble;
      var e := s.ensembles[id];
      var x := e.execution.value;
      assert RecordedAt(s, id);
      var j := FindPending(x.pending, sub.authority.evaluation).value;
      var p := e.participants[FindParticipant(e.participants, sub.authority.evaluator.participant).value];
      AnswerStaysAsked(e.spec, s.ids.evaluation, x, j, EvaluationOf(s, sub, x.pending[j], p));
      ExecutionIdentifies(s, t, id, t.ensembles[id].execution.value);
    } else {
      CountersIdentify(s, t);
    }
  }

  lemma PreparationIdentifies(s: State, id: nat, generation: nat)
    requires Identified(s)
    ensures Identified(Prepare(s, id, generation).0)
  {
    if GenerationFault(s, id, generation).None? && s.ensembles[id].execution.Some? {
      PrepareCases(s, id, generation);
      assert RecordedAt(s, id);
      var t := Prepare(s, id, generation).0;
      if s.ensembles[id].execution.value.result.None? {
        ExecutionIdentifies(s, t, id, t.ensembles[id].execution.value);
      }
    }
  }

  lemma CommitIdentifies(s: State, r: Result)
    requires Identified(s)
    ensures Identified(Commit(s, r).state)
  {
    var v := Commit(s, r);
    CommitCases(s, r);
    assert RecordedAt(s, r.ensemble);
    if v.published {
      CommitAllocates(s, r);
      PutIdentifies(s, v.state, r.ensemble, v.state.ensembles[r.ensemble]);
    } else {
      CountersIdentify(s, v.state);
    }
  }

  lemma CommitAllocates(s: State, r: Result)
    requires Commit(s, r).published
    ensures s.ids.result < U64_MAX && Commit(s, r).state.ids == AfterSequence(s.ids).(result := s.ids.result + 1)
  {
  }

  // ---- Loading a state file -------------------------------------------------------------------------------------------

  lemma {:induction false} ObservedCandidatesInRange(ids: Ids, cs: seq<Candidate>)
    requires InRange(ids)
    ensures InRange(ObserveCandidates(ids, cs))
  {
    if cs != [] {
      ObservedCandidatesInRange(ids, cs[..|cs| - 1]);
    }
  }

  lemma {:induction false} ObservedEvaluationsInRange(ids: Ids, es: seq<Evaluation>)
    requires InRange(ids)
    ensures InRange(ObserveEvaluations(ids, es))
  {
    if es != [] {
      ObservedEvaluationsInRange(ids, es[..|es| - 1]);
    }
  }

  lemma {:induction false} ObservedInRange(ids: Ids, list: seq<Ensemble>)
    requires InRange(ids)
    ensures InRange(ObserveAll(ids, list))
  {
    if list != [] {
      var n := |list| - 1;
      ObservedInRange(ids, list[..n]);
      var before, e := ObserveAll(ids, list[..n]), list[n];
      var named := before.(ensemble := Observe(before.ensemble, e.spec.id));
      if e.execution.Some? {
        ObservedCandidatesInRange(named, e.execution.value.candidates);
        ObservedEvaluationsInRange(ObserveCandidates(named, e.execution.value.candidates), e.execution.value.evaluations);
      }
    }
  }

  /** Whatever was recorded when the file was written is still behind the allocators of the new process. */
  lemma LoadIdentifies(sys: System, saved: Saved)
    requires SysInv(sys) && Identified(sys.fabric) && WrittenBy(sys.fabric, saved)
    ensures Identified(Load(Blank(sys.fabric.config), saved))
  {
    var s, t := sys.fabric, Load(Blank(sys.fabric.config), saved);
    LoadedEnsembles(sys, saved);
    LoadedIdsReach(s, saved);
    ObservedInRange(RaiseAll(FIRST_IDS, saved.watermarks), Kept(saved.ensembles));
    forall k ensures RecordedAt(t, k) {
      assert RecordedAt(s, k);
      if k in s.ensembles {
        RecordedLater(s.ids, t.ids, s.ensembles[k]);
      }
    }
  }

  // ---- Every step ---------------------------------------------------------------------------------------------------------

  lemma ManagingIdentifies(sys: System, op: Op)
    requires Identified(sys.fabric) && Managing(op)
    ensures Identified(Step(sys, op).fabric)
  {
    var s := sys.fabric;
    if op.OpDefine? {
      DefineIdentifies(s, op.asked, op.digest);
    } else if op.OpSupersede? || op.OpOpen? || op.OpCancel? {
      ManagementIdentifies(s, op.ensemble, op.generation);
    } else if op.OpRegister? {
      RegisterIdentifies(s, op.registration);
    } else if op.OpReportFailure? {
      ReportIdentifies(s, op.authority, op.kind);
    } else {
      InvalidationIdentifies(s);
    }
  }

  lemma WorkingIdentifies(sys: System, op: Op)
    requires SysInv(sys) && Identified(sys.fabric) && Working(op)
    ensures Identified(Step(sys, op).fabric)
  {
    var s := sys.fabric;
    if op.OpAdvance? {
      AdvanceIdentifies(sys, op.ensemble, op.generation);
    } else if op.OpSubmitCandidate? {
      SubmissionIdentifies(s, op.candidate, op.payload, 0);
    } else if op.OpSubmitFailure? {
      SubmissionIdentifies(s, op.candidate, [], op.rawKind);
    } else if op.OpSubmitAbstention? {
      SubmissionIdentifies(s, op.candidate, [], 0);
    } else {
      EvaluationIdentifies(s, op.submission);
    }
  }

  lemma ConcludingIdentifies(sys: System, op: Op)
    requires Identified(sys.fabric) && Concluding(op)
    ensures Identified(Step(sys, op).fabric)
  {
    var s := sys.fabric;
    if op.OpPrepare? {
      PreparationIdentifies(s, op.ensemble, op.generation);
    } else if op.OpCommit? {
      if op.index < |LogOf(sys, op.key).prepared| { CommitIdentifies(s, LogOf(sys, op.key).prepared[op.index]); }
    } else if op.OpFinalizePrepare? {
      var f := FinalizerOf(sys, op.thread);
      if f.Checked? { PreparationIdentifies(s, f.ensemble, f.generation); }
    } else if op.OpFinalizeCommit? {
      var f := FinalizerOf(sys, op.thread);
      if f.Ready? { CommitIdentifies(s, f.result); }
    }
  }

  lemma StepIdentifies(sys: System, op: Op)
    requires SysInv(sys) && Identified(sys.fabric)
    ensures Identified(Step(sys, op).fabric)
  {
    if Managing(op) {
      ManagingIdentifies(sys, op);
    } else if Working(op) {
      WorkingIdentifies(sys, op);
    } else if op.OpLoad? {
      if WrittenBy(sys.fabric, op.saved) { LoadIdentifies(sys, op.saved); }
    } else if op.OpNextEpoch? {
      CountersIdentify(sys.fabric, Step(sys, op).fabric);
    } else {
      ConcludingIdentifies(sys, op);
    }
  }
}
