/** Every loop of `advance` keeps the execution invariant and only moves the execution forward. */
module Advancing {
  import opened Base
  import opened Spec
  import opened Lifecycle
  import opened Records
  import opened Attempts
  import opened Reports
  import opened Progress
  import opened Monotone
  import opened Invariants

  // ---- One more action ----------------------------------------------------------------------------

  lemma BudgetSeesOthers(max: nat, acts: seq<Action>, a: Action, c: Candidate)
    requires BudgetInv(max, acts, c) && (a.DispatchAction? ==> a.candidate != c.id)
    ensures BudgetInv(max, acts + [a], c)
  {
    DispatchesSnoc(acts, a, c.id);
    forall g ensures DispatchesAt(acts + [a], c.id, g) == DispatchesAt(acts, c.id, g) {
      DispatchesAtSnoc(acts, a, c.id, g);
    }
  }

  lemma NeutralActionKeeps(spec: RuntimeSpec, next: nat, acts: seq<Action>, acc: seq<Acceptance>, x: Execution, a: Action)
    requires ExecInv(spec, next, acts, acc, x) && LogInv(next, acts, acc) && !a.DispatchAction?
    ensures ExecInv(spec, next, acts + [a], acc, x) && LogInv(next, acts + [a], acc)
  {
    forall i | 0 <= i < |x.candidates| ensures BudgetInv(spec.retry.maxAttempts, acts + [a], x.candidates[i]) {
      BudgetSeesOthers(spec.retry.maxAttempts, acts, a, x.candidates[i]);
    }
    forall id, g ensures DispatchesAt(acts + [a], id, g) <= 1 {
      DispatchesAtSnoc(acts, a, id, g);
    }
  }

  // ---- Dispatch -----------------------------------------------------------------------------------

  lemma DispatchSpendsBudget(max: nat, acts: seq<Action>, a: Action, c: Candidate, d: Candidate)
    requires BudgetInv(max, acts, c) && c.state == Declared && d.state == Dispatched
    requires d.id == c.id && d.generation == c.generation && d.attempt == c.attempt && d.attemptsUsed == c.attemptsUsed + 1
    requires a.DispatchAction? && a.candidate == c.id && a.candidateGeneration == c.generation
    ensures BudgetInv(max, acts + [a], d)
  {
    DispatchesSnoc(acts, a, c.id);
    forall g ensures DispatchesAt(acts + [a], c.id, g) == DispatchesAt(acts, c.id, g) + if g == c.generation then 1 else 0 {
      DispatchesAtSnoc(acts, a, c.id, g);
    }
  }

  lemma DispatchKeepsLog(next: nat, acts: seq<Action>, acc: seq<Acceptance>, a: Action)
    requires LogInv(next, acts, acc)
    requires a.DispatchAction? && a.candidate < next && DispatchesAt(acts, a.candidate, a.candidateGeneration) == 0
    ensures LogInv(next, acts + [a], acc)
  {
    forall id, g ensures DispatchesAt(acts + [a], id, g) <= 1 {
      DispatchesAtSnoc(acts, a, id, g);
    }
  }

  lemma DispatchKeepsSlots(max: nat, next: nat, acts: seq<Action>, acc: seq<Acceptance>, cs: seq<Candidate>, k: nat,
                           d: Candidate, a: Action)
    requires SlotsInv(max, next, acts, acc, cs) && k < |cs| && cs[k].state == Declared && CandidateAdvances(cs[k], d)
    requires d.state == Dispatched && d.generation == cs[k].generation && d.attempt == cs[k].attempt
             && d.attemptsUsed == cs[k].attemptsUsed + 1
    requires a.DispatchAction? && a.candidate == cs[k].id && a.candidateGeneration == cs[k].generation
    ensures SlotsInv(max, next, acts + [a], acc, cs[k := d])
  {
    var ds := cs[k := d];
    forall i | 0 <= i < |ds| ensures BudgetInv(max, acts + [a], ds[i]) {
      assert BudgetInv(max, acts, cs[i]);
      if i == k {
        DispatchSpendsBudget(max, acts, a, cs[k], d);
      } else {
        assert cs[i].id != cs[k].id;
        BudgetSeesOthers(max, acts, a, cs[i]);
      }
    }
    forall i | 0 <= i < |ds| ensures ContentInv(acc, ds[i]) {
      assert ContentInv(acc, cs[i]);
    }
  }

  /** Dispatching a declared slot spends one attempt and logs exactly one dispatch of its generation. */
  lemma DispatchKeeps(spec: RuntimeSpec, next: nat, acts: seq<Action>, acc: seq<Acceptance>, x: Execution, k: nat,
                      d: Candidate, a: Action)
    requires ExecInv(spec, next, acts, acc, x) && LogInv(next, acts, acc)
    requires k < |x.candidates| && x.candidates[k].state == Declared && CandidateAdvances(x.candidates[k], d)
    requires d.state == Dispatched && d.generation == x.candidates[k].generation && d.attempt == x.candidates[k].attempt
             && d.attemptsUsed == x.candidates[k].attemptsUsed + 1
    requires a.DispatchAction? && a.candidate == x.candidates[k].id && a.candidateGeneration == x.candidates[k].generation
    requires InSequence(Plan(spec, x), x.stageIndex) ==>
               forall i :: 0 <= i < k && x.candidates[i].stage == d.stage ==> !InFlight(x.candidates[i].state)
    ensures ExecInv(spec, next, acts + [a], acc, x.(candidates := x.candidates[k := d]))
    ensures LogInv(next, acts + [a], acc)
    ensures ExecutionAdvances(x, x.(candidates := x.candidates[k := d]))
  {
    var y := x.(candidates := x.candidates[k := d]);
    assert BudgetInv(spec.retry.maxAttempts, acts, x.candidates[k]);
    DispatchKeepsLog(next, acts, acc, a);
    DispatchKeepsSlots(spec.retry.maxAttempts, next, acts, acc, x.candidates, k, d, a);
    UpdateAdvances(x, k, d);
    BarrierKeptBySlot(Plan(spec, x), x.stageIndex, x.candidates, k, d);
    EvidenceAdvances(spec.evidence.mandatoryCriteria, x.candidates, y.candidates, x.evaluations, x.pending);
    assert Plan(spec, y) == Plan(spec, x);
  }

  // ---- Declaration ----------------------------------------------------------------------------------

  lemma NewSlotKeepsSlots(max: nat, next: nat, acts: seq<Action>, acc: seq<Acceptance>, cs: seq<Candidate>, c: Candidate)
    requires SlotsInv(max, next, acts, acc, cs) && LogInv(next, acts, acc) && max >= 1
    requires c.id == next && c.generation == 1 && c.attempt == 1 && c.attemptsUsed == 0 && c.state == Declared
    ensures SlotsInv(max, next + 1, acts, acc, cs + [c]) && LogInv(next + 1, acts, acc)
  {
    UnallocatedWasNeverDispatched(acts, next, c.id, 1);
    forall g ensures DispatchesAt(acts, c.id, g) == 0 && AcceptancesAt(acc, c.id, g) == 0 {
      UnallocatedWasNeverDispatched(acts, next, c.id, g);
      UnallocatedWasNeverAccepted(acc, next, c.id, g);
    }
    assert BudgetInv(max, acts, c) && ContentInv(acc, c);
  }

  lemma NewSlotKeepsBarrier(plan: seq<Stage>, index: nat, cs: seq<Candidate>, c: Candidate)
    requires BarrierInv(plan, index, cs) && AtStage(plan, index, c) && c.state == Declared
    ensures BarrierInv(plan, index, cs + [c])
  {
    assert StageReached(plan, index, c.stage) by { assert plan[index].id == c.stage; }
  }

  lemma AppendAdvances(x: Execution, c: Candidate)
    ensures ExecutionAdvances(x, x.(candidates := x.candidates + [c]))
  {
  }

  lemma NewSlotKeeps(spec: RuntimeSpec, next: nat, acts: seq<Action>, acc: seq<Acceptance>, x: Execution, c: Candidate)
    requires ExecInv(spec, next, acts, acc, x) && LogInv(next, acts, acc) && spec.retry.maxAttempts >= 1
    requires c.id == next && c.generation == 1 && c.attempt == 1 && c.attemptsUsed == 0 && c.state == Declared
    requires AtStage(Plan(spec, x), x.stageIndex, c)
    ensures ExecInv(spec, next + 1, acts, acc, x.(candidates := x.candidates + [c]))
    ensures LogInv(next + 1, acts, acc)
  {
    var y := x.(candidates := x.candidates + [c]);
    NewSlotKeepsSlots(spec.retry.maxAttempts, next, acts, acc, x.candidates, c);
    NewSlotKeepsBarrier(Plan(spec, x), x.stageIndex, x.candidates, c);
    AppendAdvances(x, c);
    EvidenceAdvances(spec.evidence.mandatoryCriteria, x.candidates, y.candidates, x.evaluations, x.pending);
    assert Plan(spec, y) == Plan(spec, x);
  }

  // ---- Runs -----------------------------------------------------------------------------------------

  /** The invariant of a running advance: `past` is what was performed before the call. */
  ghost predicate RunInv(ctx: Context, past: seq<Action>, acc: seq<Acceptance>, r: Run) {
    && ExecInv(ctx.spec, r.ids.candidate, past + r.actions, acc, r.x)
    && LogInv(r.ids.candidate, past + r.actions, acc)
    && ctx.spec.retry.maxAttempts >= 1
  }

  /** What a part of an advance may do: nothing here withdraws evidence or decides the execution. */
  ghost predicate RunAdvances(r: Run, r': Run) {
    && ExecutionAdvances(r.x, r'.x)
    && r'.x.result == r.x.result && r'.x.status == r.x.status && r'.x.evaluations == r.x.evaluations
    && r'.x.extraStages == r.x.extraStages && r'.x.stageIndex >= r.x.stageIndex
    && r'.x.fallbackActivated == r.x.fallbackActivated
    && r'.participants == r.participants
    && IdsAdvance(r.ids, r'.ids)
    && r.actions <= r'.actions
  }

  ghost predicate Keeps(ctx: Context, past: seq<Action>, acc: seq<Acceptance>, r: Run, r': Run) {
    RunInv(ctx, past, acc, r') && RunAdvances(r, r')
  }

  lemma RunAdvancesTransitive(r: Run, r1: Run, r2: Run)
    requires RunAdvances(r, r1) && RunAdvances(r1, r2)
    ensures RunAdvances(r, r2)
  {
    ExecutionAdvancesTransitive(r.x, r1.x, r2.x);
  }

  lemma KeepsReflexive(ctx: Context, past: seq<Action>, acc: seq<Acceptance>, r: Run)
    requires RunInv(ctx, past, acc, r)
    ensures Keeps(ctx, past, acc, r, r)
  {
  }

  lemma KeepsTransitive(ctx: Context, past: seq<Action>, acc: seq<Acceptance>, r: Run, r1: Run, r2: Run)
    requires Keeps(ctx, past, acc, r, r1) && Keeps(ctx, past, acc, r1, r2)
    ensures Keeps(ctx, past, acc, r, r2)
  {
    RunAdvancesTransitive(r, r1, r2);
  }

  /** Flags of the run and of the execution that no invariant reads. */
  lemma FlagsKeep(ctx: Context, past: seq<Action>, acc: seq<Acceptance>, r: Run, declared: bool, planned: bool,
                  reports: ReportSet, progress: bool)
    requires RunInv(ctx, past, acc, r)
    ensures var r' := r.(x := r.x.(declaredCurrentStage := declared, planningComplete := planned, reports := reports),
                         progress := progress);
            Keeps(ctx, past, acc, r, r')
  {
    var r' := r.(x := r.x.(declaredCurrentStage := declared, planningComplete := planned, reports := reports),
                 progress := progress);
    assert Plan(ctx.spec, r'.x) == Plan(ctx.spec, r.x);
  }

  // ---- Declaration loop -------------------------------------------------------------------------------

  ghost predicate CurrentStage(ctx: Context, r: Run, stage: Stage) {
    r.x.stageIndex < |Plan(ctx.spec, r.x)| && stage == Plan(ctx.spec, r.x)[r.x.stageIndex]
  }

  function Enlisted(r: Run, c: Candidate): Run {
    r.(x := r.x.(candidates := r.x.candidates + [c]), ids := r.ids.(candidate := r.ids.candidate + 1))
  }

  lemma EnlistKeeps(ctx: Context, past: seq<Action>, acc: seq<Acceptance>, stage: Stage, r: Run, d: ParticipantSpec, g: nat)
    requires RunInv(ctx, past, acc, r) && CurrentStage(ctx, r, stage) && d.id in stage.participants
    ensures Keeps(ctx, past, acc, r, Enlisted(r, NewCandidate(r.ids.candidate, d, stage, g)))
  {
    var c := NewCandidate(r.ids.candidate, d, stage, g);
    NewSlotKeeps(ctx.spec, r.ids.candidate, past + r.actions, acc, r.x, c);
    AppendAdvances(r.x, c);
  }

  lemma DeclareOneKeeps(ctx: Context, past: seq<Action>, acc: seq<Acceptance>, stage: Stage, r: Run, participant: nat)
    requires RunInv(ctx, past, acc, r) && CurrentStage(ctx, r, stage) && participant in stage.participants
    ensures Keeps(ctx, past, acc, r, DeclareOne(ctx, stage, r, participant).run)
  {
    var v := DeclareOne(ctx, stage, r, participant);
    if v.run != r {
      var d := FindSpec(ctx.spec.participants, participant).value;
      var g := GenerationOf(r.participants, participant);
      EnlistKeeps(ctx, past, acc, stage, r, d, g);
      assert v.run == Enlisted(r, NewCandidate(r.ids.candidate, d, stage, g));
    }
  }

  lemma {:induction false} DeclareKeeps(ctx: Context, past: seq<Action>, acc: seq<Acceptance>, stage: Stage, r: Run, k: nat)
    requires RunInv(ctx, past, acc, r) && CurrentStage(ctx, r, stage)
    ensures Keeps(ctx, past, acc, r, DeclareFrom(ctx, stage, r, k).run)
    ensures DeclareFrom(ctx, stage, r, k).Proceed? ==> DeclareFrom(ctx, stage, r, k).run.x.declaredCurrentStage
    decreases |stage.participants| - k
  {
    if k >= |stage.participants| {
      FlagsKeep(ctx, past, acc, r, true, r.x.planningComplete, r.x.reports, true);
    } else {
      var v := DeclareOne(ctx, stage, r, stage.participants[k]);
      DeclareOneKeeps(ctx, past, acc, stage, r, stage.participants[k]);
      if v.Proceed? {
        DeclareKeeps(ctx, past, acc, stage, v.run, k + 1);
        RunAdvancesTransitive(r, v.run, DeclareFrom(ctx, stage, v.run, k + 1).run);
      }
    }
  }

  // ---- Dispatch loop ------------------------------------------------------------------------------------

  lemma TouchKeeps(ctx: Context, past: seq<Action>, acc: seq<Acceptance>, r: Run, k: nat, p: Participant)
    requires RunInv(ctx, past, acc, r) && k < |r.x.candidates| && r.x.candidates[k].state == Declared
    ensures Keeps(ctx, past, acc, r, Touched(r, k, p))
  {
    var c := r.x.candidates[k];
    var d := c.(participantGeneration := p.generation);
    assert BudgetInv(ctx.spec.retry.maxAttempts, past + r.actions, c) && ContentInv(acc, c);
    SlotStepKeeps(ctx.spec, r.ids.candidate, past + r.actions, acc, r.x, k, d);
  }

  lemma FailKeeps(ctx: Context, past: seq<Action>, acc: seq<Acceptance>, r: Run, k: nat)
    requires RunInv(ctx, past, acc, r) && k < |r.x.candidates| && r.x.candidates[k].state == Declared
    ensures Keeps(ctx, past, acc, r, GiveUp(r, k))
  {
    FailureIsSlotStep(ctx.spec, r.ids.candidate, past + r.actions, acc, r.x, k, ParticipantUnavailable);
  }

  lemma NoEarlierPending(cs: seq<Candidate>, k: nat)
    requires IncreasingIds(cs) && k < |cs| && !EarlierPending(cs, cs[k].stage, cs[k].id)
    ensures forall i :: 0 <= i < k && cs[i].stage == cs[k].stage ==> !InFlight(cs[i].state)
  {
    forall i | 0 <= i < k && cs[i].stage == cs[k].stage ensures !InFlight(cs[i].state) {
      assert cs[i] in cs;
    }
  }

  lemma DispatchAtKeeps(ctx: Context, past: seq<Action>, acc: seq<Acceptance>, stage: Stage, r: Run, k: nat, p: Participant)
    requires RunInv(ctx, past, acc, r) && CurrentStage(ctx, r, stage)
    requires k < |r.x.candidates| && r.x.candidates[k].state == Declared && r.x.candidates[k].stage == stage.id
    requires stage.mode == Sequential ==> !EarlierPending(r.x.candidates, stage.id, r.x.candidates[k].id)
    ensures Keeps(ctx, past, acc, r, DispatchAt(ctx, r, k, p))
  {
    var c := r.x.candidates[k];
    var d := DispatchedCandidate(c, p, ctx.epoch, SequenceValue(r.ids));
    var a := DispatchOf(KeyOf(ctx, r.x), c, p, SequenceValue(r.ids));
    if stage.mode == Sequential {
      NoEarlierPending(r.x.candidates, k);
    }
    DispatchKeeps(ctx.spec, r.ids.candidate, past + r.actions, acc, r.x, k, d, a);
    assert past + (r.actions + [a]) == past + r.actions + [a];
    assert DispatchAt(ctx, r, k, p).x == r.x.(candidates := r.x.candidates[k := d]);
  }

  lemma VisitServedKeeps(ctx: Context, past: seq<Action>, acc: seq<Acceptance>, stage: Stage, r: Run, k: nat, p: Participant)
    requires RunInv(ctx, past, acc, r) && CurrentStage(ctx, r, stage) && k < |r.x.candidates|
    requires r.x.candidates[k].stage == stage.id && r.x.candidates[k].state == Declared
    ensures Keeps(ctx, past, acc, r, VisitServed(ctx, stage, r, k, p).0)
  {
    var c := r.x.candidates[k];
    var v := VisitServed(ctx, stage, r, k, p);
    if p.Authoritative(ctx.epoch) && !(stage.mode == Sequential && EarlierPending(r.x.candidates, stage.id, c.id)) {
      DispatchAtKeeps(ctx, past, acc, stage, r, k, p);
      assert v.0 == DispatchAt(ctx, r, k, p);
    } else if !p.Authoritative(ctx.epoch) && !p.Capable() && !AwaitingReplacement(ctx.spec, c) {
      FailKeeps(ctx, past, acc, r, k);
      assert v.0 == GiveUp(r, k);
    } else {
      KeepsReflexive(ctx, past, acc, r);
      assert v.0 == r;
    }
  }

  lemma VisitKeeps(ctx: Context, past: seq<Action>, acc: seq<Acceptance>, stage: Stage, r: Run, k: nat)
    requires RunInv(ctx, past, acc, r) && CurrentStage(ctx, r, stage) && k < |r.x.candidates|
    ensures Keeps(ctx, past, acc, r, Visit(ctx, stage, r, k).0)
  {
    var c := r.x.candidates[k];
    var v := Visit(ctx, stage, r, k);
    var j := FindParticipant(r.participants, c.participant);
    if c.stage == stage.id && c.state == Declared && j.Some? {
      var p := r.participants[j.value];
      var r1 := Touched(r, k, p);
      TouchKeeps(ctx, past, acc, r, k, p);
      VisitServedKeeps(ctx, past, acc, stage, r1, k, p);
      assert v == VisitServed(ctx, stage, r1, k, p);
      KeepsTransitive(ctx, past, acc, r, r1, v.0);
    } else {
      KeepsReflexive(ctx, past, acc, r);
      assert v.0 == r;
    }
  }

  lemma VisitKeepsStage(ctx: Context, past: seq<Action>, acc: seq<Acceptance>, stage: Stage, r: Run, k: nat, r1: Run)
    requires RunInv(ctx, past, acc, r) && CurrentStage(ctx, r, stage) && k < |r.x.candidates|
    requires r1 == Visit(ctx, stage, r, k).0
    ensures Keeps(ctx, past, acc, r, r1) && CurrentStage(ctx, r1, stage)
  {
    VisitKeeps(ctx, past, acc, stage, r, k);
  }

  lemma {:induction false} DispatchLoopKeeps(ctx: Context, past: seq<Action>, acc: seq<Acceptance>, stage: Stage, r: Run, k: nat, w: Run)
    requires RunInv(ctx, past, acc, r) && CurrentStage(ctx, r, stage)
    requires w == DispatchFrom(ctx, stage, r, k)
    ensures Keeps(ctx, past, acc, r, w)
    decreases |r.x.candidates| - k
  {
    if k < |r.x.candidates| {
      var v := Visit(ctx, stage, r, k);
      VisitKeepsStage(ctx, past, acc, stage, r, k, v.0);
      if v.1 {
        assert w == DispatchFrom(ctx, stage, v.0, k + 1);
        DispatchLoopKeeps(ctx, past, acc, stage, v.0, k + 1, w);
        KeepsTransitive(ctx, past, acc, r, v.0, w);
      } else {
        assert w == v.0;
      }
    } else {
      KeepsReflexive(ctx, past, acc, r);
      assert w == r;
    }
  }

  // ---- Stage loop ---------------------------------------------------------------------------------------

  /** A complete stage leaves nothing in flight: the next one starts behind a barrier. */
  lemma CompleteStageIsResolved(plan: seq<Stage>, index: nat, cs: seq<Candidate>)
    requires BarrierInv(plan, index, cs) && index < |plan| && StageComplete(plan[index], cs)
    ensures forall i :: 0 <= i < |cs| ==> !InFlight(cs[i].state)
    ensures BarrierInv(plan, index + 1, cs)
  {
    forall i | 0 <= i < |cs| ensures !InFlight(cs[i].state) {
      var c := cs[i];
      assert c in cs;
    }
    forall i | 0 <= i < |cs| ensures StageReached(plan, index + 1, cs[i].stage) {
      assert StageReached(plan, index, cs[i].stage);
    }
  }

  lemma NextStageKeeps(ctx: Context, past: seq<Action>, acc: seq<Acceptance>, stage: Stage, r: Run)
    requires RunInv(ctx, past, acc, r) && CurrentStage(ctx, r, stage) && StageComplete(stage, r.x.candidates)
    ensures Keeps(ctx, past, acc, r, NextStage(r))
  {
    CompleteStageIsResolved(Plan(ctx.spec, r.x), r.x.stageIndex, r.x.candidates);
    assert Plan(ctx.spec, NextStage(r).x) == Plan(ctx.spec, r.x);
  }

  lemma DeclareStageKeeps(ctx: Context, past: seq<Action>, acc: seq<Acceptance>, stage: Stage, r: Run)
    requires RunInv(ctx, past, acc, r) && CurrentStage(ctx, r, stage)
    ensures Keeps(ctx, past, acc, r, Declare(ctx, stage, r).run)
    ensures Declare(ctx, stage, r).Proceed? ==> Declare(ctx, stage, r).run.x.declaredCurrentStage
  {
    if !r.x.declaredCurrentStage {
      DeclareKeeps(ctx, past, acc, stage, r, 0);
    }
  }

  lemma {:induction false} StageLoopKeeps(ctx: Context, past: seq<Action>, acc: seq<Acceptance>, stages: seq<Stage>, r: Run)
    requires RunInv(ctx, past, acc, r) && stages == Plan(ctx.spec, r.x)
    ensures Keeps(ctx, past, acc, r, StageLoop(ctx, stages, r).run)
    decreases |stages| - r.x.stageIndex
  {
    if r.x.stageIndex < |stages| {
      var stage := stages[r.x.stageIndex];
      var v := Declare(ctx, stage, r);
      DeclareStageKeeps(ctx, past, acc, stage, r);
      if v.Proceed? {
        var r2 := DispatchFrom(ctx, stage, v.run, 0);
        DispatchLoopKeeps(ctx, past, acc, stage, v.run, 0, r2);
        RunAdvancesTransitive(r, v.run, r2);
        if StageComplete(stage, r2.x.candidates) {
          NextStageKeeps(ctx, past, acc, stage, r2);
          RunAdvancesTransitive(r, r2, NextStage(r2));
          StageLoopKeeps(ctx, past, acc, stages, NextStage(r2));
          RunAdvancesTransitive(r, NextStage(r2), StageLoop(ctx, stages, NextStage(r2)).run);
        }
      }
    }
  }

  // ---- Planning -----------------------------------------------------------------------------------------

  lemma NewPendingKeeps(mandatory: seq<Criterion>, cs: seq<Candidate>, qs: seq<Pending>, q: Pending)
    requires PendingInv(mandatory, cs, qs) && Supported(cs, q.candidate, q.candidateGeneration)
    requires q.kind == HardPredicate ==> q.criterion in mandatory
    ensures PendingInv(mandatory, cs, qs + [q])
  {
  }

  function WithPlanned(r: Run, q: Pending, next: nat): Run {
    r.(x := r.x.(pending := r.x.pending + [q]), ids := r.ids.(evaluation := next))
  }

  lemma PlanOneKeeps(ctx: Context, past: seq<Action>, acc: seq<Acceptance>, r: Run, q: Pending, next: nat)
    requires RunInv(ctx, past, acc, r) && Supported(r.x.candidates, q.candidate, q.candidateGeneration)
    requires q.kind == HardPredicate ==> q.criterion in ctx.spec.evidence.mandatoryCriteria
    requires r.ids.evaluation <= next
    ensures Keeps(ctx, past, acc, r, WithPlanned(r, q, next))
    ensures WithPlanned(r, q, next).x.candidates == r.x.candidates
  {
    NewPendingKeeps(ctx.spec.evidence.mandatoryCriteria, r.x.candidates, r.x.pending, q);
    assert Plan(ctx.spec, WithPlanned(r, q, next).x) == Plan(ctx.spec, r.x);
  }

  lemma {:induction false} PlanCriteriaKeeps(ctx: Context, past: seq<Action>, acc: seq<Acceptance>, r: Run, evaluator: nat, role: Role,
                          kind: CriterionKind, c: Candidate, criteria: seq<Criterion>, k: nat)
    requires RunInv(ctx, past, acc, r) && Supported(r.x.candidates, c.id, c.generation)
    requires kind == HardPredicate ==> criteria == ctx.spec.evidence.mandatoryCriteria
    ensures var v := PlanCriteria(r, evaluator, role, kind, c, criteria, k);
            Keeps(ctx, past, acc, r, v.run) && v.run.x.candidates == r.x.candidates
    decreases |criteria| - k
  {
    if k < |criteria| && Allocate(r.ids.evaluation).Some? {
      var id, next := r.ids.evaluation, r.ids.evaluation + 1;
      var q := NewPending(id, evaluator, GenerationOf(r.participants, evaluator), role, c, criteria[k], kind);
      var r1 := WithPlanned(r, q, next);
      PlanOneKeeps(ctx, past, acc, r, q, next);
      PlanCriteriaKeeps(ctx, past, acc, r1, evaluator, role, kind, c, criteria, k + 1);
      RunAdvancesTransitive(r, r1, PlanCriteria(r1, evaluator, role, kind, c, criteria, k + 1).run);
    }
  }

  lemma PlanEvaluatorKeeps(ctx: Context, past: seq<Action>, acc: seq<Acceptance>, r: Run, d: ParticipantSpec, c: Candidate)
    requires RunInv(ctx, past, acc, r) && Supported(r.x.candidates, c.id, c.generation)
    ensures var v := PlanEvaluator(ctx, r, d, c);
            Keeps(ctx, past, acc, r, v.run) && v.run.x.candidates == r.x.candidates
  {
    var mandatory := ctx.spec.evidence.mandatoryCriteria;
    var verified := if d.roles.verifier then PlanCriteria(r, d.id, VerifierRole, HardPredicate, c, mandatory, 0) else Proceed(r);
    PlanCriteriaKeeps(ctx, past, acc, r, d.id, VerifierRole, HardPredicate, c, mandatory, 0);
    var r1 := verified.run;
    assert Keeps(ctx, past, acc, r, r1);
    if verified.Proceed? && d.roles.judge {
      PlanCriteriaKeeps(ctx, past, acc, r1, d.id, JudgeRole, RankingSignal, c, JudgingCriteria(ctx.spec), 0);
      RunAdvancesTransitive(r, r1, PlanCriteria(r1, d.id, JudgeRole, RankingSignal, c, JudgingCriteria(ctx.spec), 0).run);
    }
  }

  lemma {:induction false} PlanEvaluatorsKeeps(ctx: Context, past: seq<Action>, acc: seq<Acceptance>, r: Run,
                                               evaluators: seq<ParticipantSpec>, c: Candidate, k: nat)
    requires RunInv(ctx, past, acc, r) && Supported(r.x.candidates, c.id, c.generation)
    ensures var v := PlanEvaluators(ctx, r, evaluators, c, k);
            Keeps(ctx, past, acc, r, v.run) && v.run.x.candidates == r.x.candidates
    decreases |evaluators| - k
  {
    if k < |evaluators| {
      var v := PlanEvaluator(ctx, r, evaluators[k], c);
      PlanEvaluatorKeeps(ctx, past, acc, r, evaluators[k], c);
      if v.Proceed? {
        PlanEvaluatorsKeeps(ctx, past, acc, v.run, evaluators, c, k + 1);
        RunAdvancesTransitive(r, v.run, PlanEvaluators(ctx, v.run, evaluators, c, k + 1).run);
      }
    }
  }

  lemma ContentIsSupported(acc: seq<Acceptance>, cs: seq<Candidate>, k: nat)
    requires k < |cs| && ContentInv(acc, cs[k]) && IsContent(cs[k].state)
    ensures Supported(cs, cs[k].id, cs[k].generation)
  {
  }

  lemma {:induction false} PlanCandidatesKeeps(ctx: Context, past: seq<Action>, acc: seq<Acceptance>, r: Run, k: nat)
    requires RunInv(ctx, past, acc, r)
    ensures var v := PlanCandidates(ctx, r, r.x.candidates, k);
            Keeps(ctx, past, acc, r, v.run) && v.run.x.candidates == r.x.candidates
    decreases |r.x.candidates| - k
  {
    var cs := r.x.candidates;
    if k < |cs| {
      if !IsContent(cs[k].state) {
        PlanCandidatesKeeps(ctx, past, acc, r, k + 1);
      } else {
        ContentIsSupported(acc, cs, k);
        var v := PlanEvaluators(ctx, r, Evaluators(ctx.spec), cs[k], 0);
        PlanEvaluatorsKeeps(ctx, past, acc, r, Evaluators(ctx.spec), cs[k], 0);
        if v.Proceed? {
          PlanCandidatesKeeps(ctx, past, acc, v.run, k + 1);
          RunAdvancesTransitive(r, v.run, PlanCandidates(ctx, v.run, cs, k + 1).run);
        }
      }
    }
  }

  lemma PlanStepKeeps(ctx: Context, past: seq<Action>, acc: seq<Acceptance>, r: Run)
    requires RunInv(ctx, past, acc, r)
    ensures var v := PlanStep(ctx, r);
            Keeps(ctx, past, acc, r, v.run) && v.run.x.candidates == r.x.candidates
  {
    if !(r.x.planningComplete && !NeedsPlan(ctx.spec, r.x)) {
      var r1 := r.(x := r.x.(planningComplete := true), progress := true);
      FlagsKeep(ctx, past, acc, r, r.x.declaredCurrentStage, true, r.x.reports, true);
      PlanCandidatesKeeps(ctx, past, acc, r1, 0);
      RunAdvancesTransitive(r, r1, PlanCandidates(ctx, r1, r.x.candidates, 0).run);
    }
  }

  // ---- Emission -------------------------------------------------------------------------------------------

  lemma MarkPendingKeeps(ctx: Context, past: seq<Action>, acc: seq<Acceptance>, r: Run, k: nat, q: Pending)
    requires RunInv(ctx, past, acc, r) && k < |r.x.pending|
    requires q == r.x.pending[k].(emitted := q.emitted, abandoned := q.abandoned)
    ensures Keeps(ctx, past, acc, r, WithPending(r, k, q))
  {
    assert Plan(ctx.spec, WithPending(r, k, q).x) == Plan(ctx.spec, r.x);
  }

  lemma NeutralActKeeps(ctx: Context, past: seq<Action>, acc: seq<Acceptance>, r: Run, a: Action, ids: Ids, progress: bool)
    requires RunInv(ctx, past, acc, r) && !a.DispatchAction?
    requires IdsAdvance(r.ids, ids) && ids.candidate == r.ids.candidate
    ensures Keeps(ctx, past, acc, r, r.(ids := ids, actions := r.actions + [a], progress := progress))
  {
    NeutralActionKeeps(ctx.spec, r.ids.candidate, past + r.actions, acc, r.x, a);
    assert past + (r.actions + [a]) == past + r.actions + [a];
  }

  function EmittedAt(ctx: Context, r: Run, k: nat): Run
    requires k < |r.x.pending|
  {
    var q := r.x.pending[k];
    WithPending(r, k, q.(emitted := true)).(
      ids := AfterSequence(r.ids),
      actions := r.actions + [EvaluationActionOf(KeyOf(ctx, r.x), q, SequenceValue(r.ids))],
      progress := true)
  }

  lemma EmittedAtKeeps(ctx: Context, past: seq<Action>, acc: seq<Acceptance>, r: Run, k: nat)
    requires RunInv(ctx, past, acc, r) && k < |r.x.pending|
    ensures Keeps(ctx, past, acc, r, EmittedAt(ctx, r, k))
  {
    var q := r.x.pending[k];
    var r1 := WithPending(r, k, q.(emitted := true));
    MarkPendingKeeps(ctx, past, acc, r, k, q.(emitted := true));
    NeutralActKeeps(ctx, past, acc, r1, EvaluationActionOf(KeyOf(ctx, r.x), q, SequenceValue(r.ids)), AfterSequence(r.ids), true);
    RunAdvancesTransitive(r, r1, EmittedAt(ctx, r, k));
  }

  lemma ProgressFlagIsFree(ctx: Context, past: seq<Action>, acc: seq<Acceptance>, r: Run, r1: Run, progress: bool)
    requires Keeps(ctx, past, acc, r, r1)
    ensures Keeps(ctx, past, acc, r, r1.(progress := progress))
  {
  }

  lemma EmitAtKeeps(ctx: Context, past: seq<Action>, acc: seq<Acceptance>, r: Run, k: nat)
    requires RunInv(ctx, past, acc, r) && k < |r.x.pending|
    ensures Keeps(ctx, past, acc, r, EmitAt(ctx, r, k)) && EmitAt(ctx, r, k).x.candidates == r.x.candidates
  {
    var q := r.x.pending[k];
    var choice := ChoiceFor(ctx, r.participants, r.x.candidates, q);
    if choice.Emit? {
      EmittedAtKeeps(ctx, past, acc, r, k);
      assert EmitAt(ctx, r, k) == EmittedAt(ctx, r, k);
    } else if choice.Abandon? {
      var r1 := WithPending(r, k, q.(abandoned := true));
      MarkPendingKeeps(ctx, past, acc, r, k, q.(abandoned := true));
      ProgressFlagIsFree(ctx, past, acc, r, r1, r.progress || choice.visible);
      assert EmitAt(ctx, r, k) == r1.(progress := r.progress || choice.visible);
    } else {
      KeepsReflexive(ctx, past, acc, r);
      assert EmitAt(ctx, r, k) == r;
    }
  }

  lemma {:induction false} EmitKeeps(ctx: Context, past: seq<Action>, acc: seq<Acceptance>, r: Run, k: nat)
    requires RunInv(ctx, past, acc, r)
    ensures Keeps(ctx, past, acc, r, EmitFrom(ctx, r, k)) && EmitFrom(ctx, r, k).x.candidates == r.x.candidates
    decreases |r.x.pending| - k
  {
    if k < |r.x.pending| {
      var r1 := EmitAt(ctx, r, k);
      EmitAtKeeps(ctx, past, acc, r, k);
      EmitKeeps(ctx, past, acc, r1, k + 1);
      KeepsTransitive(ctx, past, acc, r, r1, EmitFrom(ctx, r1, k + 1));
    }
  }

  // ---- Fallback ---------------------------------------------------------------------------------------------

  /** Same participants, up to who was marked as an activated fallback. */
  ghost predicate OnlyMarked(ps: seq<Participant>, qs: seq<Participant>) {
    |qs| == |ps| && forall i :: 0 <= i < |ps| ==> qs[i] == ps[i].(fallbackActivated := qs[i].fallbackActivated)
  }

  lemma OnlyMarkedAdvances(ps: seq<Participant>, qs: seq<Participant>)
    requires OnlyMarked(ps, qs)
    ensures ParticipantsAdvance(ps, qs)
  {
    forall i | 0 <= i < |ps| ensures ParticipantAdvances(ps[i], qs[i]) {
      assert qs[i] == ps[i].(fallbackActivated := qs[i].fallbackActivated);
    }
  }

  /** A round may also activate the fallback: one more stage, and marks on its participants. */
  ghost predicate RoundAdvances(r: Run, r': Run) {
    && ExecutionAdvances(r.x, r'.x)
    && r'.x.result == r.x.result && r'.x.status == r.x.status && r'.x.evaluations == r.x.evaluations
    && (r.x.fallbackActivated ==> r'.x.fallbackActivated)
    && OnlyMarked(r.participants, r'.participants)
    && IdsAdvance(r.ids, r'.ids)
    && r.actions <= r'.actions
  }

  ghost predicate RoundKeeps(ctx: Context, past: seq<Action>, acc: seq<Acceptance>, r: Run, r': Run) {
    RunInv(ctx, past, acc, r') && RoundAdvances(r, r')
  }

  lemma RoundAdvancesTransitive(r: Run, r1: Run, r2: Run)
    requires RoundAdvances(r, r1) && RoundAdvances(r1, r2)
    ensures RoundAdvances(r, r2)
  {
    ExecutionAdvancesTransitive(r.x, r1.x, r2.x);
    forall i | 0 <= i < |r.participants|
      ensures r2.participants[i] == r.participants[i].(fallbackActivated := r2.participants[i].fallbackActivated)
    {
      assert r1.participants[i] == r.participants[i].(fallbackActivated := r1.participants[i].fallbackActivated);
    }
  }

  lemma RunAdvancesRound(r: Run, r1: Run)
    requires RunAdvances(r, r1)
    ensures RoundAdvances(r, r1)
  {
  }

  lemma MembersKeep(ctx: Context, past: seq<Action>, acc: seq<Acceptance>, r: Run, ps: seq<Participant>)
    requires RunInv(ctx, past, acc, r) && OnlyMarked(r.participants, ps)
    ensures RoundKeeps(ctx, past, acc, r, r.(participants := ps))
  {
  }

  lemma {:induction false} AnnounceKeeps(ctx: Context, past: seq<Action>, acc: seq<Acceptance>, r: Run, trigger: Trigger, k: nat)
    requires RunInv(ctx, past, acc, r)
    ensures var r' := AnnounceFrom(ctx, r, trigger, k);
            RoundKeeps(ctx, past, acc, r, r') && r'.x == r.x
    decreases |ctx.spec.fallback.participants| - k
  {
    if k < |ctx.spec.fallback.participants| {
      var id := ctx.spec.fallback.participants[k];
      var j := FindParticipant(r.participants, id);
      var ps := if j.Some? then r.participants[j.value := r.participants[j.value].(fallbackActivated := true)] else r.participants;
      var r1 := r.(participants := ps);
      MembersKeep(ctx, past, acc, r, ps);
      var a := FallbackAction(KeyOf(ctx, r.x), id, GenerationOf(r.participants, id), trigger, r.x.fallbackDepth, SequenceValue(r.ids));
      var r2 := r1.(ids := AfterSequence(r.ids), actions := r.actions + [a]);
      NeutralActKeeps(ctx, past, acc, r1, a, AfterSequence(r.ids), r.progress);
      RunAdvancesRound(r1, r2);
      AnnounceKeeps(ctx, past, acc, r2, trigger, k + 1);
      RoundAdvancesTransitive(r, r1, r2);
      RoundAdvancesTransitive(r, r2, AnnounceFrom(ctx, r2, trigger, k + 1));
    }
  }

  /** A new last stage is parallel and empty, so the barrier holds in front of it. */
  lemma NewStageKeepsBarrier(plan: seq<Stage>, cs: seq<Candidate>, stage: Stage)
    requires BarrierInv(plan, |plan|, cs) && stage.mode == Parallel
    ensures BarrierInv(plan + [stage], |plan|, cs)
  {
    forall i | 0 <= i < |cs| ensures StageReached(plan + [stage], |plan|, cs[i].stage) {
      assert StageReached(plan, |plan|, cs[i].stage);
      var k :| 0 <= k < |plan| && plan[k].id == cs[i].stage;
      assert (plan + [stage])[k].id == cs[i].stage;
    }
  }

  function Extended(ctx: Context, r: Run): Run {
    r.(x := r.x.(extraStages := r.x.extraStages + [FallbackStage(ctx.spec, r.x.fallbackDepth)], fallbackActivated := true,
                 fallbackDepth := r.x.fallbackDepth + 1, planningComplete := false), progress := true)
  }

  lemma ExtendKeeps(ctx: Context, past: seq<Action>, acc: seq<Acceptance>, r: Run)
    requires RunInv(ctx, past, acc, r) && r.x.stageIndex >= |Plan(ctx.spec, r.x)|
    requires ctx.spec.fallback.enabled && !r.x.fallbackActivated
    ensures RoundKeeps(ctx, past, acc, r, Extended(ctx, r))
  {
    var stage := FallbackStage(ctx.spec, r.x.fallbackDepth);
    NewStageKeepsBarrier(Plan(ctx.spec, r.x), r.x.candidates, stage);
    assert Plan(ctx.spec, Extended(ctx, r).x) == Plan(ctx.spec, r.x) + [stage];
  }

  lemma FallbackKeeps(ctx: Context, past: seq<Action>, acc: seq<Acceptance>, r: Run)
    requires RunInv(ctx, past, acc, r) && r.x.stageIndex >= |Plan(ctx.spec, r.x)|
    ensures RoundKeeps(ctx, past, acc, r, FallbackStep(ctx, r))
  {
    var r1 := Recomputed(ctx, r);
    FlagsKeep(ctx, past, acc, r, r.x.declaredCurrentStage, r.x.planningComplete, r1.x.reports, r.progress);
    RunAdvancesRound(r, r1);
    var trigger := ActivationTrigger(ctx, r1.participants, r1.x);
    if trigger.Some? {
      ExtendKeeps(ctx, past, acc, r1);
      var r2 := Extended(ctx, r1);
      AnnounceKeeps(ctx, past, acc, r2, trigger.value, 0);
      RoundAdvancesTransitive(r, r1, r2);
      RoundAdvancesTransitive(r, r2, AnnounceFrom(ctx, r2, trigger.value, 0));
      assert FallbackStep(ctx, r) == AnnounceFrom(ctx, r2, trigger.value, 0);
    } else {
      assert FallbackStep(ctx, r) == r1;
    }
  }

  // ---- Rounds and the whole advance ---------------------------------------------------------------------------

  lemma EvaluationPhaseKeeps(ctx: Context, past: seq<Action>, acc: seq<Acceptance>, r: Run)
    requires RunInv(ctx, past, acc, r) && r.x.stageIndex >= |Plan(ctx.spec, r.x)|
    ensures RoundKeeps(ctx, past, acc, r, EvaluationPhase(ctx, r).run)
  {
    var v := PlanStep(ctx, r);
    PlanStepKeeps(ctx, past, acc, r);
    RunAdvancesRound(r, v.run);
    if v.Proceed? {
      var r2 := EmitFrom(ctx, v.run, 0);
      EmitKeeps(ctx, past, acc, v.run, 0);
      RunAdvancesRound(v.run, r2);
      RoundAdvancesTransitive(r, v.run, r2);
      FallbackKeeps(ctx, past, acc, r2);
      RoundAdvancesTransitive(r, r2, FallbackStep(ctx, r2));
      assert EvaluationPhase(ctx, r).run == FallbackStep(ctx, r2);
    } else {
      assert EvaluationPhase(ctx, r).run == v.run;
    }
  }

  lemma ProgressFlagKeeps(ctx: Context, past: seq<Action>, acc: seq<Acceptance>, r: Run, progress: bool)
    requires RunInv(ctx, past, acc, r)
    ensures RoundKeeps(ctx, past, acc, r, r.(progress := progress))
  {
  }

  lemma RoundKeepsInvariant(ctx: Context, past: seq<Action>, acc: seq<Acceptance>, r: Run)
    requires RunInv(ctx, past, acc, r)
    ensures RoundKeeps(ctx, past, acc, r, Round(ctx, r).run)
  {
    var r0 := r.(progress := false);
    ProgressFlagKeeps(ctx, past, acc, r, false);
    var plan := Plan(ctx.spec, r.x);
    var v := StageLoop(ctx, plan, r0);
    StageLoopKeeps(ctx, past, acc, plan, r0);
    RunAdvancesRound(r0, v.run);
    RoundAdvancesTransitive(r, r0, v.run);
    if v.Proceed? && v.run.x.stageIndex >= |plan| {
      EvaluationPhaseKeeps(ctx, past, acc, v.run);
      RoundAdvancesTransitive(r, v.run, EvaluationPhase(ctx, v.run).run);
      assert Round(ctx, r).run == EvaluationPhase(ctx, v.run).run;
    } else {
      assert Round(ctx, r).run == v.run;
    }
  }

  lemma {:induction false} LoopKeepsInvariant(ctx: Context, past: seq<Action>, acc: seq<Acceptance>, round: Run -> Phase, r: Run,
                                              rounds: nat)
    requires RunInv(ctx, past, acc, r)
    requires forall q {:trigger round(q)} :: RunInv(ctx, past, acc, q) ==> RoundKeeps(ctx, past, acc, q, round(q).run)
    ensures RoundKeeps(ctx, past, acc, r, Loop(round, r, rounds).run)
    decreases rounds
  {
    if r.progress && rounds > 0 {
      var v := round(r);
      if v.Proceed? {
        LoopKeepsInvariant(ctx, past, acc, round, v.run, rounds - 1);
        RoundAdvancesTransitive(r, v.run, Loop(round, v.run, rounds - 1).run);
      }
    } else {
      ProgressFlagKeeps(ctx, past, acc, r, r.progress);
    }
  }

  lemma AdvanceOpenKeeps(ctx: Context, past: seq<Action>, acc: seq<Acceptance>, r: Run)
    requires RunInv(ctx, past, acc, r)
    ensures RoundKeeps(ctx, past, acc, r, AdvanceOpen(ctx, r).run)
  {
    var r0 := r.(progress := true);
    ProgressFlagKeeps(ctx, past, acc, r, true);
    var v := Loop(RoundOf(ctx), r0, GUARD);
    forall q | RunInv(ctx, past, acc, q) ensures RoundKeeps(ctx, past, acc, q, RoundOf(ctx)(q).run) {
      RoundKeepsInvariant(ctx, past, acc, q);
    }
    LoopKeepsInvariant(ctx, past, acc, RoundOf(ctx), r0, GUARD);
    RoundAdvancesTransitive(r, r0, v.run);
    if v.Proceed? {
      var r2 := Recomputed(ctx, v.run);
      FlagsKeep(ctx, past, acc, v.run, v.run.x.declaredCurrentStage, v.run.x.planningComplete, r2.x.reports, v.run.progress);
      RunAdvancesRound(v.run, r2);
      RoundAdvancesTransitive(r, v.run, r2);
      assert AdvanceOpen(ctx, r).run == r2;
    } else {
      assert AdvanceOpen(ctx, r).run == v.run;
    }
  }

  // ---- Cancellation --------------------------------------------------------------------------------------------

  lemma CancelledIsSlotStep(ctx: Context, past: seq<Action>, acc: seq<Acceptance>, r: Run, k: nat)
    requires RunInv(ctx, past, acc, r) && k < |r.x.candidates| && InFlight(r.x.candidates[k].state)
    ensures Keeps(ctx, past, acc, r, WithCandidate(r, k, r.x.candidates[k].(state := Cancelled, current := false)))
  {
    var c := r.x.candidates[k];
    assert BudgetInv(ctx.spec.retry.maxAttempts, past + r.actions, c) && ContentInv(acc, c);
    SlotStepKeeps(ctx.spec, r.ids.candidate, past + r.actions, acc, r.x, k, c.(state := Cancelled, current := false));
  }

  function CancelledAt(key: ExecutionKey, r: Run, k: nat): Run
    requires k < |r.x.candidates|
  {
    var c := r.x.candidates[k];
    WithCandidate(r, k, c.(state := Cancelled, current := false)).(
      ids := AfterSequence(r.ids),
      actions := r.actions + [CancelAction(key, c.participant, c.participantGeneration, c.id, c.generation, SequenceValue(r.ids))])
  }

  lemma CancelledAtKeeps(ctx: Context, past: seq<Action>, acc: seq<Acceptance>, key: ExecutionKey, r: Run, k: nat)
    requires RunInv(ctx, past, acc, r) && k < |r.x.candidates| && InFlight(r.x.candidates[k].state)
    ensures Keeps(ctx, past, acc, r, CancelledAt(key, r, k))
  {
    var c := r.x.candidates[k];
    var a := CancelAction(key, c.participant, c.participantGeneration, c.id, c.generation, SequenceValue(r.ids));
    var r1 := WithCandidate(r, k, c.(state := Cancelled, current := false));
    CancelledIsSlotStep(ctx, past, acc, r, k);
    NeutralActKeeps(ctx, past, acc, r1, a, AfterSequence(r.ids), r.progress);
    RunAdvancesTransitive(r, r1, CancelledAt(key, r, k));
  }

  lemma CancelUnrolls(key: ExecutionKey, r: Run, k: nat)
    ensures CancelFrom(key, r, k) ==
              if k >= |r.x.candidates| then r
              else if InFlight(r.x.candidates[k].state) then CancelFrom(key, CancelledAt(key, r, k), k + 1)
              else CancelFrom(key, r, k + 1)
  {
  }

  lemma {:induction false} CancelLoopKeeps(ctx: Context, past: seq<Action>, acc: seq<Acceptance>, key: ExecutionKey, r: Run, k: nat, w: Run)
    requires RunInv(ctx, past, acc, r) && w == CancelFrom(key, r, k)
    ensures Keeps(ctx, past, acc, r, w)
    decreases |r.x.candidates| - k
  {
    CancelUnrolls(key, r, k);
    if k >= |r.x.candidates| {
      KeepsReflexive(ctx, past, acc, r);
    } else if InFlight(r.x.candidates[k].state) {
      var r1 := CancelledAt(key, r, k);
      CancelledAtKeeps(ctx, past, acc, key, r, k);
      CancelLoopKeeps(ctx, past, acc, key, r1, k + 1, w);
      KeepsTransitive(ctx, past, acc, r, r1, w);
    } else {
      CancelLoopKeeps(ctx, past, acc, key, r, k + 1, w);
    }
  }

  lemma CancellationFlagsKeep(ctx: Context, past: seq<Action>, acc: seq<Acceptance>, r: Run)
    requires RunInv(ctx, past, acc, r)
    ensures Keeps(ctx, past, acc, r, r.(x := r.x.(cancellationEmitted := true)))
    ensures Keeps(ctx, past, acc, r, r.(x := r.x.(pending := AbandonAll(r.x.pending))))
  {
    assert Plan(ctx.spec, r.x.(cancellationEmitted := true)) == Plan(ctx.spec, r.x);
    assert Plan(ctx.spec, r.x.(pending := AbandonAll(r.x.pending))) == Plan(ctx.spec, r.x);
  }

  lemma EmitCancellationKeeps(ctx: Context, past: seq<Action>, acc: seq<Acceptance>, r: Run)
    requires RunInv(ctx, past, acc, r)
    ensures Keeps(ctx, past, acc, r, EmitCancellation(ctx, r))
  {
    var r0 := r.(x := r.x.(cancellationEmitted := true));
    CancellationFlagsKeep(ctx, past, acc, r);
    var r1 := CancelFrom(KeyOf(ctx, r.x), r0, 0);
    CancelLoopKeeps(ctx, past, acc, KeyOf(ctx, r.x), r0, 0, r1);
    KeepsTransitive(ctx, past, acc, r, r0, r1);
    CancellationFlagsKeep(ctx, past, acc, r1);
    KeepsTransitive(ctx, past, acc, r, r1, EmitCancellation(ctx, r));
  }
}
