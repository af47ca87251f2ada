/**
 Termination and idempotence of `advance`: two rounds reach a quiet state, a quiet state stays
 quiet, and the guard of 64 only ever matters to a specification whose evaluators have nothing
 to evaluate.
 */
module Settling {
  import opened Base
  import opened Spec
  import opened Records
  import opened Lifecycle
  import opened Attempts
  import opened Participants
  import opened Definition
  import opened Reports
  import opened Progress
  import opened Monotone
  import opened Invariants
  import opened Advancing
  import opened Recomputation

  // ---- Quiet dispatch ---------------------------------------------------------------------------------

  /** A visit to this slot changes nothing and lets the dispatch loop go on. */
  predicate VisitIdle(ctx: Context, stage: Stage, ps: seq<Participant>, c: Candidate) {
    || c.stage != stage.id || c.state != Declared
    || match FindParticipant(ps, c.participant)
       case None => true
       case Some(j) =>
         && c.participantGeneration == ps[j].generation && !ps[j].Authoritative(ctx.epoch)
         && (ps[j].Capable() || AwaitingReplacement(ctx.spec, c))
  }

  /** A visit to this slot changes nothing and ends the dispatch loop. */
  predicate VisitBlocks(ctx: Context, stage: Stage, ps: seq<Participant>, cs: seq<Candidate>, c: Candidate) {
    && c.stage == stage.id && c.state == Declared && stage.mode == Sequential && EarlierPending(cs, stage.id, c.id)
    && match FindParticipant(ps, c.participant)
       case None => false
       case Some(j) => c.participantGeneration == ps[j].generation && ps[j].Authoritative(ctx.epoch)
  }

  predicate QuietFrom(ctx: Context, stage: Stage, ps: seq<Participant>, cs: seq<Candidate>, k: nat)
    decreases |cs| - k
  {
    k >= |cs| || VisitBlocks(ctx, stage, ps, cs, cs[k])
    || (VisitIdle(ctx, stage, ps, cs[k]) && QuietFrom(ctx, stage, ps, cs, k + 1))
  }

  ghost predicate IdleUpTo(ctx: Context, stage: Stage, ps: seq<Participant>, cs: seq<Candidate>, k: nat) {
    k <= |cs| && forall i :: 0 <= i < k ==> VisitIdle(ctx, stage, ps, cs[i])
  }

  lemma {:induction false} QuietBehindIdle(ctx: Context, stage: Stage, ps: seq<Participant>, cs: seq<Candidate>, j: nat, k: nat)
    requires j <= k && IdleUpTo(ctx, stage, ps, cs, k) && QuietFrom(ctx, stage, ps, cs, k)
    ensures QuietFrom(ctx, stage, ps, cs, j)
    decreases k - j
  {
    if j < k {
      QuietBehindIdle(ctx, stage, ps, cs, j + 1, k);
    }
  }

  lemma IdleVisit(ctx: Context, stage: Stage, r: Run, k: nat)
    requires k < |r.x.candidates| && VisitIdle(ctx, stage, r.participants, r.x.candidates[k])
    ensures Visit(ctx, stage, r, k) == (r, true)
  {
    var c := r.x.candidates[k];
    assert r.x.candidates[k := c] == r.x.candidates;
    var j := FindParticipant(r.participants, c.participant);
    if c.stage == stage.id && c.state == Declared && j.Some? {
      assert c.(participantGeneration := r.participants[j.value].generation) == c;
    }
  }

  lemma BlockingVisit(ctx: Context, stage: Stage, r: Run, k: nat)
    requires k < |r.x.candidates| && VisitBlocks(ctx, stage, r.participants, r.x.candidates, r.x.candidates[k])
    ensures Visit(ctx, stage, r, k) == (r, false)
  {
    var c := r.x.candidates[k];
    assert r.x.candidates[k := c] == r.x.candidates;
    var j := FindParticipant(r.participants, c.participant);
    assert c.(participantGeneration := r.participants[j.value].generation) == c;
  }

  /** Dispatching in a quiet state does nothing. */
  lemma {:induction false} QuietDispatch(ctx: Context, stage: Stage, r: Run, k: nat)
    requires QuietFrom(ctx, stage, r.participants, r.x.candidates, k)
    ensures DispatchFrom(ctx, stage, r, k) == r
    decreases |r.x.candidates| - k
  {
    if k < |r.x.candidates| {
      if VisitBlocks(ctx, stage, r.participants, r.x.candidates, r.x.candidates[k]) {
        BlockingVisit(ctx, stage, r, k);
      } else {
        IdleVisit(ctx, stage, r, k);
        QuietDispatch(ctx, stage, r, k + 1);
      }
    }
  }

  // ---- One pass nearly settles a stage ------------------------------------------------------------------

  ghost predicate SameButAt(cs: seq<Candidate>, ds: seq<Candidate>, k: nat) {
    |ds| == |cs| && forall i :: 0 <= i < |cs| && i != k ==> ds[i] == cs[i]
  }

  predicate JustDispatched(stage: Stage, c: Candidate) {
    stage.mode == Sequential && c.state == Dispatched && c.stage == stage.id
  }

  /** The three things a visit can write to the slot of a found participant. */
  lemma VisitForms(ctx: Context, stage: Stage, r: Run, k: nat, j: nat)
    requires k < |r.x.candidates| && r.x.candidates[k].stage == stage.id && r.x.candidates[k].state == Declared
    requires FindParticipant(r.participants, r.x.candidates[k].participant) == Some(j) && j < |r.participants|
    ensures var v, p, c := Visit(ctx, stage, r, k), r.participants[j], r.x.candidates[k];
            var r1 := Touched(r, k, p);
            if !p.Authoritative(ctx.epoch) then
              if p.Capable() || AwaitingReplacement(ctx.spec, c) then v == (r1, true)
              else v == (GiveUp(r1, k), true)
            else if stage.mode == Sequential && EarlierPending(r1.x.candidates, stage.id, c.id) then v == (r1, false)
            else v == (DispatchAt(ctx, r1, k, p), stage.mode != Sequential)
  {
  }

  lemma FailureAt(x: Execution, k: nat)
    requires k < |x.candidates|
    ensures FailAt(x, k, ParticipantUnavailable).candidates == x.candidates[k := FailedCandidate(x.candidates[k], ParticipantUnavailable)]
  {
  }

  /** What a visit leaves at the visited slot; the other slots and the participants are untouched. */
  ghost predicate VisitLeaves(ctx: Context, stage: Stage, r: Run, k: nat, v: Run, goesOn: bool)
    requires k < |r.x.candidates|
  {
    && v.participants == r.participants
    && SameButAt(r.x.candidates, v.x.candidates, k)
    && v.x.candidates[k].id == r.x.candidates[k].id && v.x.candidates[k].stage == r.x.candidates[k].stage
    && (r.progress ==> v.progress)
    && (goesOn ==> VisitIdle(ctx, stage, r.participants, v.x.candidates[k]))
    && (!goesOn ==> || (JustDispatched(stage, v.x.candidates[k]) && v.progress)
                    || VisitBlocks(ctx, stage, r.participants, v.x.candidates, v.x.candidates[k]))
  }

  ghost predicate Serves(ctx: Context, stage: Stage, r: Run, k: nat, j: nat) {
    && k < |r.x.candidates| && r.x.candidates[k].stage == stage.id && r.x.candidates[k].state == Declared
    && FindParticipant(r.participants, r.x.candidates[k].participant) == Some(j) && j < |r.participants|
  }

  lemma WaitingLeaves(ctx: Context, stage: Stage, r: Run, k: nat, j: nat)
    requires Serves(ctx, stage, r, k, j) && !r.participants[j].Authoritative(ctx.epoch)
    requires r.participants[j].Capable() || AwaitingReplacement(ctx.spec, r.x.candidates[k])
    ensures VisitLeaves(ctx, stage, r, k, Touched(r, k, r.participants[j]), true)
  {
  }

  lemma FailingLeaves(ctx: Context, stage: Stage, r: Run, k: nat, j: nat)
    requires Serves(ctx, stage, r, k, j)
    ensures VisitLeaves(ctx, stage, r, k, GiveUp(Touched(r, k, r.participants[j]), k), true)
  {
    FailureAt(Touched(r, k, r.participants[j]).x, k);
  }

  lemma BlockingLeaves(ctx: Context, stage: Stage, r: Run, k: nat, j: nat)
    requires Serves(ctx, stage, r, k, j) && r.participants[j].Authoritative(ctx.epoch) && stage.mode == Sequential
    requires EarlierPending(Touched(r, k, r.participants[j]).x.candidates, stage.id, r.x.candidates[k].id)
    ensures VisitLeaves(ctx, stage, r, k, Touched(r, k, r.participants[j]), false)
  {
  }

  lemma DispatchingLeaves(ctx: Context, stage: Stage, r: Run, k: nat, j: nat)
    requires Serves(ctx, stage, r, k, j)
    ensures VisitLeaves(ctx, stage, r, k, DispatchAt(ctx, Touched(r, k, r.participants[j]), k, r.participants[j]), stage.mode != Sequential)
  {
  }

  lemma VisitSettles(ctx: Context, stage: Stage, r: Run, k: nat)
    requires k < |r.x.candidates|
    ensures VisitLeaves(ctx, stage, r, k, Visit(ctx, stage, r, k).0, Visit(ctx, stage, r, k).1)
  {
    var v, c := Visit(ctx, stage, r, k), r.x.candidates[k];
    var found := FindParticipant(r.participants, c.participant);
    if c.stage == stage.id && c.state == Declared && found.Some? {
      var j := found.value;
      VisitForms(ctx, stage, r, k, j);
      if !r.participants[j].Authoritative(ctx.epoch) {
        if r.participants[j].Capable() || AwaitingReplacement(ctx.spec, c) {
          WaitingLeaves(ctx, stage, r, k, j);
        } else {
          FailingLeaves(ctx, stage, r, k, j);
        }
      } else if stage.mode == Sequential && EarlierPending(Touched(r, k, r.participants[j]).x.candidates, stage.id, c.id) {
        BlockingLeaves(ctx, stage, r, k, j);
      } else {
        DispatchingLeaves(ctx, stage, r, k, j);
      }
    } else {
      assert v == (r, true);
    }
  }

  ghost predicate DispatchedBehindIdle(ctx: Context, stage: Stage, r: Run, m: nat) {
    m < |r.x.candidates| && JustDispatched(stage, r.x.candidates[m]) && IdleUpTo(ctx, stage, r.participants, r.x.candidates, m)
  }

  /** A pass ends quietly, or with one dispatch of a sequential stage behind nothing but idle slots. */
  ghost predicate PassDone(ctx: Context, stage: Stage, r: Run) {
    || QuietFrom(ctx, stage, r.participants, r.x.candidates, 0)
    || (r.progress && exists m :: DispatchedBehindIdle(ctx, stage, r, m))
  }

  lemma {:induction false} PassSettles(ctx: Context, stage: Stage, r: Run, k: nat)
    requires IdleUpTo(ctx, stage, r.participants, r.x.candidates, k)
    ensures var w := DispatchFrom(ctx, stage, r, k);
            PassDone(ctx, stage, w) && w.participants == r.participants && (r.progress ==> w.progress)
    decreases |r.x.candidates| - k
  {
    if k >= |r.x.candidates| {
      QuietBehindIdle(ctx, stage, r.participants, r.x.candidates, 0, k);
    } else {
      var v := Visit(ctx, stage, r, k);
      VisitSettles(ctx, stage, r, k);
      var cs := v.0.x.candidates;
      assert IdleUpTo(ctx, stage, r.participants, cs, k);
      if v.1 {
        assert IdleUpTo(ctx, stage, r.participants, cs, k + 1);
        PassSettles(ctx, stage, v.0, k + 1);
      } else if VisitBlocks(ctx, stage, r.participants, cs, cs[k]) {
        QuietBehindIdle(ctx, stage, r.participants, cs, 0, k);
      } else {
        assert DispatchedBehindIdle(ctx, stage, v.0, k);
      }
    }
  }

  lemma BehindInFlightIsPending(cs: seq<Candidate>, stage: nat, m: nat, k: nat)
    requires IncreasingIds(cs) && m < k < |cs| && cs[m].stage == stage && InFlight(cs[m].state)
    ensures EarlierPending(cs, stage, cs[k].id)
  {
    assert cs[m] in cs;
  }

  /** Behind a dispatched slot of a sequential stage a pass dispatches nothing and ends quietly. */
  lemma {:induction false} PassBehindDispatched(ctx: Context, stage: Stage, r: Run, m: nat, k: nat)
    requires m < k && m < |r.x.candidates| && JustDispatched(stage, r.x.candidates[m]) && IncreasingIds(r.x.candidates)
    requires IdleUpTo(ctx, stage, r.participants, r.x.candidates, k)
    ensures var w := DispatchFrom(ctx, stage, r, k);
            && QuietFrom(ctx, stage, w.participants, w.x.candidates, 0)
            && |w.x.candidates| == |r.x.candidates| && w.x.candidates[m] == r.x.candidates[m]
            && w.participants == r.participants && w.actions == r.actions && (r.progress ==> w.progress)
    decreases |r.x.candidates| - k
  {
    if k >= |r.x.candidates| {
      QuietBehindIdle(ctx, stage, r.participants, r.x.candidates, 0, k);
    } else {
      var v := Visit(ctx, stage, r, k);
      VisitSettles(ctx, stage, r, k);
      VisitBehindDispatched(ctx, stage, r, m, k);
      var cs := v.0.x.candidates;
      assert IdleUpTo(ctx, stage, r.participants, cs, k);
      if v.1 {
        assert IdleUpTo(ctx, stage, r.participants, cs, k + 1);
        PassBehindDispatched(ctx, stage, v.0, m, k + 1);
        assert DispatchFrom(ctx, stage, r, k) == DispatchFrom(ctx, stage, v.0, k + 1);
      } else {
        QuietBehindIdle(ctx, stage, r.participants, cs, 0, k);
        assert DispatchFrom(ctx, stage, r, k) == v.0;
      }
    }
  }

  lemma IdsStayIncreasing(cs: seq<Candidate>, ds: seq<Candidate>, k: nat)
    requires IncreasingIds(cs) && SameButAt(cs, ds, k) && k < |cs| && ds[k].id == cs[k].id
    ensures IncreasingIds(ds)
  {
  }

  lemma VisitBehindDispatched(ctx: Context, stage: Stage, r: Run, m: nat, k: nat)
    requires m < k < |r.x.candidates| && JustDispatched(stage, r.x.candidates[m]) && IncreasingIds(r.x.candidates)
    ensures var v := Visit(ctx, stage, r, k);
            && v.0.actions == r.actions
            && (!v.1 ==> VisitBlocks(ctx, stage, r.participants, v.0.x.candidates, v.0.x.candidates[k]))
            && IncreasingIds(v.0.x.candidates)
  {
    var v, c := Visit(ctx, stage, r, k), r.x.candidates[k];
    VisitSettles(ctx, stage, r, k);
    IdsStayIncreasing(r.x.candidates, v.0.x.candidates, k);
    var found := FindParticipant(r.participants, c.participant);
    if c.stage == stage.id && c.state == Declared && found.Some? {
      ServedBehindDispatched(ctx, stage, r, m, k, found.value);
    } else {
      assert v == (r, true);
    }
  }

  lemma TouchedIsPending(ctx: Context, stage: Stage, r: Run, m: nat, k: nat, p: Participant)
    requires m < k < |r.x.candidates| && JustDispatched(stage, r.x.candidates[m]) && IncreasingIds(r.x.candidates)
    ensures EarlierPending(Touched(r, k, p).x.candidates, stage.id, r.x.candidates[k].id)
  {
    var ds := Touched(r, k, p).x.candidates;
    IdsStayIncreasing(r.x.candidates, ds, k);
    BehindInFlightIsPending(ds, stage.id, m, k);
  }

  lemma ServedBehindDispatched(ctx: Context, stage: Stage, r: Run, m: nat, k: nat, j: nat)
    requires Serves(ctx, stage, r, k, j)
    requires m < k && JustDispatched(stage, r.x.candidates[m]) && IncreasingIds(r.x.candidates)
    ensures var v := Visit(ctx, stage, r, k);
            && v.0.actions == r.actions
            && (!v.1 ==> VisitBlocks(ctx, stage, r.participants, v.0.x.candidates, v.0.x.candidates[k]))
  {
    var p := r.participants[j];
    VisitForms(ctx, stage, r, k, j);
    TouchedIsPending(ctx, stage, r, m, k, p);
    if p.Authoritative(ctx.epoch) {
      assert Visit(ctx, stage, r, k) == (Touched(r, k, p), false);
    } else {
      assert Visit(ctx, stage, r, k).1;
    }
  }

  // ---- Planning settles ---------------------------------------------------------------------------------

  predicate Productive(spec: RuntimeSpec, d: ParticipantSpec) {
    d.roles.judge || (d.roles.verifier && spec.evidence.mandatoryCriteria != [])
  }

  /** No evaluator has anything to evaluate: no judge, and no mandatory criteria for the verifiers. */
  predicate Barren(spec: RuntimeSpec) {
    forall d :: d in Evaluators(spec) ==> !Productive(spec, d)
  }

  predicate Planned(qs: seq<Pending>, candidate: nat) {
    exists q :: q in qs && q.candidate == candidate
  }

  /** Planning only appends to the plan. */
  ghost predicate PlanGrows(r: Run, w: Run) {
    && w == r.(x := r.x.(pending := w.x.pending), ids := w.ids)
    && r.x.pending <= w.x.pending
  }

  lemma PlannedGrows(qs: seq<Pending>, ps: seq<Pending>, candidate: nat)
    requires qs <= ps && Planned(qs, candidate)
    ensures Planned(ps, candidate)
  {
    var q :| q in qs && q.candidate == candidate;
    assert q in ps;
  }

  lemma {:induction false} PlanCriteriaCovers(r: Run, evaluator: nat, role: Role, kind: CriterionKind, c: Candidate, criteria: seq<Criterion>,
                           k: nat)
    ensures var v := PlanCriteria(r, evaluator, role, kind, c, criteria, k);
            && PlanGrows(r, v.run)
            && (v.Proceed? && k < |criteria| ==> Planned(v.run.x.pending, c.id))
            && (k >= |criteria| ==> v == Proceed(r))
    decreases |criteria| - k
  {
    if k < |criteria| && Allocate(r.ids.evaluation).Some? {
      var q := NewPending(r.ids.evaluation, evaluator, GenerationOf(r.participants, evaluator), role, c, criteria[k], kind);
      var r1 := WithPlanned(r, q, r.ids.evaluation + 1);
      PlanCriteriaCovers(r1, evaluator, role, kind, c, criteria, k + 1);
      var w := PlanCriteria(r1, evaluator, role, kind, c, criteria, k + 1);
      assert q in r1.x.pending;
      PlannedGrows(r1.x.pending, w.run.x.pending, c.id);
    }
  }

  lemma PlanEvaluatorCovers(ctx: Context, r: Run, d: ParticipantSpec, c: Candidate)
    ensures var v := PlanEvaluator(ctx, r, d, c);
            && PlanGrows(r, v.run)
            && (v.Proceed? && Productive(ctx.spec, d) ==> Planned(v.run.x.pending, c.id))
            && (!Productive(ctx.spec, d) ==> v == Proceed(r))
  {
    var mandatory := ctx.spec.evidence.mandatoryCriteria;
    var verified := if d.roles.verifier then PlanCriteria(r, d.id, VerifierRole, HardPredicate, c, mandatory, 0) else Proceed(r);
    PlanCriteriaCovers(r, d.id, VerifierRole, HardPredicate, c, mandatory, 0);
    if verified.Proceed? && d.roles.judge {
      PlanCriteriaCovers(verified.run, d.id, JudgeRole, RankingSignal, c, JudgingCriteria(ctx.spec), 0);
    }
  }

  lemma {:induction false} PlanEvaluatorsCover(ctx: Context, r: Run, evaluators: seq<ParticipantSpec>, c: Candidate, k: nat)
    ensures var v := PlanEvaluators(ctx, r, evaluators, c, k);
            && PlanGrows(r, v.run)
            && (v.Proceed? && (exists i :: k <= i < |evaluators| && Productive(ctx.spec, evaluators[i])) ==> Planned(v.run.x.pending, c.id))
            && ((forall i :: k <= i < |evaluators| ==> !Productive(ctx.spec, evaluators[i])) ==> v == Proceed(r))
    decreases |evaluators| - k
  {
    if k < |evaluators| {
      var v := PlanEvaluator(ctx, r, evaluators[k], c);
      PlanEvaluatorCovers(ctx, r, evaluators[k], c);
      if v.Proceed? {
        PlanEvaluatorsCover(ctx, v.run, evaluators, c, k + 1);
        var w := PlanEvaluators(ctx, v.run, evaluators, c, k + 1);
        if Productive(ctx.spec, evaluators[k]) {
          PlannedGrows(v.run.x.pending, w.run.x.pending, c.id);
        }
      }
    }
  }

  lemma PlanContentCovers(ctx: Context, r: Run, c: Candidate)
    ensures var v := PlanEvaluators(ctx, r, Evaluators(ctx.spec), c, 0);
            && PlanGrows(r, v.run)
            && (v.Proceed? && !Barren(ctx.spec) ==> Planned(v.run.x.pending, c.id))
            && (Barren(ctx.spec) ==> v == Proceed(r))
  {
    PlanEvaluatorsCover(ctx, r, Evaluators(ctx.spec), c, 0);
    ProductiveExists(ctx.spec);
  }

  ghost predicate AllPlanned(cs: seq<Candidate>, k: nat, qs: seq<Pending>) {
    forall i :: k <= i < |cs| && IsContent(cs[i].state) ==> Planned(qs, cs[i].id)
  }

  lemma {:induction false} BarrenPlansNothing(ctx: Context, r: Run, cs: seq<Candidate>, k: nat)
    requires Barren(ctx.spec)
    ensures PlanCandidates(ctx, r, cs, k) == Proceed(r)
    decreases |cs| - k
  {
    if k < |cs| {
      if IsContent(cs[k].state) {
        PlanContentCovers(ctx, r, cs[k]);
      }
      BarrenPlansNothing(ctx, r, cs, k + 1);
    }
  }

  lemma {:induction false} PlanCandidatesCover(ctx: Context, r: Run, cs: seq<Candidate>, k: nat, v: Phase)
    requires !Barren(ctx.spec) && v == PlanCandidates(ctx, r, cs, k)
    ensures PlanGrows(r, v.run) && (v.Proceed? ==> AllPlanned(cs, k, v.run.x.pending))
    decreases |cs| - k
  {
    if k < |cs| {
      if !IsContent(cs[k].state) {
        PlanCandidatesCover(ctx, r, cs, k + 1, v);
      } else {
        var u := PlanEvaluators(ctx, r, Evaluators(ctx.spec), cs[k], 0);
        PlanContentCovers(ctx, r, cs[k]);
        if u.Proceed? {
          PlanCandidatesCover(ctx, u.run, cs, k + 1, v);
          PlannedGrows(u.run.x.pending, v.run.x.pending, cs[k].id);
        }
      }
    }
  }

  lemma ProductiveExists(spec: RuntimeSpec)
    ensures var es := Evaluators(spec);
            if Barren(spec) then forall i :: 0 <= i < |es| ==> !Productive(spec, es[i])
            else exists i :: 0 <= i < |es| && Productive(spec, es[i])
  {
    var es := Evaluators(spec);
    if !Barren(spec) {
      var d :| d in es && Productive(spec, d);
      var i :| 0 <= i < |es| && es[i] == d;
    }
  }

  /** Every content candidate is planned, or planning is pointless. */
  predicate PlanQuiet(spec: RuntimeSpec, x: Execution) {
    x.planningComplete && (NeedsPlan(spec, x) ==> Barren(spec))
  }

  lemma PlanStepSettles(ctx: Context, r: Run)
    requires PlanStep(ctx, r).Proceed?
    ensures var w := PlanStep(ctx, r).run;
            && PlanQuiet(ctx.spec, w.x) && (NeedsPlan(ctx.spec, w.x) ==> w.progress)
            && w.participants == r.participants && w.actions == r.actions && (r.progress ==> w.progress)
            && w.x == r.x.(pending := w.x.pending, planningComplete := true)
  {
    if !(r.x.planningComplete && !NeedsPlan(ctx.spec, r.x)) {
      var r1 := r.(x := r.x.(planningComplete := true), progress := true);
      var w := PlanStep(ctx, r).run;
      if Barren(ctx.spec) {
        BarrenPlansNothing(ctx, r1, r.x.candidates, 0);
      } else {
        PlanCandidatesCover(ctx, r1, r.x.candidates, 0, PlanStep(ctx, r));
        forall c | c in w.x.candidates && IsContent(c.state) ensures Named(w.x, c.id) {
          var i :| 0 <= i < |r.x.candidates| && r.x.candidates[i] == c;
        }
      }
    }
  }

  /** Planning in a quiet state adds nothing; it pretends to make progress exactly when a plan is still missing. */
  lemma QuietPlan(ctx: Context, r: Run)
    requires PlanQuiet(ctx.spec, r.x)
    ensures PlanStep(ctx, r) == Proceed(r.(progress := r.progress || NeedsPlan(ctx.spec, r.x)))
  {
    if NeedsPlan(ctx.spec, r.x) {
      var r1 := r.(x := r.x.(planningComplete := true), progress := true);
      BarrenPlansNothing(ctx, r1, r.x.candidates, 0);
    }
  }

  // ---- Emission settles -----------------------------------------------------------------------------------

  ghost predicate KeptUpTo(ctx: Context, ps: seq<Participant>, cs: seq<Candidate>, qs: seq<Pending>, k: nat) {
    k <= |qs| && forall i :: 0 <= i < k ==> ChoiceFor(ctx, ps, cs, qs[i]).Keep?
  }

  ghost predicate EmitQuiet(ctx: Context, ps: seq<Participant>, x: Execution) {
    KeptUpTo(ctx, ps, x.candidates, x.pending, |x.pending|)
  }

  lemma {:induction false} QuietEmit(ctx: Context, r: Run, k: nat)
    requires EmitQuiet(ctx, r.participants, r.x)
    ensures EmitFrom(ctx, r, k) == r
    decreases |r.x.pending| - k
  {
    if k < |r.x.pending| {
      assert ChoiceFor(ctx, r.participants, r.x.candidates, r.x.pending[k]).Keep?;
      QuietEmit(ctx, r, k + 1);
    }
  }

  /** Same evaluations planned, whatever became of them. */
  ghost predicate SameTargets(qs: seq<Pending>, ps: seq<Pending>) {
    |ps| == |qs| && forall i :: 0 <= i < |qs| ==> ps[i].candidate == qs[i].candidate
  }

  lemma MarkedIsKept(ctx: Context, r: Run, k: nat, q: Pending)
    requires KeptUpTo(ctx, r.participants, r.x.candidates, r.x.pending, k) && k < |r.x.pending|
    requires q.candidate == r.x.pending[k].candidate && (q.emitted || q.abandoned)
    ensures KeptUpTo(ctx, r.participants, r.x.candidates, r.x.pending[k := q], k + 1)
    ensures SameTargets(r.x.pending, r.x.pending[k := q])
  {
  }

  lemma EmitAtSettles(ctx: Context, r: Run, k: nat)
    requires KeptUpTo(ctx, r.participants, r.x.candidates, r.x.pending, k) && k < |r.x.pending|
    ensures var w := EmitAt(ctx, r, k);
            && KeptUpTo(ctx, r.participants, r.x.candidates, w.x.pending, k + 1)
            && SameTargets(r.x.pending, w.x.pending)
            && w.participants == r.participants && (r.progress ==> w.progress)
            && w.x == r.x.(pending := w.x.pending)
  {
    var q := r.x.pending[k];
    MarkedIsKept(ctx, r, k, q.(emitted := true));
    MarkedIsKept(ctx, r, k, q.(abandoned := true));
    var choice := ChoiceFor(ctx, r.participants, r.x.candidates, q);
    if choice.Emit? {
      assert EmitAt(ctx, r, k).x == WithPending(r, k, q.(emitted := true)).x;
    } else if choice.Abandon? {
      assert EmitAt(ctx, r, k).x == WithPending(r, k, q.(abandoned := true)).x;
    } else {
      assert EmitAt(ctx, r, k) == r;
    }
  }

  lemma {:induction false} EmitSettles(ctx: Context, r: Run, k: nat)
    requires KeptUpTo(ctx, r.participants, r.x.candidates, r.x.pending, k)
    ensures var w := EmitFrom(ctx, r, k);
            && EmitQuiet(ctx, r.participants, w.x)
            && SameTargets(r.x.pending, w.x.pending)
            && w.participants == r.participants && (r.progress ==> w.progress)
            && w.x == r.x.(pending := w.x.pending)
    decreases |r.x.pending| - k
  {
    if k < |r.x.pending| {
      EmitAtSettles(ctx, r, k);
      EmitSettles(ctx, EmitAt(ctx, r, k), k + 1);
    }
  }

  lemma SameTargetsSamePlan(spec: RuntimeSpec, x: Execution, y: Execution)
    requires y == x.(pending := y.pending) && SameTargets(x.pending, y.pending)
    ensures NeedsPlan(spec, y) == NeedsPlan(spec, x)
  {
    forall id ensures Named(y, id) == Named(x, id) {
      if exists q :: q in x.pending && q.candidate == id {
        var q :| q in x.pending && q.candidate == id;
        var i :| 0 <= i < |x.pending| && x.pending[i] == q;
        assert y.pending[i] in y.pending;
      }
      if exists q :: q in y.pending && q.candidate == id {
        var q :| q in y.pending && q.candidate == id;
        var i :| 0 <= i < |y.pending| && y.pending[i] == q;
        assert x.pending[i] in x.pending;
      }
    }
  }

  // ---- The fallback decision is stable ------------------------------------------------------------------------

  lemma ActivationSees(ctx: Context, ps: seq<Participant>, x: Execution, a: ReportSet, b: ReportSet)
    requires ctx.spec.fallback.enabled && x.fallbackDepth < ctx.spec.fallback.maxDepth ==>
               a.quorum.state == b.quorum.state && a.consensus.state == b.consensus.state
    ensures ActivationTrigger(ctx, ps, WithReports(x, a)) == ActivationTrigger(ctx, ps, WithReports(x, b))
  {
    if ctx.spec.fallback.enabled && x.fallbackDepth < ctx.spec.fallback.maxDepth {
      FirstTriggerSees(ctx.spec.fallback.triggers, ctx.spec, ps, WithReports(x, a), WithReports(x, b));
    }
  }

  lemma KernelStates(ctx: Context, ps: seq<Participant>, x: Execution, a: ReportSet)
    requires Faithful(ctx.kernel) && x.fallbackDepth < ctx.spec.fallback.maxDepth
    ensures var kx, ky := ctx.kernel(ctx.spec, false, ps, x), ctx.kernel(ctx.spec, false, ps, WithReports(x, a));
            kx.quorum.state == ky.quorum.state && kx.consensus.state == ky.consensus.state
  {
    StatesForgetReports(ctx.spec, ps, x, WithReports(x, a));
  }

  /** Recomputing from other reports of the same evidence shows the activation triggers the same picture. */
  lemma ActivationIsStable(ctx: Context, ps: seq<Participant>, x: Execution, a: ReportSet)
    requires Faithful(ctx.kernel)
    ensures ActivationTrigger(ctx, ps, WithReports(x, ctx.kernel(ctx.spec, false, ps, WithReports(x, a))))
            == ActivationTrigger(ctx, ps, WithReports(x, ctx.kernel(ctx.spec, false, ps, x)))
  {
    if x.fallbackDepth < ctx.spec.fallback.maxDepth {
      KernelStates(ctx, ps, x, a);
    }
    ActivationSees(ctx, ps, x, ctx.kernel(ctx.spec, false, ps, WithReports(x, a)), ctx.kernel(ctx.spec, false, ps, x));
  }

  // ---- Quiet states -------------------------------------------------------------------------------------------

  /** The current stage has been declared, still waits for somebody, and another pass would not change it. */
  ghost predicate StageQuiet(ctx: Context, r: Run) {
    && r.x.stageIndex < |Plan(ctx.spec, r.x)|
    && r.x.declaredCurrentStage
    && var stage := Plan(ctx.spec, r.x)[r.x.stageIndex];
       !StageComplete(stage, r.x.candidates) && QuietFrom(ctx, stage, r.participants, r.x.candidates, 0)
  }

  /** Every stage is behind, every plan made and sent, and the fallback will not be activated. */
  ghost predicate EndQuiet(ctx: Context, r: Run) {
    && r.x.stageIndex >= |Plan(ctx.spec, r.x)|
    && PlanQuiet(ctx.spec, r.x)
    && EmitQuiet(ctx, r.participants, r.x)
    && ActivationTrigger(ctx, r.participants, Recomputed(ctx, r).x).None?
  }

  ghost predicate Quiet(ctx: Context, r: Run) {
    StageQuiet(ctx, r) || EndQuiet(ctx, r)
  }

  /** Work that only repeats: the plan is consumed but a plan for evaluators without criteria is still missing. */
  ghost predicate Repeating(ctx: Context, r: Run) {
    r.x.stageIndex >= |Plan(ctx.spec, r.x)| && NeedsPlan(ctx.spec, r.x)
  }

  /** `w` is `r` up to its reports and the loop flag. */
  ghost predicate SameWork(r: Run, w: Run) {
    w == r.(x := WithReports(r.x, w.x.reports), progress := w.progress)
  }

  lemma RecomputedTwice(ctx: Context, r: Run, w: Run)
    requires Faithful(ctx.kernel) && w.participants == r.participants && w.x == WithReports(r.x, w.x.reports)
    ensures ActivationTrigger(ctx, w.participants, Recomputed(ctx, w).x) == ActivationTrigger(ctx, r.participants, Recomputed(ctx, r).x)
  {
    ActivationIsStable(ctx, r.participants, r.x, w.x.reports);
    assert Recomputed(ctx, w).x == WithReports(r.x, ctx.kernel(ctx.spec, false, r.participants, w.x));
  }

  lemma PlanIgnoresReports(spec: RuntimeSpec, x: Execution, y: Execution)
    requires y.candidates == x.candidates && y.evaluations == x.evaluations && y.pending == x.pending
    ensures NeedsPlan(spec, y) == NeedsPlan(spec, x)
  {
    assert forall id :: Named(y, id) == Named(x, id);
  }

  lemma EndQuietFrom(ctx: Context, r: Run, w: Run)
    requires w.participants == r.participants && w.x == WithReports(r.x, w.x.reports) && r.x.stageIndex >= |Plan(ctx.spec, r.x)|
    requires PlanQuiet(ctx.spec, r.x) && EmitQuiet(ctx, r.participants, r.x)
    requires ActivationTrigger(ctx, w.participants, Recomputed(ctx, w).x).None?
    ensures EndQuiet(ctx, w)
  {
    assert Plan(ctx.spec, w.x) == Plan(ctx.spec, r.x);
    PlanIgnoresReports(ctx.spec, r.x, w.x);
  }

  lemma ReportsDoNotDisturb(ctx: Context, r: Run, w: Run)
    requires Faithful(ctx.kernel) && Quiet(ctx, r) && SameWork(r, w)
    ensures Quiet(ctx, w) && Repeating(ctx, w) == Repeating(ctx, r)
  {
    assert Plan(ctx.spec, w.x) == Plan(ctx.spec, r.x);
    PlanIgnoresReports(ctx.spec, r.x, w.x);
    if EndQuiet(ctx, r) {
      RecomputedTwice(ctx, r, w);
      EndQuietFrom(ctx, r, w);
    } else {
      assert StageQuiet(ctx, w);
    }
  }

  lemma QuietStageLoop(ctx: Context, r: Run)
    requires StageQuiet(ctx, r)
    ensures StageLoop(ctx, Plan(ctx.spec, r.x), r) == Proceed(r)
  {
    var stage := Plan(ctx.spec, r.x)[r.x.stageIndex];
    QuietDispatch(ctx, stage, r, 0);
  }

  lemma QuietEvaluationPhase(ctx: Context, r: Run)
    requires EndQuiet(ctx, r)
    ensures EvaluationPhase(ctx, r) == Proceed(Recomputed(ctx, r.(progress := r.progress || NeedsPlan(ctx.spec, r.x))))
  {
    QuietPlan(ctx, r);
    var r1 := r.(progress := r.progress || NeedsPlan(ctx.spec, r.x));
    QuietEmit(ctx, r1, 0);
    assert Recomputed(ctx, r1).x == Recomputed(ctx, r).x;
  }

  /** A quiet state performs nothing and stays quiet; only a repeating one claims progress. */
  lemma QuietRound(ctx: Context, r: Run)
    requires Faithful(ctx.kernel) && Quiet(ctx, r)
    ensures var v := Round(ctx, r);
            && v.Proceed? && SameWork(r, v.run) && Quiet(ctx, v.run)
            && v.run.progress == Repeating(ctx, r) && Repeating(ctx, v.run) == Repeating(ctx, r)
  {
    var r0 := r.(progress := false);
    assert SameWork(r, r0);
    ReportsDoNotDisturb(ctx, r, r0);
    var v := Round(ctx, r);
    if StageQuiet(ctx, r0) {
      QuietStageLoop(ctx, r0);
      assert v == Proceed(r0);
    } else {
      QuietEvaluationPhase(ctx, r0);
      assert StageLoop(ctx, Plan(ctx.spec, r.x), r0) == Proceed(r0);
      assert v == Proceed(Recomputed(ctx, r0.(progress := NeedsPlan(ctx.spec, r0.x))));
    }
    ReportsDoNotDisturb(ctx, r, v.run);
  }

  // ---- The first round nearly settles ----------------------------------------------------------------------------

  /** One sequential dispatch happened and the slots behind it have not been looked at again. */
  ghost predicate SequencePending(ctx: Context, r: Run, m: nat) {
    && r.x.stageIndex < |Plan(ctx.spec, r.x)| && r.x.declaredCurrentStage
    && DispatchedBehindIdle(ctx, Plan(ctx.spec, r.x)[r.x.stageIndex], r, m)
  }

  /** The fallback stage was just added and is next. */
  ghost predicate JustActivated(ctx: Context, r: Run) {
    var plan := Plan(ctx.spec, r.x);
    r.x.fallbackActivated && |plan| >= 1 && r.x.stageIndex == |plan| - 1 && plan[|plan| - 1].mode == Parallel
  }

  ghost predicate Settled(ctx: Context, r: Run) {
    Quiet(ctx, r) && (Repeating(ctx, r) ==> r.progress)
  }

  /** What one round leaves: a quiet state that is honest about its progress, or one dispatch or activation more. */
  ghost predicate NearlyQuiet(ctx: Context, r: Run) {
    || Settled(ctx, r)
    || (r.progress && (JustActivated(ctx, r) || exists m :: SequencePending(ctx, r, m)))
  }

  /** Where the stage loop stops: behind every stage, or at one that is (nearly) quiet. */
  ghost predicate StageStop(ctx: Context, stages: seq<Stage>, r: Run) {
    || r.x.stageIndex >= |stages|
    || (&& r.x.declaredCurrentStage && !StageComplete(stages[r.x.stageIndex], r.x.candidates)
        && PassDone(ctx, stages[r.x.stageIndex], r))
  }

  lemma {:induction false} StageLoopStops(ctx: Context, stages: seq<Stage>, r: Run)
    requires StageLoop(ctx, stages, r).Proceed? && r.x.stageIndex <= |stages|
    ensures var w := StageLoop(ctx, stages, r).run;
            && StageStop(ctx, stages, w)
            && w.x.extraStages == r.x.extraStages && w.x.fallbackActivated == r.x.fallbackActivated
            && r.x.stageIndex <= w.x.stageIndex <= |stages|
    decreases |stages| - r.x.stageIndex
  {
    if r.x.stageIndex < |stages| {
      var stage := stages[r.x.stageIndex];
      var v := Declare(ctx, stage, r);
      var r2 := DispatchFrom(ctx, stage, v.run, 0);
      PassSettles(ctx, stage, v.run, 0);
      if StageComplete(stage, r2.x.candidates) {
        StageLoopStops(ctx, stages, NextStage(r2));
      }
    }
  }

  lemma StopIsNearlyQuiet(ctx: Context, r: Run)
    requires StageStop(ctx, Plan(ctx.spec, r.x), r) && r.x.stageIndex < |Plan(ctx.spec, r.x)|
    ensures NearlyQuiet(ctx, r)
    ensures Plan(ctx.spec, r.x)[r.x.stageIndex].mode == Parallel ==> Settled(ctx, r)
  {
    var stage := Plan(ctx.spec, r.x)[r.x.stageIndex];
    if !QuietFrom(ctx, stage, r.participants, r.x.candidates, 0) {
      var m :| DispatchedBehindIdle(ctx, stage, r, m);
      assert SequencePending(ctx, r, m);
    }
  }

  lemma {:induction false} AnnounceKeepsExecution(ctx: Context, r: Run, trigger: Trigger, k: nat)
    ensures var w := AnnounceFrom(ctx, r, trigger, k);
            w.x == r.x && w.progress == r.progress
    decreases |ctx.spec.fallback.participants| - k
  {
    if k < |ctx.spec.fallback.participants| {
      var id := ctx.spec.fallback.participants[k];
      var j := FindParticipant(r.participants, id);
      var ps := if j.Some? then r.participants[j.value := r.participants[j.value].(fallbackActivated := true)] else r.participants;
      var a := FallbackAction(KeyOf(ctx, r.x), id, GenerationOf(r.participants, id), trigger, r.x.fallbackDepth, SequenceValue(r.ids));
      AnnounceKeepsExecution(ctx, r.(participants := ps, ids := AfterSequence(r.ids), actions := r.actions + [a]), trigger, k + 1);
    }
  }

  lemma ActivationIsNext(ctx: Context, r: Run, trigger: Trigger)
    requires r.x.stageIndex == |Plan(ctx.spec, r.x)|
    ensures JustActivated(ctx, Activate(ctx, r, trigger)) && Activate(ctx, r, trigger).progress
  {
    AnnounceKeepsExecution(ctx, Extended(ctx, r), trigger, 0);
    assert Plan(ctx.spec, Extended(ctx, r).x) == Plan(ctx.spec, r.x) + [FallbackStage(ctx.spec, r.x.fallbackDepth)];
  }

  /** Once the stages are behind, the rest of the round settles, unless it activates the fallback. */
  lemma EvaluationPhaseSettles(ctx: Context, r: Run)
    requires Faithful(ctx.kernel) && r.x.stageIndex == |Plan(ctx.spec, r.x)| && EvaluationPhase(ctx, r).Proceed?
    ensures NearlyQuiet(ctx, EvaluationPhase(ctx, r).run)
    ensures r.x.fallbackActivated ==> Settled(ctx, EvaluationPhase(ctx, r).run)
  {
    var r1 := PlanStep(ctx, r).run;
    PlanStepSettles(ctx, r);
    var r2 := EmitFrom(ctx, r1, 0);
    EmitSettles(ctx, r1, 0);
    SameTargetsSamePlan(ctx.spec, r1.x, r2.x);
    PreparedIsQuietOrActivated(ctx, r2);
    assert EvaluationPhase(ctx, r).run == FallbackStep(ctx, r2);
  }

  lemma RecomputedIsQuiet(ctx: Context, r: Run, w: Run)
    requires Faithful(ctx.kernel) && r.x.stageIndex == |Plan(ctx.spec, r.x)| && w == Recomputed(ctx, r)
    requires PlanQuiet(ctx.spec, r.x) && EmitQuiet(ctx, r.participants, r.x) && ActivationTrigger(ctx, w.participants, w.x).None?
    ensures EndQuiet(ctx, w)
  {
    RecomputedTwice(ctx, r, w);
    EndQuietFrom(ctx, r, w);
  }

  lemma PreparedIsQuietOrActivated(ctx: Context, r: Run)
    requires Faithful(ctx.kernel) && r.x.stageIndex == |Plan(ctx.spec, r.x)|
    requires PlanQuiet(ctx.spec, r.x) && EmitQuiet(ctx, r.participants, r.x) && (NeedsPlan(ctx.spec, r.x) ==> r.progress)
    ensures NearlyQuiet(ctx, FallbackStep(ctx, r))
    ensures r.x.fallbackActivated ==> Settled(ctx, FallbackStep(ctx, r))
  {
    var r1 := Recomputed(ctx, r);
    var trigger := ActivationTrigger(ctx, r1.participants, r1.x);
    if trigger.Some? {
      assert Plan(ctx.spec, r1.x) == Plan(ctx.spec, r.x);
      ActivationIsNext(ctx, r1, trigger.value);
      assert FallbackStep(ctx, r) == Activate(ctx, r1, trigger.value);
    } else {
      RecomputedIsQuiet(ctx, r, r1);
      PlanIgnoresReports(ctx.spec, r.x, r1.x);
      assert FallbackStep(ctx, r) == r1;
    }
  }

  /** One round ends nearly quiet. */
  lemma RoundNearlySettles(ctx: Context, r: Run)
    requires Faithful(ctx.kernel) && Round(ctx, r).Proceed? && r.x.stageIndex <= |Plan(ctx.spec, r.x)|
    ensures NearlyQuiet(ctx, Round(ctx, r).run)
  {
    var plan := Plan(ctx.spec, r.x);
    var r0 := r.(progress := false);
    var v := StageLoop(ctx, plan, r0);
    StageLoopStops(ctx, plan, r0);
    assert Plan(ctx.spec, v.run.x) == plan;
    if v.run.x.stageIndex < |plan| {
      StopIsNearlyQuiet(ctx, v.run);
      assert Round(ctx, r) == v;
    } else {
      EvaluationPhaseSettles(ctx, v.run);
      assert Round(ctx, r) == EvaluationPhase(ctx, v.run);
    }
  }

  // ---- The second round settles ------------------------------------------------------------------------------------

  /** The fallback stage is parallel and last: a round either stops in it quietly or gets past it for good. */
  lemma ActivatedRoundSettles(ctx: Context, r: Run)
    requires Faithful(ctx.kernel) && JustActivated(ctx, r) && Round(ctx, r).Proceed?
    ensures Settled(ctx, Round(ctx, r).run)
  {
    var plan := Plan(ctx.spec, r.x);
    var r0 := r.(progress := false);
    var v := StageLoop(ctx, plan, r0);
    StageLoopStops(ctx, plan, r0);
    assert Plan(ctx.spec, v.run.x) == plan;
    if v.run.x.stageIndex < |plan| {
      StopIsNearlyQuiet(ctx, v.run);
      assert Round(ctx, r) == v;
    } else {
      EvaluationPhaseSettles(ctx, v.run);
      assert Round(ctx, r) == EvaluationPhase(ctx, v.run);
    }
  }

  lemma InFlightIsIncomplete(plan: seq<Stage>, index: nat, cs: seq<Candidate>, m: nat)
    requires index < |plan| && m < |cs| && AtStage(plan, index, cs[m]) && InFlight(cs[m].state)
    ensures !StageComplete(plan[index], cs)
  {
    assert cs[m] in cs;
  }

  lemma {:induction false} IdleDispatch(ctx: Context, stage: Stage, r: Run, j: nat, k: nat)
    requires j <= k && IdleUpTo(ctx, stage, r.participants, r.x.candidates, k)
    ensures DispatchFrom(ctx, stage, r, j) == DispatchFrom(ctx, stage, r, k)
    decreases k - j
  {
    if j < k {
      IdleVisit(ctx, stage, r, j);
      IdleDispatch(ctx, stage, r, j + 1, k);
    }
  }

  /** Behind a sequential dispatch one more pass is quiet and leaves the stage incomplete. */
  lemma SequencedPass(ctx: Context, plan: seq<Stage>, r: Run, m: nat)
    requires r.x.stageIndex < |plan| && DispatchedBehindIdle(ctx, plan[r.x.stageIndex], r, m)
    requires IncreasingIds(r.x.candidates) && BarrierInv(plan, r.x.stageIndex, r.x.candidates)
    ensures var w := DispatchFrom(ctx, plan[r.x.stageIndex], r, 0);
            && QuietFrom(ctx, plan[r.x.stageIndex], w.participants, w.x.candidates, 0)
            && !StageComplete(plan[r.x.stageIndex], w.x.candidates)
  {
    var stage := plan[r.x.stageIndex];
    assert AtStage(plan, r.x.stageIndex, r.x.candidates[m]);
    assert IdleUpTo(ctx, stage, r.participants, r.x.candidates, m + 1);
    IdleDispatch(ctx, stage, r, 0, m + 1);
    PassBehindDispatched(ctx, stage, r, m, m + 1);
    InFlightIsIncomplete(plan, r.x.stageIndex, DispatchFrom(ctx, stage, r, 0).x.candidates, m);
  }

  /** After a sequential dispatch the next pass looks behind it, finds nothing to dispatch, and is done. */
  lemma SequencedRoundSettles(ctx: Context, r: Run, m: nat)
    requires SequencePending(ctx, r, m) && IncreasingIds(r.x.candidates)
    requires BarrierInv(Plan(ctx.spec, r.x), r.x.stageIndex, r.x.candidates)
    ensures Round(ctx, r).Proceed? && StageQuiet(ctx, Round(ctx, r).run) && Settled(ctx, Round(ctx, r).run)
  {
    var plan := Plan(ctx.spec, r.x);
    var r0 := r.(progress := false);
    SequencedPass(ctx, plan, r0, m);
    var w := DispatchFrom(ctx, plan[r.x.stageIndex], r0, 0);
    assert StageLoop(ctx, plan, r0) == Proceed(w);
    assert Plan(ctx.spec, w.x) == plan;
    assert StageQuiet(ctx, w);
    assert Round(ctx, r) == Proceed(w);
  }

  // ---- The loop --------------------------------------------------------------------------------------------------------

  /** A quiet state stays quiet under a round, performs nothing, and is honest about its progress. */
  ghost predicate StaysQuiet(ctx: Context, round: Run -> Phase, q: Run) {
    Quiet(ctx, q) ==>
      && round(q).Proceed? && SameWork(q, round(q).run) && Quiet(ctx, round(q).run)
      && round(q).run.progress == Repeating(ctx, q) && Repeating(ctx, round(q).run) == Repeating(ctx, q)
  }

  ghost predicate RoundsStayQuiet(ctx: Context, round: Run -> Phase) {
    forall q {:trigger StaysQuiet(ctx, round, q)} :: StaysQuiet(ctx, round, q)
  }

  /** From `least` rounds on, the number of allowed rounds no longer matters. */
  ghost predicate LoopStable(round: Run -> Phase, r: Run, least: nat, w: Phase) {
    forall n: nat {:trigger EndsIn(round, r, n, w)} :: n >= least ==> EndsIn(round, r, n, w)
  }

  ghost predicate EndsIn(round: Run -> Phase, r: Run, n: nat, w: Phase) {
    Loop(round, r, n) == w
  }

  /** From a quiet state the loop performs nothing, however many rounds it is allowed. */
  lemma {:induction false} QuietLoop(ctx: Context, round: Run -> Phase, r: Run, rounds: nat)
    requires Quiet(ctx, r) && RoundsStayQuiet(ctx, round)
    ensures var w := Loop(round, r, rounds);
            && w.Proceed? && SameWork(r, w.run) && Quiet(ctx, w.run) && Repeating(ctx, w.run) == Repeating(ctx, r)
            && (rounds > 0 && (r.progress || !Repeating(ctx, r)) ==> w.run.progress == Repeating(ctx, r))
            && (!Repeating(ctx, r) && rounds >= 1 ==> LoopStable(round, r, 1, w))
    decreases rounds
  {
    if r.progress && rounds > 0 {
      assert StaysQuiet(ctx, round, r);
      var v := round(r);
      QuietLoop(ctx, round, v.run, rounds - 1);
      if !Repeating(ctx, r) {
        forall more: nat | more >= 1 ensures EndsIn(round, r, more, v) {
          assert Loop(round, v.run, more - 1) == Proceed(v.run);
        }
      }
    }
  }

  lemma QuietRounds(ctx: Context)
    requires Faithful(ctx.kernel)
    ensures RoundsStayQuiet(ctx, RoundOf(ctx))
  {
    forall q ensures StaysQuiet(ctx, RoundOf(ctx), q) {
      if Quiet(ctx, q) {
        QuietRound(ctx, q);
      }
    }
  }

  /** After the second round at the latest, the state is settled. */
  lemma SecondRoundSettles(ctx: Context, past: seq<Action>, acc: seq<Acceptance>, r: Run)
    requires Faithful(ctx.kernel) && RunInv(ctx, past, acc, r) && NearlyQuiet(ctx, r) && !Settled(ctx, r)
    requires Round(ctx, r).Proceed?
    ensures r.progress && Settled(ctx, Round(ctx, r).run)
  {
    if JustActivated(ctx, r) {
      ActivatedRoundSettles(ctx, r);
    } else {
      var m :| SequencePending(ctx, r, m);
      SequencedRoundSettles(ctx, r, m);
    }
  }

  lemma StableLater(round: Run -> Phase, r: Run, least: nat, later: nat, w: Phase)
    requires LoopStable(round, r, least, w) && least <= later
    ensures LoopStable(round, r, later, w)
  {
  }

  lemma StableUnrolls(round: Run -> Phase, r: Run, r1: Run, least: nat, w: Phase)
    requires r.progress && round(r) == Proceed(r1) && LoopStable(round, r1, least, w)
    ensures LoopStable(round, r, least + 1, w)
  {
    forall n: nat | n >= least + 1 ensures EndsIn(round, r, n, w) {
      assert EndsIn(round, r1, n - 1, w);
      assert Loop(round, r, n) == Loop(round, r1, n - 1);
    }
  }

  /** What the loop arrives at, once it is allowed `least` rounds. */
  ghost predicate LoopDone(ctx: Context, round: Run -> Phase, r: Run, least: nat, w: Phase) {
    && w.Proceed? && Settled(ctx, w.run)
    && w.run.progress == Repeating(ctx, w.run)
    && (!Repeating(ctx, w.run) ==> LoopStable(round, r, least, w))
  }

  lemma SettledLoop(ctx: Context, round: Run -> Phase, r: Run, rounds: nat, w: Phase)
    requires RoundsStayQuiet(ctx, round) && Settled(ctx, r) && rounds >= 1 && w == Loop(round, r, rounds)
    ensures LoopDone(ctx, round, r, 1, w)
  {
    QuietLoop(ctx, round, r, rounds);
  }

  lemma DoneUnrolls(ctx: Context, round: Run -> Phase, r: Run, r1: Run, least: nat, w: Phase)
    requires LoopDone(ctx, round, r1, least, w) && r.progress && round(r) == Proceed(r1)
    ensures LoopDone(ctx, round, r, least + 1, w)
  {
    if !Repeating(ctx, w.run) {
      StableUnrolls(round, r, r1, least, w);
    }
  }

  lemma DoneLater(ctx: Context, round: Run -> Phase, r: Run, least: nat, later: nat, w: Phase)
    requires LoopDone(ctx, round, r, least, w) && least <= later
    ensures LoopDone(ctx, round, r, later, w)
  {
    if !Repeating(ctx, w.run) {
      StableLater(round, r, least, later, w);
    }
  }

  lemma LoopAfterOne(ctx: Context, round: Run -> Phase, r: Run, r1: Run, rounds: nat, w: Phase)
    requires RoundsStayQuiet(ctx, round) && Settled(ctx, r1) && r.progress && rounds >= 3
    requires round(r) == Proceed(r1) && w == Loop(round, r1, rounds - 1)
    ensures LoopDone(ctx, round, r, 3, w)
  {
    SettledLoop(ctx, round, r1, rounds - 1, w);
    DoneUnrolls(ctx, round, r, r1, 1, w);
    DoneLater(ctx, round, r, 2, 3, w);
  }

  lemma LoopAfterTwo(ctx: Context, round: Run -> Phase, r: Run, r1: Run, r2: Run, rounds: nat, w: Phase)
    requires RoundsStayQuiet(ctx, round) && Settled(ctx, r2) && r.progress && r1.progress && rounds >= 3
    requires round(r) == Proceed(r1) && round(r1) == Proceed(r2) && w == Loop(round, r2, rounds - 2)
    ensures LoopDone(ctx, round, r, 3, w)
  {
    SettledLoop(ctx, round, r2, rounds - 2, w);
    DoneUnrolls(ctx, round, r1, r2, 1, w);
    DoneUnrolls(ctx, round, r, r1, 2, w);
  }

  lemma LoopUnrolls(ctx: Context, r: Run, n: nat)
    requires r.progress && n >= 1 && Round(ctx, r).Proceed?
    ensures RoundOf(ctx)(r) == Proceed(Round(ctx, r).run)
    ensures Loop(RoundOf(ctx), r, n) == Loop(RoundOf(ctx), Round(ctx, r).run, n - 1)
  {
  }

  /** What the first rounds of a loop that ends without an error arrive at. */
  ghost predicate SettledByTwo(ctx: Context, r: Run) {
    && Round(ctx, r).Proceed?
    && var r1 := Round(ctx, r).run;
       Settled(ctx, r1) || (r1.progress && Round(ctx, r1).Proceed? && Settled(ctx, Round(ctx, r1).run))
  }

  lemma FirstRounds(ctx: Context, past: seq<Action>, acc: seq<Acceptance>, r: Run, rounds: nat)
    requires Faithful(ctx.kernel) && RunInv(ctx, past, acc, r) && r.progress && rounds >= 3
    requires Loop(RoundOf(ctx), r, rounds).Proceed?
    ensures SettledByTwo(ctx, r)
  {
    RoundKeepsInvariant(ctx, past, acc, r);
    assert Round(ctx, r).Proceed?;
    RoundNearlySettles(ctx, r);
    var r1 := Round(ctx, r).run;
    LoopUnrolls(ctx, r, rounds);
    if !Settled(ctx, r1) {
      assert Round(ctx, r1).Proceed?;
      SecondRoundSettles(ctx, past, acc, r1);
    }
  }

  lemma LoopFromTwo(ctx: Context, r: Run, rounds: nat, w: Phase)
    requires RoundsStayQuiet(ctx, RoundOf(ctx)) && SettledByTwo(ctx, r) && r.progress && rounds >= 3
    requires w == Loop(RoundOf(ctx), r, rounds)
    ensures LoopDone(ctx, RoundOf(ctx), r, 3, w)
  {
    var r1 := Round(ctx, r).run;
    LoopUnrolls(ctx, r, rounds);
    if Settled(ctx, r1) {
      LoopAfterOne(ctx, RoundOf(ctx), r, r1, rounds, w);
    } else {
      var r2 := Round(ctx, r1).run;
      LoopUnrolls(ctx, r1, rounds - 1);
      LoopAfterTwo(ctx, RoundOf(ctx), r, r1, r2, rounds, w);
    }
  }

  /**
   The loop of `advance` needs no guard: from every reachable state it settles in at most three
   rounds, and any larger number of allowed rounds gives the same result, unless the settled state
   keeps asking for a plan its evaluators can never have.  The loop stops with its progress flag
   still set, that is because of the guard, exactly in that case.
   */
  lemma LoopSettles(ctx: Context, past: seq<Action>, acc: seq<Acceptance>, r: Run, rounds: nat)
    requires Faithful(ctx.kernel) && RunInv(ctx, past, acc, r) && r.progress && rounds >= 3
    requires Loop(RoundOf(ctx), r, rounds).Proceed?
    ensures LoopDone(ctx, RoundOf(ctx), r, 3, Loop(RoundOf(ctx), r, rounds))
  {
    FirstRounds(ctx, past, acc, r, rounds);
    QuietRounds(ctx);
    LoopFromTwo(ctx, r, rounds, Loop(RoundOf(ctx), r, rounds));
  }

  /** A specification with a judge, with mandatory criteria for its verifiers, or without evaluators never repeats. */
  lemma OnlyBarrenSpecificationsRepeat(ctx: Context, r: Run)
    requires Quiet(ctx, r) && Repeating(ctx, r)
    ensures Barren(ctx.spec) && Evaluators(ctx.spec) != []
    ensures forall d :: d in Evaluators(ctx.spec) ==> !d.roles.judge && d.roles.verifier && ctx.spec.evidence.mandatoryCriteria == []
  {
    forall d | d in Evaluators(ctx.spec) ensures !d.roles.judge && d.roles.verifier && ctx.spec.evidence.mandatoryCriteria == [] {
      assert !Productive(ctx.spec, d) && d.roles.Evaluates();
    }
  }

  /** Running `advance` again from where a successful one ended performs nothing and changes reports only. */
  lemma AdvanceTwice(ctx: Context, past: seq<Action>, acc: seq<Acceptance>, r: Run, again: Run)
    requires Faithful(ctx.kernel) && RunInv(ctx, past, acc, r) && AdvanceOpen(ctx, r).Proceed?
    requires again == AdvanceOpen(ctx, r).run.(actions := [], progress := again.progress)
    ensures var w := AdvanceOpen(ctx, again);
            w.Proceed? && w.run.actions == [] && SameWork(again, w.run)
  {
    var r0 := r.(progress := true);
    ProgressFlagKeeps(ctx, past, acc, r, true);
    LoopSettles(ctx, past, acc, r0, GUARD);
    var v := Loop(RoundOf(ctx), r0, GUARD).run;
    var end := AdvanceOpen(ctx, r).run;
    assert end == Recomputed(ctx, v);
    ReportsDoNotDisturb(ctx, v, end);
    var start := again.(progress := true);
    QuietIgnoresActions(ctx, end, start);
    QuietRounds(ctx);
    QuietLoop(ctx, RoundOf(ctx), start, GUARD);
  }

  lemma QuietIgnoresActions(ctx: Context, r: Run, w: Run)
    requires Quiet(ctx, r) && w == r.(actions := w.actions, progress := w.progress)
    ensures Quiet(ctx, w)
  {
    assert Recomputed(ctx, w).x == Recomputed(ctx, r).x;
  }
}
