/** The loops of the runtime as it performs them, each proved to compute its specification function. */
module Loops {
  import opened Base
  import opened Spec
  import opened Records
  import opened Lifecycle
  import opened Attempts
  import opened Participants
  import opened Definition
  import opened Reports
  import opened Progress
  import Quorum
  import Consensus
  import Arbitration

  // ---- Reports --------------------------------------------------------------------------------------------

  method SummarizeCandidate(evaluations: seq<Evaluation>, c: Candidate) returns (s: Arbitration.Summary)
    ensures s == Summarize(evaluations, c)
  {
    s := EmptySummary(c);
    for i := 0 to |evaluations|
      invariant s == Summarize(evaluations[..i], c)
    {
      assert evaluations[..i + 1][..i] == evaluations[..i];
      if Relevant(evaluations[i], c) {
        s := AddEvaluation(s, evaluations[i]);
      }
    }
    assert evaluations[..|evaluations|] == evaluations;
  }

  method CollectMembers(ps: seq<Participant>, epoch: nat) returns (members: seq<Quorum.Member>, requiredFailed: bool)
    ensures members == Membership(ps, epoch) && requiredFailed == RequiredFailed(ps)
  {
    members, requiredFailed := [], false;
    for i := 0 to |ps|
      invariant members == Membership(ps[..i], epoch) && requiredFailed == RequiredFailed(ps[..i])
    {
      assert ps[..i + 1] == ps[..i] + [ps[i]];
      members := members + [MemberOf(ps[i], epoch)];
      if ps[i].declaration.required && ps[i].status == StatusFailed {
        requiredFailed := true;
      }
    }
    assert ps[..|ps|] == ps;
  }

  method CollectVotes(evaluations: seq<Evaluation>) returns (votes: seq<Quorum.Vote>)
    ensures votes == Votes(evaluations)
  {
    votes := [];
    for i := 0 to |evaluations|
      invariant votes == Votes(evaluations[..i])
    {
      assert evaluations[..i + 1][..i] == evaluations[..i];
      if evaluations[i].current {
        votes := votes + [VoteOf(evaluations[i])];
      }
    }
    assert evaluations[..|evaluations|] == evaluations;
  }

  method CountCandidates(cs: seq<Candidate>) returns (valid: nat, invalid: nat)
    ensures valid == ValidCandidates(cs) && invalid == InvalidCandidates(cs)
  {
    valid, invalid := 0, 0;
    for i := 0 to |cs|
      invariant valid == ValidCandidates(cs[..i]) && invalid == InvalidCandidates(cs[..i])
    {
      assert cs[..i + 1] == cs[..i] + [cs[i]];
      CountIfSnoc(cs[..i], cs[i], (c: Candidate) => IsContent(c.state));
      CountIfSnoc(cs[..i], cs[i], (c: Candidate) => c.state == Invalid || c.state == Failed);
      if IsContent(cs[i].state) {
        valid := valid + 1;
      } else if cs[i].state == Invalid || cs[i].state == Failed {
        invalid := invalid + 1;
      }
    }
    assert cs[..|cs|] == cs;
  }

  method TallyCandidate(evaluations: seq<Evaluation>, c: Candidate) returns (t: Consensus.Tally)
    ensures t == TallyOf(evaluations, c)
  {
    t := EmptyTally(c);
    for i := 0 to |evaluations|
      invariant t == TallyOf(evaluations[..i], c)
    {
      assert evaluations[..i + 1][..i] == evaluations[..i];
      if Relevant(evaluations[i], c) {
        t := AddVote(t, evaluations[i]);
      }
    }
    assert evaluations[..|evaluations|] == evaluations;
  }

  method TallyAll(x: Execution) returns (tallies: seq<Consensus.Tally>)
    ensures tallies == Tallies(x)
  {
    tallies := [];
    for i := 0 to |x.candidates|
      invariant |tallies| == i && forall j :: 0 <= j < i ==> tallies[j] == TallyOf(x.evaluations, x.candidates[j])
    {
      var t := TallyCandidate(x.evaluations, x.candidates[i]);
      tallies := tallies + [t];
    }
  }

  method CollectInputs(spec: RuntimeSpec, ps: seq<Participant>, x: Execution) returns (inputs: seq<Arbitration.Input>)
    ensures inputs == InputsOf(spec, ps, x)
  {
    inputs := [];
    for i := 0 to |x.candidates|
      invariant |inputs| == i && forall j :: 0 <= j < i ==> inputs[j] == InputOf(spec, ps, x, x.candidates[j])
    {
      inputs := inputs + [InputOf(spec, ps, x, x.candidates[i])];
    }
  }

  /** The first configured trigger that fires. */
  method FindTrigger(spec: RuntimeSpec, ps: seq<Participant>, x: Execution) returns (t: Option<Trigger>)
    ensures t == FirstTrigger(spec.fallback.triggers, spec, ps, x)
  {
    var triggers := spec.fallback.triggers;
    for i := 0 to |triggers|
      invariant FirstTrigger(triggers, spec, ps, x) == FirstTrigger(triggers[i..], spec, ps, x)
    {
      if TriggerFires(triggers[i], spec, ps, x) {
        return Some(triggers[i]);
      }
    }
    t := None;
  }

  /** Quorum, then consensus, then arbitration, each over freshly collected inputs. */
  method Recompute(spec: RuntimeSpec, superseded: bool, ps: seq<Participant>, x: Execution) returns (rs: ReportSet)
    ensures rs == ReportsOf(spec, superseded, ps, x)
  {
    rs := x.reports.(generation := x.reports.generation + 1);
    var members, requiredFailed := CollectMembers(ps, x.epoch);
    var votes := CollectVotes(x.evaluations);
    var valid, invalid := CountCandidates(x.candidates);
    var quorum := Quorum.ComputeQuorum(spec.quorum, members, votes, valid, spec.generation, x.epoch, rs.generation);
    rs := rs.(quorum := quorum.(evaluations := |votes|));
    ghost var r1 := rs;
    assert r1.quorum == QuorumStep(spec, ps, WithReports(x, x.reports.(generation := rs.generation)));
    var consensus := RecomputeConsensus(spec, superseded, ps, WithReports(x, rs), requiredFailed, invalid);
    rs := rs.(consensus := consensus);
    var inputs := CollectInputs(spec, ps, WithReports(x, rs));
    var arbitration := Arbitration.Arbitrate(Arbitration.Inputs(
      inputs, spec.arbitration, spec.aggregation, spec.evidence, rs.quorum.state == Quorum.QuorumReached, spec.generation,
      x.epoch, rs.generation));
    rs := rs.(arbitration := arbitration);
  }

  method RecomputeConsensus(spec: RuntimeSpec, superseded: bool, ps: seq<Participant>, x: Execution, requiredFailed: bool, invalid: nat)
    returns (report: Consensus.ConsensusReport)
    requires requiredFailed == RequiredFailed(ps) && invalid == InvalidCandidates(x.candidates)
    ensures report == ConsensusStep(spec, superseded, ps, x)
  {
    var tallies := TallyAll(x);
    var fallbackRequired := false;
    if spec.fallback.enabled && x.fallbackDepth >= spec.fallback.maxDepth && !FallbackContent(x) {
      var t := FindTrigger(spec, ps, x);
      fallbackRequired := t.Some?;
    }
    report := Consensus.ComputeConsensus(Consensus.ConsensusInputs(
      x.reports.quorum, tallies, |x.candidates|, invalid, requiredFailed, spec.completion.requireAllRequiredParticipants,
      x.status == ExecCancelled, x.status == ExecSuperseded || superseded, x.status == ExecRevalidation, fallbackRequired,
      Evaluators(spec) != [], spec.generation, x.epoch, x.reports.generation));
  }

  // ---- Stages ------------------------------------------------------------------------------------------------

  method DeclareStage(ctx: Context, stage: Stage, r0: Run) returns (v: Phase)
    ensures v == DeclareFrom(ctx, stage, r0, 0)
  {
    var r, k := r0, 0;
    while k < |stage.participants|
      invariant k <= |stage.participants|
      invariant DeclareFrom(ctx, stage, r0, 0) == DeclareFrom(ctx, stage, r, k)
    {
      var one := DeclareOne(ctx, stage, r, stage.participants[k]);
      if one.Halt? {
        return one;
      }
      r := one.run;
      k := k + 1;
    }
    v := Proceed(r.(x := r.x.(declaredCurrentStage := true), progress := true));
  }

  method DispatchStage(ctx: Context, stage: Stage, r0: Run) returns (r: Run)
    ensures r == DispatchFrom(ctx, stage, r0, 0)
  {
    r := r0;
    var k := 0;
    while k < |r.x.candidates|
      invariant DispatchFrom(ctx, stage, r0, 0) == DispatchFrom(ctx, stage, r, k)
      decreases |r.x.candidates| - k
    {
      var c := r.x.candidates[k];
      if c.stage == stage.id && c.state == Declared {
        var j := FindParticipant(r.participants, c.participant);
        if j.Some? {
          var p := r.participants[j.value];
          ghost var before := r;
          r := Touched(r, k, p);
          if !p.Authoritative(ctx.epoch) {
            if !p.Capable() && !AwaitingReplacement(ctx.spec, c) {
              r := GiveUp(r, k);
            }
            assert Visit(ctx, stage, before, k) == (r, true);
          } else {
            if stage.mode == Sequential && EarlierPending(r.x.candidates, stage.id, c.id) {
              return;
            }
            r := DispatchAt(ctx, r, k, p);
            if stage.mode == Sequential {
              return;
            }
          }
        }
      }
      k := k + 1;
    }
  }

  method RunStages(ctx: Context, r0: Run) returns (v: Phase)
    ensures v == StageLoop(ctx, Plan(ctx.spec, r0.x), r0)
  {
    var stages := Plan(ctx.spec, r0.x);
    var r := r0;
    while r.x.stageIndex < |stages|
      invariant StageLoop(ctx, stages, r0) == StageLoop(ctx, stages, r)
      decreases |stages| - r.x.stageIndex
    {
      var stage := stages[r.x.stageIndex];
      if !r.x.declaredCurrentStage {
        var declared := DeclareStage(ctx, stage, r);
        if declared.Halt? {
          return declared;
        }
        r := declared.run;
      }
      r := DispatchStage(ctx, stage, r);
      if !StageComplete(stage, r.x.candidates) {
        return Proceed(r);
      }
      r := NextStage(r);
    }
    v := Proceed(r);
  }

  // ---- Evaluations ---------------------------------------------------------------------------------------------

  method PlanEach(r0: Run, evaluator: nat, role: Role, kind: CriterionKind, c: Candidate, criteria: seq<Criterion>) returns (v: Phase)
    ensures v == PlanCriteria(r0, evaluator, role, kind, c, criteria, 0)
  {
    var r := r0;
    for k := 0 to |criteria|
      invariant PlanCriteria(r0, evaluator, role, kind, c, criteria, 0) == PlanCriteria(r, evaluator, role, kind, c, criteria, k)
    {
      var identity := Allocate(r.ids.evaluation);
      if identity.None? {
        return Halt(r, ResourceLimitExceeded);
      }
      var q := NewPending(identity.value.0, evaluator, GenerationOf(r.participants, evaluator), role, c, criteria[k], kind);
      r := r.(x := r.x.(pending := r.x.pending + [q]), ids := r.ids.(evaluation := identity.value.1));
    }
    v := Proceed(r);
  }

  method PlanAllEvaluators(ctx: Context, r0: Run, c: Candidate) returns (v: Phase)
    ensures v == PlanEvaluators(ctx, r0, Evaluators(ctx.spec), c, 0)
  {
    var evaluators := Evaluators(ctx.spec);
    var r := r0;
    for k := 0 to |evaluators|
      invariant PlanEvaluators(ctx, r0, evaluators, c, 0) == PlanEvaluators(ctx, r, evaluators, c, k)
    {
      var d := evaluators[k];
      ghost var before := r;
      if d.roles.verifier {
        var verified := PlanEach(r, d.id, VerifierRole, HardPredicate, c, ctx.spec.evidence.mandatoryCriteria);
        if verified.Halt? {
          return verified;
        }
        r := verified.run;
      }
      if d.roles.judge {
        var judged := PlanEach(r, d.id, JudgeRole, RankingSignal, c, JudgingCriteria(ctx.spec));
        if judged.Halt? {
          return judged;
        }
        r := judged.run;
      }
      assert PlanEvaluator(ctx, before, d, c) == Proceed(r);
    }
    v := Proceed(r);
  }

  method PlanAllCandidates(ctx: Context, r0: Run) returns (v: Phase)
    ensures v == PlanCandidates(ctx, r0, r0.x.candidates, 0)
  {
    var cs, r := r0.x.candidates, r0;
    for k := 0 to |cs|
      invariant PlanCandidates(ctx, r0, cs, 0) == PlanCandidates(ctx, r, cs, k)
    {
      if IsContent(cs[k].state) {
        var planned := PlanAllEvaluators(ctx, r, cs[k]);
        if planned.Halt? {
          return planned;
        }
        r := planned.run;
      }
    }
    v := Proceed(r);
  }

  method EmitEvaluations(ctx: Context, r0: Run) returns (r: Run)
    ensures r == EmitFrom(ctx, r0, 0)
  {
    r := r0;
    var k := 0;
    while k < |r.x.pending|
      invariant EmitFrom(ctx, r0, 0) == EmitFrom(ctx, r, k)
      decreases |r.x.pending| - k
    {
      r := EmitAt(ctx, r, k);
      k := k + 1;
    }
  }

  // ---- Fallback, rounds, cancellation ------------------------------------------------------------------------------

  method Announce(ctx: Context, r0: Run, trigger: Trigger) returns (r: Run)
    ensures r == AnnounceFrom(ctx, r0, trigger, 0)
  {
    var ids := ctx.spec.fallback.participants;
    r := r0;
    for k := 0 to |ids|
      invariant AnnounceFrom(ctx, r0, trigger, 0) == AnnounceFrom(ctx, r, trigger, k)
    {
      var action := FallbackAction(KeyOf(ctx, r.x), ids[k], GenerationOf(r.participants, ids[k]), trigger, r.x.fallbackDepth,
                                   SequenceValue(r.ids));
      var j := FindParticipant(r.participants, ids[k]);
      var ps := r.participants;
      if j.Some? {
        ps := ps[j.value := ps[j.value].(fallbackActivated := true)];
      }
      r := r.(participants := ps, ids := AfterSequence(r.ids), actions := r.actions + [action]);
    }
  }

  method RecomputeRun(ctx: Context, r0: Run) returns (r: Run)
    requires Faithful(ctx.kernel)
    ensures r == Recomputed(ctx, r0)
  {
    var rs := Recompute(ctx.spec, false, r0.participants, r0.x);
    assert rs == ctx.kernel(ctx.spec, false, r0.participants, r0.x);
    r := r0.(x := WithReports(r0.x, rs));
  }

  method ActivateIfTriggered(ctx: Context, r0: Run) returns (r: Run)
    ensures var trigger := ActivationTrigger(ctx, r0.participants, r0.x);
            r == if trigger.Some? then Activate(ctx, r0, trigger.value) else r0
  {
    r := r0;
    if ctx.spec.fallback.enabled && !r.x.fallbackActivated && r.x.fallbackDepth < ctx.spec.fallback.maxDepth && !Outstanding(r.x) {
      var trigger := FindTrigger(ctx.spec, r.participants, r.x);
      if trigger.Some? {
        var x := r.x.(
          extraStages := r.x.extraStages + [FallbackStage(ctx.spec, r.x.fallbackDepth)],
          fallbackActivated := true,
          fallbackDepth := r.x.fallbackDepth + 1,
          planningComplete := false);
        r := Announce(ctx, r.(x := x, progress := true), trigger.value);
      }
    }
  }

  method ConsiderFallback(ctx: Context, r0: Run) returns (r: Run)
    requires Faithful(ctx.kernel)
    ensures r == FallbackStep(ctx, r0)
  {
    r := RecomputeRun(ctx, r0);
    r := ActivateIfTriggered(ctx, r);
  }

  method RunRound(ctx: Context, r0: Run) returns (v: Phase)
    requires Faithful(ctx.kernel)
    ensures v == Round(ctx, r0)
  {
    v := RunStages(ctx, r0.(progress := false));
    if v.Halt? || v.run.x.stageIndex < |Plan(ctx.spec, r0.x)| {
      return;
    }
    var r := v.run;
    if !(r.x.planningComplete && !NeedsPlan(ctx.spec, r.x)) {
      v := PlanAllCandidates(ctx, r.(x := r.x.(planningComplete := true), progress := true));
      if v.Halt? {
        return;
      }
      r := v.run;
    }
    r := EmitEvaluations(ctx, r);
    r := ConsiderFallback(ctx, r);
    v := Proceed(r);
  }

  /** The guarded loop: rounds as long as the last one made progress, and never more than the guard. */
  method RunRounds(ctx: Context, r0: Run) returns (v: Phase)
    requires Faithful(ctx.kernel)
    ensures v == Loop(RoundOf(ctx), r0, GUARD)
  {
    v := Proceed(r0);
    var guard := 0;
    while v.run.progress && guard < GUARD
      invariant 0 <= guard <= GUARD && v.Proceed?
      invariant Loop(RoundOf(ctx), r0, GUARD) == Loop(RoundOf(ctx), v.run, GUARD - guard)
    {
      ghost var before := v.run;
      v := RunRound(ctx, v.run);
      assert v == RoundOf(ctx)(before);
      if v.Halt? {
        return;
      }
      guard := guard + 1;
    }
  }

  method RunAdvance(ctx: Context, r0: Run) returns (v: Phase)
    requires Faithful(ctx.kernel)
    ensures v == AdvanceOpen(ctx, r0)
  {
    v := RunRounds(ctx, r0.(progress := true));
    if v.Proceed? {
      var r := RecomputeRun(ctx, v.run);
      v := Proceed(r);
    }
  }

  method CancelInFlight(key: ExecutionKey, r0: Run) returns (r: Run)
    ensures r == CancelFrom(key, r0, 0)
  {
    r := r0;
    var k := 0;
    while k < |r.x.candidates|
      invariant CancelFrom(key, r0, 0) == CancelFrom(key, r, k)
      decreases |r.x.candidates| - k
    {
      var c := r.x.candidates[k];
      if InFlight(c.state) {
        var action := CancelAction(key, c.participant, c.participantGeneration, c.id, c.generation, SequenceValue(r.ids));
        r := WithCandidate(r, k, c.(state := Cancelled, current := false)).(ids := AfterSequence(r.ids), actions := r.actions + [action]);
      }
      k := k + 1;
    }
  }

  method AnnounceCancellation(ctx: Context, r0: Run) returns (r: Run)
    ensures r == EmitCancellation(ctx, r0)
  {
    r := CancelInFlight(KeyOf(ctx, r0.x), r0.(x := r0.x.(cancellationEmitted := true)));
    var es, qs := WithdrawEvidence([], r.x.pending);
    r := r.(x := r.x.(pending := qs));
  }

  // ---- Invalidation and counting -----------------------------------------------------------------------------------

  method InterruptCandidates(cs: seq<Candidate>, state: CandidateState, stale: bool, failure: Option<Error>)
    returns (ds: seq<Candidate>)
    ensures ds == InterruptAll(cs, state, stale, failure)
  {
    ds := [];
    for i := 0 to |cs|
      invariant |ds| == i && forall j :: 0 <= j < i ==> ds[j] == Interrupted(cs[j], state, stale, failure)
    {
      ds := ds + [Interrupted(cs[i], state, stale, failure)];
    }
  }

  method InvalidateMembers(ps: seq<Participant>) returns (qs: seq<Participant>)
    ensures qs == InvalidateParticipants(ps)
  {
    qs := [];
    for i := 0 to |ps|
      invariant |qs| == i && forall j :: 0 <= j < i ==> qs[j] == InvalidatedParticipant(ps[j])
    {
      if !ps[i].registered && ps[i].status == StatusRevalidation {
        qs := qs + [ps[i]];
      } else {
        qs := qs + [ps[i].(status := StatusRevalidation, registered := false)];
      }
    }
  }

  method WithdrawEvidence(es: seq<Evaluation>, ps: seq<Pending>) returns (fs: seq<Evaluation>, qs: seq<Pending>)
    ensures fs == WithdrawAll(es) && qs == AbandonAll(ps)
  {
    fs, qs := [], [];
    for i := 0 to |es|
      invariant |fs| == i && forall j :: 0 <= j < i ==> fs[j] == es[j].(current := false)
    {
      fs := fs + [es[i].(current := false)];
    }
    for i := 0 to |ps|
      invariant |qs| == i && forall j :: 0 <= j < i ==> qs[j] == ps[j].(abandoned := true)
    {
      qs := qs + [ps[i].(abandoned := true)];
    }
  }

  method InvalidateOne(e: Ensemble) returns (f: Ensemble)
    ensures f == InvalidateEnsemble(e)
  {
    var ps := InvalidateMembers(e.participants);
    f := e.(participants := ps);
    if HasOpenExecution(e) {
      var x := e.execution.value;
      var cs := InterruptCandidates(x.candidates, Superseded, true, Some(RevalidationRequired));
      var es, qs := WithdrawEvidence(x.evaluations, x.pending);
      f := f.(execution := Some(x.(status := ExecRevalidation, candidates := cs, evaluations := es, pending := qs)));
    }
  }

  ghost function OpenAmong(ensembles: map<nat, Ensemble>, keys: set<nat>): set<nat> {
    set k | k in keys && k in ensembles && HasOpenExecution(ensembles[k])
  }

  lemma OpenAmongGrows(ensembles: map<nat, Ensemble>, done: set<nat>, k: nat)
    requires k in ensembles && k !in done
    ensures |OpenAmong(ensembles, done + {k})| == |OpenAmong(ensembles, done)| + if HasOpenExecution(ensembles[k]) then 1 else 0
  {
    var before, after := OpenAmong(ensembles, done), OpenAmong(ensembles, done + {k});
    if HasOpenExecution(ensembles[k]) {
      assert after == before + {k};
    } else {
      assert after == before;
    }
  }

  method CountOpen(ensembles: map<nat, Ensemble>) returns (n: nat)
    ensures n == OpenExecutions(ensembles)
  {
    n := 0;
    var todo := ensembles.Keys;
    ghost var done: set<nat> := {};
    while todo != {}
      invariant todo !! done && todo + done == ensembles.Keys
      invariant forall k :: k in todo ==> k in ensembles
      invariant n == |OpenAmong(ensembles, done)|
    {
      var k :| k in todo;
      OpenAmongGrows(ensembles, done, k);
      if HasOpenExecution(ensembles[k]) {
        n := n + 1;
      }
      todo := todo - {k};
      done := done + {k};
    }
    assert OpenAmong(ensembles, done) == set k | k in ensembles && HasOpenExecution(ensembles[k]);
  }

  method InvalidateEach(ensembles: map<nat, Ensemble>) returns (after: map<nat, Ensemble>)
    ensures after == map k | k in ensembles :: InvalidateEnsemble(ensembles[k])
  {
    after := map[];
    var todo := ensembles.Keys;
    while todo != {}
      invariant todo <= ensembles.Keys && after.Keys == ensembles.Keys - todo
      invariant forall k :: k in after ==> after[k] == InvalidateEnsemble(ensembles[k])
    {
      var k :| k in todo;
      var f := InvalidateOne(ensembles[k]);
      after := after[k := f];
      todo := todo - {k};
    }
  }

  method EnrollParticipants(declared: seq<ParticipantSpec>) returns (ps: seq<Participant>)
    ensures ps == FreshParticipants(declared)
  {
    ps := [];
    for i := 0 to |declared|
      invariant |ps| == i && forall j :: 0 <= j < i ==> ps[j] == Undeclared(declared[j])
    {
      ps := ps + [Undeclared(declared[i])];
    }
  }
}
