/**
 One run, step by step: a candidate answers, nobody can evaluate it, the fallback is used up without
 content.  It shows that the premises of the theorems about the guard, about recomputation and about
 reviving a quorum are met in states the runtime reaches.
 */
module Scenario {
  import opened Base
  import opened Spec
  import opened Records
  import opened Lifecycle
  import opened Attempts
  import opened Participants
  import opened Definition
  import opened Ingest
  import opened Reports
  import opened Progress
  import opened Finalization
  import opened Monotone
  import opened Invariants
  import opened Advancing
  import opened Ledger
  import opened Snapshots
  import opened System
  import opened Runs
  import opened Identities
  import opened Recomputation
  import opened Settling
  import opened Guard
  import opened Idempotence
  import opened Standing
  import Quorum
  import Consensus

  // ---- The specification -----------------------------------------------------------------------------------

  const LIMITS: Limits := Limits(8, 8, 8, 8, 8, 8, 8, 8, 8, 8, 1024, 1024, 1024, 4096, 65536, 64, 8, 64)

  const PLAIN: Requirement := Requirement(1, 0, 0, 0, 0, 0, false)

  function Declaration(id: nat, roles: RoleSet): ParticipantSpec {
    ParticipantSpec(id, [], roles, false, [], 0, 0, None, PLAIN)
  }

  const NO_ROLES: RoleSet := RoleSet(false, false, false, false, false)
  const WRITER: ParticipantSpec := Declaration(1, NO_ROLES.(candidate := true))
  const CHECKER: ParticipantSpec := Declaration(2, NO_ROLES.(verifier := true))
  const RESERVE: ParticipantSpec := Declaration(3, NO_ROLES.(fallback := true))

  /** One writer, one verifier without a single criterion to verify, one fallback. */
  const ASKED: RuntimeSpec := EnsembleSpec(
    1, 0, [], [], 0, [WRITER, CHECKER, RESERVE], [],
    QuorumPolicy(1, [], 0, 0, 0, AuthoritativeParticipants, false, true, false, false, UNBOUNDED, UNBOUNDED),
    AggregationPolicy(BestOfN, false, false, false, 0.0, 0.0),
    ArbitrationPolicy([], ReportTie, false, 1),
    FallbackPolicy(true, [TriggerJudgeDisagreement], [3], false, 1),
    CompletionPolicy(false, false, true),
    RetryPolicy(1, false, false, false, false, false, false),
    CancellationPolicy(false, false, true),
    Evidence(0, 0, false, [], false, false),
    [], PLAIN, 0, 0, 0)

  function SpecOf(fingerprint: nat): RuntimeSpec {
    ASKED.(generation := 1, fingerprint := fingerprint)
  }

  lemma AskedIsAdmitted()
    ensures SpecFault(SpecOf(0), LIMITS) == None
  {
    var s := SpecOf(0);
    assert LIMITS.Valid();
    assert ParticipantFault(s, LIMITS, 3) == None;
    assert ParticipantFault(s, LIMITS, 2) == None;
    assert ParticipantFault(s, LIMITS, 1) == None;
    assert ParticipantFault(s, LIMITS, 0) == None;
    assert s.participants[0] in s.participants;
    assert StageFault(s, LIMITS, 0) == None;
    assert FindSpec(s.participants[2..], 3) == Some(RESERVE);
    assert FindSpec(s.participants[1..], 3) == Some(RESERVE);
    assert FindSpec(s.participants, 3) == Some(RESERVE);
    assert FallbackFault(s, LIMITS) == None;
    assert s.participants[1..][1..] == [RESERVE];
    assert PolicyFault(s, LIMITS) == None;
  }

  const FIRST_STAGE: Stage := Stage(1, [], Parallel, [1], [], false)
  const RESERVE_STAGE: Stage := Stage(1001, [], Parallel, [3], [], true)

  lemma PlanOf(fp: nat)
    ensures EffectiveStages(SpecOf(fp)) == [FIRST_STAGE] && Evaluators(SpecOf(fp)) == [CHECKER]
    ensures FallbackStage(SpecOf(fp), 0) == RESERVE_STAGE
    ensures Barren(SpecOf(fp))
    ensures FindSpec(SpecOf(fp).participants, 1) == Some(WRITER) && FindSpec(SpecOf(fp).participants, 3) == Some(RESERVE)
  {
    var ps := SpecOf(fp).participants;
    assert ps[1..] == [CHECKER, RESERVE] && ps[1..][1..] == [RESERVE] && ps[1..][1..][1..] == [];
    assert ImplicitMembers([RESERVE], false) == [];
    assert ImplicitMembers([CHECKER, RESERVE], false) == [];
    assert ImplicitMembers(ps, false) == [1];
    var f := (p: ParticipantSpec) => p.roles.Evaluates();
    assert Filter([RESERVE], f) == [];
    assert Filter([CHECKER, RESERVE], f) == [CHECKER];
    assert FindSpec([CHECKER, RESERVE], 3) == FindSpec([RESERVE], 3) == Some(RESERVE);
  }

  // ---- The run ------------------------------------------------------------------------------------------------

  function Joined(p: ParticipantSpec): Participant {
    Participant(p.id, 1, p, StatusCurrent, p.id, p.id, 1, NO_PROFILE, true, 0, false)
  }

  function Members(writer: bool, reserve: bool, called: bool): seq<Participant> {
    [if writer then Joined(WRITER) else Undeclared(WRITER),
     Undeclared(CHECKER),
     (if reserve then Joined(RESERVE) else Undeclared(RESERVE)).(fallbackActivated := called)]
  }

  lemma Find(writer: bool, reserve: bool, called: bool)
    ensures var ps := Members(writer, reserve, called);
            FindParticipant(ps, 1) == Some(0) && FindParticipant(ps, 3) == Some(2)
  {
    var ps := Members(writer, reserve, called);
    assert ps[1..][1..] == [ps[2]];
    assert FindParticipant([ps[2]], 3) == Some(0);
    assert FindParticipant(ps[1..], 3) == Some(1);
  }

  /** The runtime holds one ensemble of this specification, with these participants and this execution. */
  ghost predicate Holds(sys: System, fp: nat, ids: Ids, ps: seq<Participant>, x: Option<Execution>) {
    var s := sys.fabric;
    && s.config.limits == LIMITS && Faithful(s.config.kernel)
    && s.epoch == 1 && s.ids == ids && s.ensembles == map[1 := Ensemble(SpecOf(fp), ps, x, false, [])]
  }

  function Registering(id: nat): Op {
    OpRegister(Registration(1, 1, id, id, id, 1, NO_ROLES, NO_PROFILE))
  }

  lemma Defining(sys: System, digest: Digest)
    requires Initial(sys) && sys.fabric.config.limits == LIMITS && sys.fabric.epoch == 1 && sys.fabric.ids == FIRST_IDS
    ensures Holds(Step(sys, OpDefine(ASKED, digest)), digest(SpecOf(0)), FIRST_IDS.(ensemble := 2), Members(false, false, false), None)
  {
    AskedIsAdmitted();
    var spec := SpecOf(digest(SpecOf(0)));
    assert ASKED.(id := 1, generation := 1) == SpecOf(0);
    assert FreshParticipants(spec.participants) == Members(false, false, false);
    var s := sys.fabric.(ids := FIRST_IDS.(ensemble := 2));
    assert Define(sys.fabric, ASKED, digest) == (Redefine(s, spec), Ok(1));
    assert Redefine(s, spec).ensembles == map[1 := Ensemble(spec, Members(false, false, false), None, false, [])];
  }

  lemma Opening(sys: System, fp: nat, ids: Ids, ps: seq<Participant>)
    requires Holds(sys, fp, ids, ps, None)
    ensures Holds(Step(sys, OpOpen(1, 1)), fp, ids, ps, Some(FreshExecution(1, 1)))
  {
    var s := sys.fabric;
    assert (set k | k in s.ensembles && HasOpenExecution(s.ensembles[k])) == {};
    assert OpenFault(s, 1, 1) == None;
  }

  lemma Joining(sys: System, fp: nat, ids: Ids, writer: bool, x: Option<Execution>)
    requires Holds(sys, fp, ids, Members(writer, false, false), x)
    ensures !writer ==> Register(sys.fabric, Registering(1).registration).1.Ok?
    ensures !writer ==> Holds(Step(sys, Registering(1)), fp, ids, Members(true, false, false), x)
    ensures writer ==> Holds(Step(sys, Registering(3)), fp, ids, Members(true, true, false), x)
  {
    Find(writer, false, false);
    var ps := Members(writer, false, false);
    var id := if writer then 3 else 1;
    var r := Registering(id).registration;
    assert RegistrationFault(sys.fabric, r) == None;
    var j := if writer then 2 else 0;
    assert ps[j := Registered(ps[j], r)] == Members(true, writer, false);
  }

  // ---- The first advance dispatches the writer --------------------------------------------------------------------

  lemma TwoRounds(ctx: Context, r: Run, r1: Run, r2: Run, rounds: nat)
    requires r.progress && rounds >= 3 && Round(ctx, r) == Proceed(r1) && r1.progress && Round(ctx, r1) == Proceed(r2) && !r2.progress
    ensures Loop(RoundOf(ctx), r, rounds) == Proceed(r2)
  {
    LoopUnrolls(ctx, r, rounds);
    LoopUnrolls(ctx, r1, rounds - 1);
  }

  lemma Busy(stage: Stage, cs: seq<Candidate>, c: Candidate)
    requires c in cs && c.participant in stage.participants && c.stage == stage.id && InFlight(c.state)
    ensures !StageComplete(stage, cs)
  {
  }

  /** A round that dispatches or waits in a stage that is declared. */
  lemma WaitingRound(ctx: Context, r: Run, w: Run)
    requires r.x.stageIndex < |Plan(ctx.spec, r.x)| && r.x.declaredCurrentStage
    requires DispatchFrom(ctx, Plan(ctx.spec, r.x)[r.x.stageIndex], r.(progress := false), 0) == w
    requires !StageComplete(Plan(ctx.spec, r.x)[r.x.stageIndex], w.x.candidates)
    requires w.x.stageIndex == r.x.stageIndex
    ensures Round(ctx, r) == Proceed(w)
  {
    assert Plan(ctx.spec, r.(progress := false).x) == Plan(ctx.spec, r.x);
  }

  /** The same in a stage that is declared on the way. */
  lemma DeclaringRound(ctx: Context, r: Run, r1: Run, w: Run)
    requires r.x.stageIndex < |Plan(ctx.spec, r.x)|
    requires Declare(ctx, Plan(ctx.spec, r.x)[r.x.stageIndex], r.(progress := false)) == Proceed(r1)
    requires DispatchFrom(ctx, Plan(ctx.spec, r.x)[r.x.stageIndex], r1, 0) == w
    requires !StageComplete(Plan(ctx.spec, r.x)[r.x.stageIndex], w.x.candidates)
    requires w.x.stageIndex == r.x.stageIndex
    ensures Round(ctx, r) == Proceed(w)
  {
    assert Plan(ctx.spec, r.(progress := false).x) == Plan(ctx.spec, r.x);
  }

  const WRITER_SLOT: Candidate := NewCandidate(1, WRITER, FIRST_STAGE, 1)

  const WRITING: Candidate := DispatchedCandidate(WRITER_SLOT, Joined(WRITER), 1, 1)

  function Ctx(fp: nat, kernel: Kernel): Context {
    Context(LIMITS, SpecOf(fp), 1, kernel)
  }

  const IDS_OPEN: Ids := Ids(2, 1, 1, 1, 1)
  const IDS_WRITING: Ids := Ids(2, 2, 1, 1, 2)

  /** The execution while the writer writes. */
  function Writing(reports: ReportSet): Execution {
    FreshExecution(1, 1).(candidates := [WRITING], declaredCurrentStage := true, reports := reports)
  }

  lemma DeclaresWriter(fp: nat, kernel: Kernel)
    ensures var ctx, ps := Ctx(fp, kernel), Members(true, false, false);
            var r := Run(ps, FreshExecution(1, 1), IDS_OPEN, [], false);
            Declare(ctx, FIRST_STAGE, r)
            == Proceed(r.(x := r.x.(candidates := [WRITER_SLOT], declaredCurrentStage := true),
                          ids := IDS_OPEN.(candidate := 2), progress := true))
  {
    var ctx, ps := Ctx(fp, kernel), Members(true, false, false);
    var r := Run(ps, FreshExecution(1, 1), IDS_OPEN, [], false);
    PlanOf(fp);
    Find(true, false, false);
    assert GenerationOf(ps, 1) == 1;
    var r1 := r.(x := r.x.(candidates := [WRITER_SLOT]), ids := IDS_OPEN.(candidate := 2));
    assert [] + [WRITER_SLOT] == [WRITER_SLOT];
    assert DeclareOne(ctx, FIRST_STAGE, r, 1) == Proceed(r1);
    assert DeclareFrom(ctx, FIRST_STAGE, r1, 1) == Proceed(r1.(x := r1.x.(declaredCurrentStage := true), progress := true));
    assert DeclareFrom(ctx, FIRST_STAGE, r, 0) == DeclareFrom(ctx, FIRST_STAGE, r1, 1);
  }

  lemma DispatchesWriter(fp: nat, kernel: Kernel, r: Run)
    requires r.participants == Members(true, false, false) && r.ids == IDS_OPEN.(candidate := 2)
    requires r.x == FreshExecution(1, 1).(candidates := [WRITER_SLOT], declaredCurrentStage := true)
    ensures var w := DispatchFrom(Ctx(fp, kernel), FIRST_STAGE, r, 0);
            w == r.(x := Writing(NO_REPORTS), ids := IDS_WRITING, actions := w.actions, progress := true)
  {
    var ctx := Ctx(fp, kernel);
    Find(true, false, false);
    var p := Joined(WRITER);
    var r1 := Touched(r, 0, p);
    assert WRITER_SLOT.(participantGeneration := 1) == WRITER_SLOT;
    assert r.x.candidates[0 := WRITER_SLOT] == r.x.candidates;
    assert r1 == r;
    VisitForms(ctx, FIRST_STAGE, r, 0, 0);
    var w := DispatchAt(ctx, r, 0, p);
    assert [WRITER_SLOT][0 := WRITING] == [WRITING];
    assert w.x.candidates == [WRITING];
    assert DispatchFrom(ctx, FIRST_STAGE, w, 1) == w;
  }

  lemma WriterIsAwaited(fp: nat, kernel: Kernel, r: Run)
    requires r.x.candidates == [WRITING] && r.x.stageIndex == 0 && r.x.declaredCurrentStage && r.x.extraStages == []
    ensures Round(Ctx(fp, kernel), r) == Proceed(r.(progress := false))
  {
    var ctx, r0 := Ctx(fp, kernel), r.(progress := false);
    PlanOf(fp);
    assert Plan(ctx.spec, r.x) == [FIRST_STAGE];
    assert Visit(ctx, FIRST_STAGE, r0, 0) == (r0, true);
    assert DispatchFrom(ctx, FIRST_STAGE, r0, 1) == r0;
    Busy(FIRST_STAGE, r0.x.candidates, WRITING);
    WaitingRound(ctx, r, r0);
  }

  lemma FirstAdvance(fp: nat, kernel: Kernel)
    ensures var start := Run(Members(true, false, false), FreshExecution(1, 1), IDS_OPEN, [], false);
            var v := AdvanceOpen(Ctx(fp, kernel), start);
            && v.Proceed? && v.run.participants == start.participants && v.run.ids == IDS_WRITING
            && v.run.x == Writing(v.run.x.reports)
  {
    var ctx := Ctx(fp, kernel);
    var start := Run(Members(true, false, false), FreshExecution(1, 1), IDS_OPEN, [], true);
    PlanOf(fp);
    assert Plan(ctx.spec, start.x) == [FIRST_STAGE];
    DeclaresWriter(fp, kernel);
    var r1 := Declare(ctx, FIRST_STAGE, start.(progress := false)).run;
    DispatchesWriter(fp, kernel, r1);
    var w := DispatchFrom(ctx, FIRST_STAGE, r1, 0);
    Busy(FIRST_STAGE, w.x.candidates, WRITING);
    DeclaringRound(ctx, start, r1, w);
    WriterIsAwaited(fp, kernel, w);
    TwoRounds(ctx, start, w, w.(progress := false), GUARD);
    assert AdvanceOpen(ctx, start.(progress := false)) == Proceed(Recomputed(ctx, w.(progress := false)));
  }

  lemma StoredRun(s: State, fp: nat, ids: Ids, ps: seq<Participant>, x: Execution, r: Run, t: State)
    requires s.ensembles == map[1 := Ensemble(SpecOf(fp), ps, Some(x), false, [])]
    requires t == Store(s, 1, r).(counters := t.counters)
    ensures t.ensembles == map[1 := Ensemble(SpecOf(fp), r.participants, Some(r.x), false, [])]
    ensures t.ids == r.ids && t.epoch == s.epoch && t.config == s.config
  {
  }

  lemma StepIsAdvance(sys: System)
    ensures Step(sys, OpAdvance(1, 1)).fabric == Advance(sys.fabric, 1, 1).state
  {
  }

  lemma HeldContext(sys: System, fp: nat, ids: Ids, ps: seq<Participant>, x: Execution)
    requires Holds(sys, fp, ids, ps, Some(x)) && x.status == ExecOpen
    ensures var s := sys.fabric;
            && GenerationFault(s, 1, 1).None? && HasOpenExecution(s.ensembles[1]) && !s.ensembles[1].superseded
            && ContextOf(s, s.ensembles[1]) == Ctx(fp, s.config.kernel) && StartOf(s, s.ensembles[1]) == Run(ps, x, ids, [], false)
  {
  }

  /** What a successful advance of the ensemble leaves. */
  lemma AdvanceStep(sys: System, fp: nat, ids: Ids, ps: seq<Participant>, x: Execution, v: Phase)
    requires Holds(sys, fp, ids, ps, Some(x)) && x.status == ExecOpen
    requires v == AdvanceOpen(Ctx(fp, sys.fabric.config.kernel), Run(ps, x, ids, [], false)) && v.Proceed?
    ensures Holds(Step(sys, OpAdvance(1, 1)), fp, v.run.ids, v.run.participants, Some(v.run.x))
  {
    HeldContext(sys, fp, ids, ps, x);
    OpenAdvance(sys.fabric, 1, 1);
    StepIsAdvance(sys);
    StoredRun(sys.fabric, fp, ids, ps, x, v.run, Advance(sys.fabric, 1, 1).state);
  }

  lemma Dispatching(sys: System, fp: nat) returns (reports: ReportSet)
    requires Holds(sys, fp, IDS_OPEN, Members(true, false, false), Some(FreshExecution(1, 1)))
    ensures Holds(Step(sys, OpAdvance(1, 1)), fp, IDS_WRITING, Members(true, false, false), Some(Writing(reports)))
  {
    FirstAdvance(fp, sys.fabric.config.kernel);
    var v := AdvanceOpen(Ctx(fp, sys.fabric.config.kernel), Run(Members(true, false, false), FreshExecution(1, 1), IDS_OPEN, [], false));
    AdvanceStep(sys, fp, IDS_OPEN, Members(true, false, false), FreshExecution(1, 1), v);
    reports := v.run.x.reports;
  }

  // ---- The writer answers ------------------------------------------------------------------------------------------

  const ANSWER: seq<byte> := [7]

  function Token(participant: nat, candidate: nat): CandidateAuthority {
    CandidateAuthority(ParticipantAuthority(1, 1, participant, 1, participant, participant, 1), 1, 1, candidate, 1)
  }

  const WRITTEN: Candidate := Received(WRITING, ANSWER, 2, 0, 0)
  const IDS_WRITTEN: Ids := Ids(2, 2, 1, 1, 3)

  function Written(reports: ReportSet): Execution {
    Writing(reports).(candidates := [WRITTEN])
  }

  lemma WriterIsLocated(s: State, x: Execution, fp: nat)
    requires s.epoch == 1 && x.id == 1 && x.attemptGeneration == 1 && x.candidates == [WRITING]
    requires s.ensembles == map[1 := Ensemble(SpecOf(fp), Members(true, false, false), Some(x), false, [])]
    ensures FindCandidate(x.candidates, 1) == Some(0) && SubmissionFault(s, Token(1, 1)) == None
  {
    Find(true, false, false);
    assert FindCandidate([WRITING], 1) == Some(0);
    assert LocateFault(s, Token(1, 1)) == None;
  }

  /** Replacing the execution of the one ensemble. */
  lemma Replaced(s: State, fp: nat, ps: seq<Participant>, x: Execution, y: Execution)
    requires s.ensembles == map[1 := Ensemble(SpecOf(fp), ps, Some(x), false, [])]
    ensures WithExecution(s, 1, y).ensembles == map[1 := Ensemble(SpecOf(fp), ps, Some(y), false, [])]
  {
  }

  lemma Answering(sys: System, fp: nat, reports: ReportSet)
    requires Holds(sys, fp, IDS_WRITING, Members(true, false, false), Some(Writing(reports)))
    ensures Holds(Step(sys, OpSubmitCandidate(Token(1, 1), ANSWER)), fp, IDS_WRITTEN, Members(true, false, false), Some(Written(reports)))
  {
    var s := sys.fabric;
    WriterIsLocated(s, Writing(reports), fp);
    Find(true, false, false);
    assert [WRITING][0 := WRITTEN] == [WRITTEN];
    Replaced(s, fp, Members(true, false, false), Writing(reports), Written(reports));
    assert SubmitCandidate(s, Token(1, 1), ANSWER)
           == (WithExecution(s, 1, Written(reports)).(ids := AfterSequence(s.ids)), Ok(()));
  }

  // ---- The second advance calls on the reserve ------------------------------------------------------------------------

  /** Two members stand, nobody has voted: the quorum of this specification is reached. */
  lemma QuorumIsReached(fp: nat, reserve: bool, called: bool, x: Execution)
    requires x.evaluations == [] && x.epoch == 1
    ensures BareQuorum(SpecOf(fp), Members(true, reserve, called), x).state == Quorum.QuorumReached
  {
    var policy, ms := SpecOf(fp).quorum, Membership(Members(true, reserve, called), 1);
    assert Quorum.UniqueVotes([]) == [];
    assert Quorum.Contributors([]) == {} && Quorum.Abstainers([]) == {};
    var d := Quorum.Denominator(policy, ms, {}, {});
    assert Quorum.Counts(policy, ms[0], {}, {});
    assert ms[0] in d;
    assert |d| >= 1;
    assert Votes(x.evaluations) == [];
    assert Quorum.QuotasAchievable(ms, []) && Quorum.QuotasMet(d, []) == 0;
  }

  /** The reports of the written candidate disagree for want of votes. */
  lemma WrittenIsUndecided(fp: nat, x: Execution)
    requires x.candidates == [WRITTEN] && x.evaluations == [] && x.epoch == 1 && x.status == ExecOpen && x.fallbackDepth == 0
    ensures ReportsOf(SpecOf(fp), false, Members(true, true, false), x).consensus.state == Consensus.InsufficientEvidence
  {
    PlanOf(fp);
    QuorumIsReached(fp, true, false, x);
    assert WRITTEN in x.candidates;
    UnvotedIsInsufficient(SpecOf(fp), Members(true, true, false), x);
    RecomputedStates(SpecOf(fp), Members(true, true, false), x);
  }

  /** Behind the first stage, with the plan made (there is none to make). */
  function PastWriting(reports: ReportSet): Execution {
    Written(reports).(stageIndex := 1, declaredCurrentStage := false, planningComplete := true)
  }

  lemma WrittenStageEnds(fp: nat, kernel: Kernel, reports: ReportSet)
    ensures var r := Run(Members(true, true, false), Written(reports), IDS_WRITTEN, [], false);
            StageLoop(Ctx(fp, kernel), [FIRST_STAGE], r)
            == Proceed(r.(x := PastWriting(reports).(planningComplete := false), progress := true))
  {
    var ctx := Ctx(fp, kernel);
    var r := Run(Members(true, true, false), Written(reports), IDS_WRITTEN, [], false);
    assert Visit(ctx, FIRST_STAGE, r, 0) == (r, true);
    assert DispatchFrom(ctx, FIRST_STAGE, r, 1) == r;
    assert DispatchFrom(ctx, FIRST_STAGE, r, 0) == r;
    assert WRITTEN in r.x.candidates;
    assert StageComplete(FIRST_STAGE, r.x.candidates);
    assert StageLoop(ctx, [FIRST_STAGE], NextStage(r)) == Proceed(NextStage(r));
  }

  lemma NothingToPlan(fp: nat, kernel: Kernel, r: Run)
    requires !r.x.planningComplete && r.x.pending == []
    ensures PlanStep(Ctx(fp, kernel), r) == Proceed(r.(x := r.x.(planningComplete := true), progress := true))
    ensures var w := r.(x := r.x.(planningComplete := true), progress := true);
            EmitFrom(Ctx(fp, kernel), w, 0) == w
  {
    PlanOf(fp);
    BarrenPlansNothing(Ctx(fp, kernel), r.(x := r.x.(planningComplete := true), progress := true), r.x.candidates, 0);
  }

  /** The execution once the reserve has been called on. */
  function Called(reports: ReportSet): Execution {
    PastWriting(reports).(planningComplete := false, extraStages := [RESERVE_STAGE], fallbackActivated := true, fallbackDepth := 1)
  }

  lemma KernelAnswers(fp: nat, kernel: Kernel, ps: seq<Participant>, x: Execution)
    requires Faithful(kernel)
    ensures kernel(SpecOf(fp), false, ps, x) == ReportsOf(SpecOf(fp), false, ps, x)
  {
  }

  lemma JudgesActivate(fp: nat, kernel: Kernel, ps: seq<Participant>, y: Execution)
    requires Disagreeing(y.reports.consensus.state) && !y.fallbackActivated && y.fallbackDepth == 0 && !Outstanding(y)
    ensures ActivationTrigger(Ctx(fp, kernel), ps, y) == Some(TriggerJudgeDisagreement)
  {
    assert TriggerFires(TriggerJudgeDisagreement, SpecOf(fp), ps, y);
  }

  lemma WrittenIsUndecidedBy(fp: nat, kernel: Kernel, x: Execution)
    requires Faithful(kernel)
    requires x.candidates == [WRITTEN] && x.evaluations == [] && x.epoch == 1 && x.status == ExecOpen && x.fallbackDepth == 0
    ensures kernel(SpecOf(fp), false, Members(true, true, false), x).consensus.state == Consensus.InsufficientEvidence
  {
    WrittenIsUndecided(fp, x);
    KernelAnswers(fp, kernel, Members(true, true, false), x);
  }

  lemma UndecidedActivates(fp: nat, kernel: Kernel, r: Run, rs: ReportSet, y: Run)
    requires r.participants == Members(true, true, false) && r.x == PastWriting(r.x.reports)
    requires rs.consensus.state == Consensus.InsufficientEvidence && y == r.(x := WithReports(r.x, rs))
    ensures ActivationTrigger(Ctx(fp, kernel), y.participants, y.x) == Some(TriggerJudgeDisagreement)
    ensures y.x == PastWriting(y.x.reports)
  {
    assert !Outstanding(y.x);
    JudgesActivate(fp, kernel, y.participants, y.x);
  }

  lemma AnnouncesReserve(fp: nat, kernel: Kernel, z: Run)
    requires z.participants == Members(true, true, false) && z.ids == IDS_WRITTEN
    ensures var w := AnnounceFrom(Ctx(fp, kernel), z, TriggerJudgeDisagreement, 0);
            w == z.(participants := Members(true, true, true), ids := IDS_WRITTEN.(sequence := 4), actions := w.actions)
  {
    var ctx := Ctx(fp, kernel);
    Find(true, true, false);
    var ps := z.participants[2 := z.participants[2].(fallbackActivated := true)];
    assert ps == Members(true, true, true);
    var a := FallbackAction(KeyOf(ctx, z.x), 3, GenerationOf(z.participants, 3), TriggerJudgeDisagreement, z.x.fallbackDepth, SequenceValue(z.ids));
    var w := z.(participants := ps, ids := AfterSequence(z.ids), actions := z.actions + [a]);
    assert AnnounceFrom(ctx, w, TriggerJudgeDisagreement, 1) == w;
    assert AnnounceFrom(ctx, z, TriggerJudgeDisagreement, 0) == AnnounceFrom(ctx, w, TriggerJudgeDisagreement, 1);
  }

  lemma ActivatesReserve(fp: nat, kernel: Kernel, y: Run)
    requires y.participants == Members(true, true, false) && y.x == PastWriting(y.x.reports) && y.ids == IDS_WRITTEN
    ensures var w := Activate(Ctx(fp, kernel), y, TriggerJudgeDisagreement);
            && w.participants == Members(true, true, true) && w.x == Called(w.x.reports)
            && w.ids == IDS_WRITTEN.(sequence := 4) && w.progress
  {
    var ctx := Ctx(fp, kernel);
    PlanOf(fp);
    var z := Extended(ctx, y);
    assert [] + [RESERVE_STAGE] == [RESERVE_STAGE];
    assert z.x == Called(y.x.reports);
    AnnouncesReserve(fp, kernel, z);
    assert Activate(ctx, y, TriggerJudgeDisagreement) == AnnounceFrom(ctx, z, TriggerJudgeDisagreement, 0);
  }

  lemma CallsReserve(fp: nat, kernel: Kernel, r: Run)
    requires Faithful(kernel) && r.participants == Members(true, true, false) && r.x == PastWriting(r.x.reports)
    requires r.ids == IDS_WRITTEN
    ensures var w := FallbackStep(Ctx(fp, kernel), r);
            && w.participants == Members(true, true, true) && w.x == Called(w.x.reports)
            && w.ids == IDS_WRITTEN.(sequence := 4) && w.progress
  {
    var y := Recomputed(Ctx(fp, kernel), r);
    var rs := kernel(SpecOf(fp), false, r.participants, r.x);
    WrittenIsUndecidedBy(fp, kernel, r.x);
    UndecidedActivates(fp, kernel, r, rs, y);
    ActivatesReserve(fp, kernel, y);
    assert FallbackStep(Ctx(fp, kernel), r) == Activate(Ctx(fp, kernel), y, TriggerJudgeDisagreement);
  }

  lemma CallingRound(fp: nat, kernel: Kernel, reports: ReportSet)
    requires Faithful(kernel)
    ensures var v := Round(Ctx(fp, kernel), Run(Members(true, true, false), Written(reports), IDS_WRITTEN, [], true));
            && v.Proceed? && v.run.participants == Members(true, true, true) && v.run.x == Called(v.run.x.reports)
            && v.run.ids == IDS_WRITTEN.(sequence := 4) && v.run.progress
  {
    var ctx := Ctx(fp, kernel);
    var r := Run(Members(true, true, false), Written(reports), IDS_WRITTEN, [], true);
    PlanOf(fp);
    assert Plan(ctx.spec, r.x) == [FIRST_STAGE];
    WrittenStageEnds(fp, kernel, reports);
    var r1 := StageLoop(ctx, [FIRST_STAGE], r.(progress := false)).run;
    NothingToPlan(fp, kernel, r1);
    var r2 := r1.(x := PastWriting(reports), progress := true);
    CallsReserve(fp, kernel, r2);
    assert EvaluationPhase(ctx, r1) == Proceed(FallbackStep(ctx, r2));
    assert Round(ctx, r) == EvaluationPhase(ctx, r1);
  }

  const RESERVE_SLOT: Candidate := NewCandidate(2, RESERVE, RESERVE_STAGE, 1)

  const RESERVING: Candidate := DispatchedCandidate(RESERVE_SLOT, Joined(RESERVE), 1, 4)

  const IDS_RESERVING: Ids := Ids(2, 3, 1, 1, 5)

  /** The execution while the reserve works. */
  function Reserving(reports: ReportSet): Execution {
    Called(reports).(candidates := [WRITTEN, RESERVING], declaredCurrentStage := true)
  }

  lemma DeclaresReserve(fp: nat, kernel: Kernel, r: Run)
    requires r.participants == Members(true, true, true) && r.x == Called(r.x.reports) && r.ids == IDS_WRITTEN.(sequence := 4)
    ensures Declare(Ctx(fp, kernel), RESERVE_STAGE, r)
            == Proceed(r.(x := r.x.(candidates := [WRITTEN, RESERVE_SLOT], declaredCurrentStage := true),
                          ids := r.ids.(candidate := 3), progress := true))
  {
    var ctx := Ctx(fp, kernel);
    PlanOf(fp);
    Find(true, true, true);
    var r1 := r.(x := r.x.(candidates := [WRITTEN, RESERVE_SLOT]), ids := r.ids.(candidate := 3));
    assert !HasSlot(r.x.candidates, 3, 1001);
    assert [WRITTEN] + [RESERVE_SLOT] == [WRITTEN, RESERVE_SLOT];
    assert DeclareOne(ctx, RESERVE_STAGE, r, 3) == Proceed(r1);
    assert DeclareFrom(ctx, RESERVE_STAGE, r1, 1) == Proceed(r1.(x := r1.x.(declaredCurrentStage := true), progress := true));
    assert DeclareFrom(ctx, RESERVE_STAGE, r, 0) == DeclareFrom(ctx, RESERVE_STAGE, r1, 1);
  }

  lemma DispatchesReserve(fp: nat, kernel: Kernel, r: Run)
    requires r.participants == Members(true, true, true) && r.ids == Ids(2, 3, 1, 1, 4)
    requires r.x == Called(r.x.reports).(candidates := [WRITTEN, RESERVE_SLOT], declaredCurrentStage := true)
    ensures var w := DispatchFrom(Ctx(fp, kernel), RESERVE_STAGE, r, 0);
            w == r.(x := Reserving(r.x.reports), ids := IDS_RESERVING, actions := w.actions, progress := true)
  {
    var ctx := Ctx(fp, kernel);
    Find(true, true, true);
    var p := r.participants[2];
    assert Visit(ctx, RESERVE_STAGE, r, 0) == (r, true);
    assert RESERVE_SLOT.(participantGeneration := 1) == RESERVE_SLOT;
    assert r.x.candidates[1 := RESERVE_SLOT] == r.x.candidates;
    assert Touched(r, 1, p) == r;
    VisitForms(ctx, RESERVE_STAGE, r, 1, 2);
    var w := DispatchAt(ctx, r, 1, p);
    assert DispatchedCandidate(RESERVE_SLOT, p, 1, 4) == RESERVING;
    assert [WRITTEN, RESERVE_SLOT][1 := RESERVING] == [WRITTEN, RESERVING];
    assert w.x.candidates == [WRITTEN, RESERVING];
    assert DispatchFrom(ctx, RESERVE_STAGE, w, 2) == w;
    assert DispatchFrom(ctx, RESERVE_STAGE, r, 1) == w;
    assert DispatchFrom(ctx, RESERVE_STAGE, r, 0) == DispatchFrom(ctx, RESERVE_STAGE, r, 1);
  }

  lemma ReserveIsAwaited(fp: nat, kernel: Kernel, r: Run)
    requires r.x == Reserving(r.x.reports)
    ensures Round(Ctx(fp, kernel), r) == Proceed(r.(progress := false))
  {
    var ctx, r0 := Ctx(fp, kernel), r.(progress := false);
    PlanOf(fp);
    assert Plan(ctx.spec, r.x) == [FIRST_STAGE, RESERVE_STAGE];
    assert Visit(ctx, RESERVE_STAGE, r0, 0) == (r0, true);
    assert Visit(ctx, RESERVE_STAGE, r0, 1) == (r0, true);
    assert DispatchFrom(ctx, RESERVE_STAGE, r0, 2) == r0;
    assert DispatchFrom(ctx, RESERVE_STAGE, r0, 1) == r0;
    assert r0.x.candidates[1] in r0.x.candidates;
    Busy(RESERVE_STAGE, r0.x.candidates, RESERVING);
    WaitingRound(ctx, r, r0);
  }

  lemma ReserveRound(fp: nat, kernel: Kernel, r: Run)
    requires r.participants == Members(true, true, true) && r.x == Called(r.x.reports) && r.ids == IDS_WRITTEN.(sequence := 4)
    ensures var v := Round(Ctx(fp, kernel), r);
            && v.Proceed? && v.run.participants == r.participants && v.run.x == Reserving(v.run.x.reports)
            && v.run.ids == IDS_RESERVING && v.run.progress
  {
    var ctx := Ctx(fp, kernel);
    PlanOf(fp);
    assert Plan(ctx.spec, r.x) == [FIRST_STAGE, RESERVE_STAGE];
    var r0 := r.(progress := false);
    DeclaresReserve(fp, kernel, r0);
    var r1 := Declare(ctx, RESERVE_STAGE, r0).run;
    DispatchesReserve(fp, kernel, r1);
    var w := DispatchFrom(ctx, RESERVE_STAGE, r1, 0);
    assert w.x.candidates[1] in w.x.candidates;
    Busy(RESERVE_STAGE, w.x.candidates, RESERVING);
    DeclaringRound(ctx, r, r1, w);
  }

  lemma SecondAdvance(fp: nat, kernel: Kernel, reports: ReportSet)
    requires Faithful(kernel)
    ensures var v := AdvanceOpen(Ctx(fp, kernel), Run(Members(true, true, false), Written(reports), IDS_WRITTEN, [], false));
            && v.Proceed? && v.run.participants == Members(true, true, true) && v.run.ids == IDS_RESERVING
            && v.run.x == Reserving(v.run.x.reports)
  {
    var ctx := Ctx(fp, kernel);
    var r := Run(Members(true, true, false), Written(reports), IDS_WRITTEN, [], true);
    CallingRound(fp, kernel, reports);
    var r1 := Round(ctx, r).run;
    ReserveRound(fp, kernel, r1);
    var r2 := Round(ctx, r1).run;
    ReserveIsAwaited(fp, kernel, r2);
    LoopUnrolls(ctx, r, GUARD);
    TwoRounds(ctx, r1, r2, r2.(progress := false), GUARD - 1);
    assert AdvanceOpen(ctx, r.(progress := false)) == Proceed(Recomputed(ctx, r2.(progress := false)));
  }

  lemma CallingUp(sys: System, fp: nat, before: ReportSet, next: System) returns (reports: ReportSet)
    requires Holds(sys, fp, IDS_WRITTEN, Members(true, true, false), Some(Written(before))) && next == Step(sys, OpAdvance(1, 1))
    ensures Holds(next, fp, IDS_RESERVING, Members(true, true, true), Some(Reserving(reports)))
  {
    SecondAdvance(fp, sys.fabric.config.kernel, before);
    var v := AdvanceOpen(Ctx(fp, sys.fabric.config.kernel), Run(Members(true, true, false), Written(before), IDS_WRITTEN, [], false));
    AdvanceStep(sys, fp, IDS_WRITTEN, Members(true, true, false), Written(before), v);
    reports := v.run.x.reports;
  }

  // ---- The reserve abstains ------------------------------------------------------------------------------------------------

  const ABSTAINED: Candidate := AbstainedCandidate(RESERVING, 5)
  const IDS_SPENT: Ids := Ids(2, 3, 1, 1, 6)

  /** The fallback is used up: one candidate with content, one slot without, no vote and nobody to vote. */
  function Spent(reports: ReportSet): Execution {
    Reserving(reports).(candidates := [WRITTEN, ABSTAINED])
  }

  lemma ReserveIsLocated(s: State, x: Execution, fp: nat)
    requires s.epoch == 1 && x.id == 1 && x.attemptGeneration == 1 && x.candidates == [WRITTEN, RESERVING]
    requires s.ensembles == map[1 := Ensemble(SpecOf(fp), Members(true, true, true), Some(x), false, [])]
    ensures FindCandidate(x.candidates, 2) == Some(1) && SubmissionFault(s, Token(3, 2)) == None
  {
    Find(true, true, true);
    assert [WRITTEN, RESERVING][1..] == [RESERVING];
    assert FindCandidate([RESERVING], 2) == Some(0);
    assert LocateFault(s, Token(3, 2)) == None;
  }

  lemma Abstaining(sys: System, fp: nat, reports: ReportSet)
    requires Holds(sys, fp, IDS_RESERVING, Members(true, true, true), Some(Reserving(reports)))
    ensures Holds(Step(sys, OpSubmitAbstention(Token(3, 2))), fp, IDS_SPENT, Members(true, true, true), Some(Spent(reports)))
  {
    var s := sys.fabric;
    ReserveIsLocated(s, Reserving(reports), fp);
    assert [WRITTEN, RESERVING][1 := ABSTAINED] == [WRITTEN, ABSTAINED];
    Replaced(s, fp, Members(true, true, true), Reserving(reports), Spent(reports));
    assert SubmitAbstention(s, Token(3, 2)) == (WithExecution(s, 1, Spent(reports)).(ids := AfterSequence(s.ids)), Ok(()));
  }

  function Operations(digest: Digest): seq<Op> {
    [OpDefine(ASKED, digest), OpOpen(1, 1), Registering(1), OpAdvance(1, 1), OpSubmitCandidate(Token(1, 1), ANSWER),
     Registering(3), OpAdvance(1, 1), OpSubmitAbstention(Token(3, 2))]
  }

  function After(sys: System, ops: seq<Op>): System {
    if ops == [] then sys else Step(After(sys, ops[..|ops| - 1]), ops[|ops| - 1])
  }

  function TraceOf(sys: System, ops: seq<Op>): seq<System> {
    seq(|ops| + 1, i requires 0 <= i <= |ops| => After(sys, ops[..i]))
  }

  lemma TraceIsRun(sys: System, ops: seq<Op>)
    requires Initial(sys)
    ensures IsRun(TraceOf(sys, ops), ops)
    ensures TraceOf(sys, ops)[0] == sys
    ensures forall i :: 0 <= i < |ops| ==> TraceOf(sys, ops)[i + 1] == Step(TraceOf(sys, ops)[i], ops[i])
  {
    var trace := TraceOf(sys, ops);
    assert ops[..0] == [];
    forall i: nat | i < |ops| ensures trace[i + 1] == Step(trace[i], ops[i]) {
      assert ops[..i + 1][..i] == ops[..i];
    }
    forall i: nat ensures StepTo(trace, ops, i) {
    }
  }

  ghost predicate Starts(sys: System) {
    Initial(sys) && sys.fabric.config.limits == LIMITS && sys.fabric.epoch == 1 && sys.fabric.ids == FIRST_IDS
  }

  lemma OperationAt(digest: Digest, trace: seq<System>, i: nat, op: Op)
    requires IsRun(trace, Operations(digest)) && i < 8 && Operations(digest)[i] == op
    ensures |trace| == 9 && trace[i + 1] == Step(trace[i], op)
  {
    assert StepTo(trace, Operations(digest), i);
  }

  lemma DefinedAt(digest: Digest, trace: seq<System>)
    requires IsRun(trace, Operations(digest)) && Starts(trace[0])
    ensures |trace| == 9 && Holds(trace[1], digest(SpecOf(0)), IDS_OPEN, Members(false, false, false), None)
  {
    OperationAt(digest, trace, 0, OpDefine(ASKED, digest));
    Defining(trace[0], digest);
  }

  lemma OpenedAt(digest: Digest, trace: seq<System>, fp: nat)
    requires IsRun(trace, Operations(digest)) && |trace| == 9 && Holds(trace[1], fp, IDS_OPEN, Members(false, false, false), None)
    ensures Holds(trace[2], fp, IDS_OPEN, Members(false, false, false), Some(FreshExecution(1, 1)))
  {
    OperationAt(digest, trace, 1, OpOpen(1, 1));
    Opening(trace[1], fp, IDS_OPEN, Members(false, false, false));
  }

  lemma WriterJoinedAt(digest: Digest, trace: seq<System>, fp: nat)
    requires IsRun(trace, Operations(digest)) && |trace| == 9
    requires Holds(trace[2], fp, IDS_OPEN, Members(false, false, false), Some(FreshExecution(1, 1)))
    ensures Holds(trace[3], fp, IDS_OPEN, Members(true, false, false), Some(FreshExecution(1, 1)))
  {
    OperationAt(digest, trace, 2, Registering(1));
    Joining(trace[2], fp, IDS_OPEN, false, Some(FreshExecution(1, 1)));
  }

  lemma DispatchedAt(digest: Digest, trace: seq<System>, fp: nat) returns (reports: ReportSet)
    requires IsRun(trace, Operations(digest)) && |trace| == 9
    requires Holds(trace[3], fp, IDS_OPEN, Members(true, false, false), Some(FreshExecution(1, 1)))
    ensures Holds(trace[4], fp, IDS_WRITING, Members(true, false, false), Some(Writing(reports)))
  {
    OperationAt(digest, trace, 3, OpAdvance(1, 1));
    reports := Dispatching(trace[3], fp);
  }

  lemma AnsweredAt(digest: Digest, trace: seq<System>, fp: nat, reports: ReportSet)
    requires IsRun(trace, Operations(digest)) && |trace| == 9
    requires Holds(trace[4], fp, IDS_WRITING, Members(true, false, false), Some(Writing(reports)))
    ensures Holds(trace[5], fp, IDS_WRITTEN, Members(true, false, false), Some(Written(reports)))
  {
    OperationAt(digest, trace, 4, OpSubmitCandidate(Token(1, 1), ANSWER));
    Answering(trace[4], fp, reports);
  }

  lemma ReserveJoinedAt(digest: Digest, trace: seq<System>, fp: nat, reports: ReportSet)
    requires IsRun(trace, Operations(digest)) && |trace| == 9
    requires Holds(trace[5], fp, IDS_WRITTEN, Members(true, false, false), Some(Written(reports)))
    ensures Holds(trace[6], fp, IDS_WRITTEN, Members(true, true, false), Some(Written(reports)))
  {
    OperationAt(digest, trace, 5, Registering(3));
    Joining(trace[5], fp, IDS_WRITTEN, true, Some(Written(reports)));
  }

  lemma CalledAt(digest: Digest, trace: seq<System>, fp: nat, before: ReportSet) returns (reports: ReportSet)
    requires IsRun(trace, Operations(digest)) && |trace| == 9
    requires Holds(trace[6], fp, IDS_WRITTEN, Members(true, true, false), Some(Written(before)))
    ensures Holds(trace[7], fp, IDS_RESERVING, Members(true, true, true), Some(Reserving(reports)))
  {
    OperationAt(digest, trace, 6, OpAdvance(1, 1));
    reports := CallingUp(trace[6], fp, before, trace[7]);
  }

  lemma AbstainedAt(digest: Digest, trace: seq<System>, fp: nat, reports: ReportSet)
    requires IsRun(trace, Operations(digest)) && |trace| == 9
    requires Holds(trace[7], fp, IDS_RESERVING, Members(true, true, true), Some(Reserving(reports)))
    ensures Holds(trace[8], fp, IDS_SPENT, Members(true, true, true), Some(Spent(reports)))
  {
    OperationAt(digest, trace, 7, OpSubmitAbstention(Token(3, 2)));
    Abstaining(trace[7], fp, reports);
  }

  /** Where the operations lead, whatever process performs them. */
  lemma TheRun(digest: Digest, trace: seq<System>) returns (reports: ReportSet)
    requires IsRun(trace, Operations(digest)) && Starts(trace[0])
    ensures |trace| == 9
    ensures Holds(trace[2], digest(SpecOf(0)), IDS_OPEN, Members(false, false, false), Some(FreshExecution(1, 1)))
    ensures Holds(trace[8], digest(SpecOf(0)), IDS_SPENT, Members(true, true, true), Some(Spent(reports)))
  {
    var fp := digest(SpecOf(0));
    DefinedAt(digest, trace);
    OpenedAt(digest, trace, fp);
    WriterJoinedAt(digest, trace, fp);
    var first := DispatchedAt(digest, trace, fp);
    AnsweredAt(digest, trace, fp, first);
    ReserveJoinedAt(digest, trace, fp, first);
    reports := CalledAt(digest, trace, fp, first);
    AbstainedAt(digest, trace, fp, reports);
  }

  /** There is such a run, whatever the digests. */
  lemma SomeRun(digest: Digest, commitHash: CommitContent -> nat) returns (trace: seq<System>)
    ensures IsRun(trace, Operations(digest)) && Starts(trace[0])
  {
    var kernel := (spec: RuntimeSpec, superseded: bool, ps: seq<Participant>, x: Execution) => ReportsOf(spec, superseded, ps, x);
    var sys := System(Blank(Config(LIMITS, commitHash, kernel)), map[], map[]);
    trace := TraceOf(sys, Operations(digest));
    TraceIsRun(sys, Operations(digest));
  }

  // ---- What the run shows --------------------------------------------------------------------------------------------------

  /** Behind a used fallback the loop always ends, by the guard or not. */
  lemma EndlessLoopProceeds(ctx: Context, past: seq<Action>, acc: seq<Acceptance>, r: Run, rounds: nat)
    requires BarrenRun(ctx, past, acc, r) && r.x.fallbackActivated && StagesOver(ctx, r.participants, r.x) && Round(ctx, r).Proceed?
    requires rounds >= 1
    ensures Loop(RoundOf(ctx), r, rounds).Proceed?
  {
    UsedRoundRests(ctx, past, acc, r, Round(ctx, r).run);
    LoopUnrolls(ctx, r, rounds);
  }

  lemma SpentIsEndless(fp: nat, kernel: Kernel, reports: ReportSet)
    ensures Endless(Ctx(fp, kernel), Members(true, true, true), Spent(reports))
  {
    var ctx, ps, x := Ctx(fp, kernel), Members(true, true, true), Spent(reports);
    PlanOf(fp);
    assert Plan(ctx.spec, x) == [FIRST_STAGE, RESERVE_STAGE];
    assert WRITTEN in x.candidates && ABSTAINED in x.candidates;
    assert StageOver(ctx, ps, x.candidates, RESERVE_STAGE, DeclaredAt(x, 1));
  }

  lemma SpentRoundProceeds(fp: nat, kernel: Kernel, reports: ReportSet)
    ensures Round(Ctx(fp, kernel), Run(Members(true, true, true), Spent(reports), IDS_SPENT, [], true)).Proceed?
  {
    var ctx := Ctx(fp, kernel);
    var r := Run(Members(true, true, true), Spent(reports), IDS_SPENT, [], true);
    var r0 := r.(progress := false);
    PlanOf(fp);
    assert Plan(ctx.spec, r.x) == [FIRST_STAGE, RESERVE_STAGE];
    assert Visit(ctx, RESERVE_STAGE, r0, 0) == (r0, true);
    assert Visit(ctx, RESERVE_STAGE, r0, 1) == (r0, true);
    assert DispatchFrom(ctx, RESERVE_STAGE, r0, 2) == r0;
    assert DispatchFrom(ctx, RESERVE_STAGE, r0, 1) == r0;
    assert WRITTEN in r0.x.candidates && ABSTAINED in r0.x.candidates;
    assert StageComplete(RESERVE_STAGE, r0.x.candidates);
    var r1 := NextStage(r0);
    assert StageLoop(ctx, [FIRST_STAGE, RESERVE_STAGE], r1) == Proceed(r1);
    NothingToPlan(fp, kernel, r1);
    assert EvaluationPhase(ctx, r1).Proceed?;
    assert Round(ctx, r) == EvaluationPhase(ctx, r1);
  }

  lemma SpentRunIsBarren(trace: seq<System>, digest: Digest, reports: ReportSet)
    requires IsRun(trace, Operations(digest)) && |trace| == 9
    requires Holds(trace[8], digest(SpecOf(0)), IDS_SPENT, Members(true, true, true), Some(Spent(reports)))
    ensures 1 in trace[8].logs
    ensures BarrenRun(Ctx(digest(SpecOf(0)), trace[8].fabric.config.kernel), trace[8].logs[1].actions, trace[8].logs[1].accepted,
                      Run(Members(true, true, true), Spent(reports), IDS_SPENT, [], true))
  {
    var s, fp := trace[8].fabric, digest(SpecOf(0));
    ReachableIsGood(trace, Operations(digest), 8);
    At(trace[8], 1);
    assert RecordedAt(s, 1);
    PlanOf(fp);
    HeldContext(trace[8], fp, IDS_SPENT, Members(true, true, true), Spent(reports));
    StartHolds(s, trace[8].logs[1], 1, s.ensembles[1]);
    ProgressFlagKeeps(Ctx(fp, s.config.kernel), trace[8].logs[1].actions, trace[8].logs[1].accepted, StartOf(s, s.ensembles[1]), true);
  }

  /** The guard does end a loop: in the last state of the run, an advance goes through all 64 rounds. */
  lemma GuardIsReached(digest: Digest, trace: seq<System>)
    requires IsRun(trace, Operations(digest)) && Starts(trace[0])
    ensures |trace| == 9 && 1 in trace[8].fabric.ensembles && HasOpenExecution(trace[8].fabric.ensembles[1])
    ensures var s := trace[8].fabric;
            var w := Loop(RoundOf(ContextOf(s, s.ensembles[1])), StartOf(s, s.ensembles[1]).(progress := true), GUARD);
            w.Proceed? && w.run.progress
  {
    var fp := digest(SpecOf(0));
    var reports := TheRun(digest, trace);
    var s := trace[8].fabric;
    var r := Run(Members(true, true, true), Spent(reports), IDS_SPENT, [], true);
    HeldContext(trace[8], fp, IDS_SPENT, Members(true, true, true), Spent(reports));
    SpentIsEndless(fp, s.config.kernel, reports);
    SpentRoundProceeds(fp, s.config.kernel, reports);
    SpentRunIsBarren(trace, digest, reports);
    EndlessLoopProceeds(Ctx(fp, s.config.kernel), trace[8].logs[1].actions, trace[8].logs[1].accepted, r, GUARD);
    GuardEndsTheLoopExactlyWhen(trace, Operations(digest), 8, 1, Loop(RoundOf(Ctx(fp, s.config.kernel)), r, GUARD));
  }

  /** In the same state every recomputation of the reports undoes the last one. */
  lemma RecomputationAlternatesHere(digest: Digest, trace: seq<System>)
    requires IsRun(trace, Operations(digest)) && Starts(trace[0])
    ensures |trace| == 9 && 1 in trace[8].fabric.ensembles && HasOpenExecution(trace[8].fabric.ensembles[1])
    ensures var e := trace[8].fabric.ensembles[1];
            var x := e.execution.value;
            var a := ReportsOf(e.spec, e.superseded, e.participants, x);
            !SameReports(a, ReportsOf(e.spec, e.superseded, e.participants, WithReports(x, a)))
  {
    var fp := digest(SpecOf(0));
    var reports := TheRun(digest, trace);
    var x := Spent(reports);
    PlanOf(fp);
    QuorumIsReached(fp, true, true, x);
    assert WRITTEN in x.candidates;
    UnansweredJudgesAlternate(SpecOf(fp), Members(true, true, true), x);
  }

  lemma NobodyCounts(fp: nat)
    ensures Quorum.Denominator(SpecOf(fp).quorum, Membership(Members(false, false, false), 1), {}, {}) == []
  {
    var policy, ms := SpecOf(fp).quorum, Membership(Members(false, false, false), 1);
    var f := (m: Quorum.Member) => Quorum.Counts(policy, m, {}, {});
    Quorum.FilterCounts(ms, f);
    CountIfZero(ms, f);
  }

  lemma NobodyStands(fp: nat, x: Execution)
    requires x.evaluations == [] && x.epoch == 1
    ensures QuorumStep(SpecOf(fp), Members(false, false, false), x).state == Quorum.QuorumImpossible
  {
    NobodyCounts(fp);
    QuorumStepState(SpecOf(fp), Members(false, false, false), x);
    assert Quorum.UniqueVotes([]) == [] && Votes([]) == [];
    assert Quorum.Contributors([]) == {} && Quorum.Abstainers([]) == {};
  }

  /** A registration of the run turns an impossible quorum into a reached one. */
  lemma RegistrationRevives(digest: Digest, trace: seq<System>)
    requires IsRun(trace, Operations(digest)) && Starts(trace[0])
    ensures |trace| == 9 && trace[3] == Step(trace[2], Registering(1))
    ensures 1 in trace[2].fabric.ensembles && 1 in trace[3].fabric.ensembles && HasOpenExecution(trace[2].fabric.ensembles[1])
    ensures var e, f := trace[2].fabric.ensembles[1], trace[3].fabric.ensembles[1];
            && f.spec == e.spec && f.execution == e.execution
            && QuorumStep(e.spec, e.participants, e.execution.value).state == Quorum.QuorumImpossible
            && QuorumStep(f.spec, f.participants, f.execution.value).state == Quorum.QuorumReached
  {
    var fp := digest(SpecOf(0));
    var reports := TheRun(digest, trace);
    OperationAt(digest, trace, 2, Registering(1));
    var x := FreshExecution(1, 1);
    Joining(trace[2], fp, IDS_OPEN, false, Some(x));
    NobodyStands(fp, x);
    QuorumIsReached(fp, false, false, x);
    assert WithReports(x, NO_REPORTS) == x;
  }
}
