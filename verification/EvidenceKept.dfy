/** No operation but invalidation ever takes an accepted evaluation away. */
module EvidenceKept {
  import opened Base
  import opened Spec
  import opened Records
  import opened Lifecycle
  import opened Attempts
  import opened Participants
  import opened Definition
  import opened Ingest
  import opened Progress
  import opened Finalization
  import opened Monotone
  import opened Invariants
  import opened Advancing
  import opened Ledger
  import opened System
  import opened Runs
  import opened Safety
  import opened Snapshots
  import opened Restoration

  /** Within one execution, everything submitted stays, unchanged and current. */
  ghost predicate EvaluationsSurvive(e: Ensemble, f: Ensemble) {
    && e.spec.generation == f.spec.generation && e.execution.Some? && f.execution.Some?
    && e.execution.value.id == f.execution.value.id
    ==> e.execution.value.evaluations <= f.execution.value.evaluations
  }

  ghost predicate Survives(s: State, t: State) {
    forall k :: k in s.ensembles && k in t.ensembles ==> EvaluationsSurvive(s.ensembles[k], t.ensembles[k])
  }

  lemma PutSurvives(s: State, t: State, id: nat, e: Ensemble)
    requires t.ensembles == s.ensembles[id := e]
    requires id in s.ensembles ==> EvaluationsSurvive(s.ensembles[id], e)
    ensures Survives(s, t)
  {
  }

  lemma FailureReportSurvives(sys: System, a: ParticipantAuthority, kind: FailureKind)
    requires SysInv(sys)
    ensures Survives(sys.fabric, ReportFailure(sys.fabric, a, kind).0)
  {
    var s := sys.fabric;
    if ReportFault(s, a).None? {
      At(sys, a.ensemble);
      var e, log := s.ensembles[a.ensemble], sys.logs[a.ensemble];
      var j := FindParticipant(e.participants, a.participant).value;
      if HasOpenExecution(e) {
        ReleaseKeeps(e.spec, s.ids.candidate, log.actions, log.accepted, e.execution.value,
                     FailedParticipant(e.participants[j], kind), FailureOf(kind), 0);
      }
      PutSurvives(s, ReportFailure(s, a, kind).0, a.ensemble, AfterFailure(e, j, kind));
    }
  }

  lemma SubmittedFailureSurvives(sys: System, a: CandidateAuthority, rawKind: nat)
    requires SysInv(sys)
    ensures Survives(sys.fabric, SubmitFailure(sys.fabric, a, rawKind).0)
  {
    var s := sys.fabric;
    var v := SubmitFailure(s, a, rawKind);
    if v.1.Ok? {
      var id := a.participant.ensemble;
      At(sys, id);
      var x, k := SubmissionTarget(s, a);
      FailureReportIsUpdate(s.ensembles[id].spec, s.ids.candidate, sys.logs[id].actions, sys.logs[id].accepted, x, k,
                            FailureOf(KindOf(rawKind).value));
      PutSurvives(s, v.0, id, v.0.ensembles[id]);
    }
  }

  lemma AdvanceSurvives(sys: System, id: nat, generation: nat)
    requires SysInv(sys)
    ensures Survives(sys.fabric, Advance(sys.fabric, id, generation).state)
  {
    var s := sys.fabric;
    var v := Advance(s, id, generation);
    var kind := AdvanceCases(s, id, generation);
    match kind {
      case Nothing =>
      case Superseding => PutSurvives(s, v.state, id, v.state.ensembles[id]);
      case Running(r) =>
        At(sys, id);
        AdvanceRunKeeps(s, sys.logs[id], id, s.ensembles[id], r);
        PutSurvives(s, v.state, id, v.state.ensembles[id]);
    }
  }

  lemma SubmittedOutputSurvives(s: State, a: CandidateAuthority, payload: seq<byte>)
    ensures Survives(s, SubmitCandidate(s, a, payload).0)
    ensures Survives(s, SubmitAbstention(s, a).0)
  {
    if SubmissionFault(s, a).None? {
      var id := a.participant.ensemble;
      var x, k := SubmissionTarget(s, a);
      if SubmitCandidate(s, a, payload).1.Ok? {
        PutSurvives(s, SubmitCandidate(s, a, payload).0, id, SubmitCandidate(s, a, payload).0.ensembles[id]);
      }
      PutSurvives(s, SubmitAbstention(s, a).0, id, SubmitAbstention(s, a).0.ensembles[id]);
    }
  }

  lemma SubmittedEvaluationSurvives(s: State, sub: EvaluationSubmission)
    ensures Survives(s, SubmitEvaluation(s, sub).0)
  {
    if EvaluationFaultOf(s, sub).None? {
      var e, x, j, k, f := AcceptedAnswer(s, sub);
      var t := SubmitEvaluation(s, sub).0;
      PutSurvives(s, t, sub.authority.evaluator.ensemble, t.ensembles[sub.authority.evaluator.ensemble]);
    }
  }

  lemma DefinitionSurvives(s: State, asked: RuntimeSpec, digest: Digest)
    ensures Survives(s, Define(s, asked, digest).0)
  {
    var t := Define(s, asked, digest);
    if t.1.Ok? {
      var id, spec := DefinedSpec(s, asked, digest);
      PutSurvives(s, t.0, id, t.0.ensembles[id]);
    }
  }

  lemma ManagementSurvives(s: State, id: nat, generation: nat)
    ensures Survives(s, Supersede(s, id, generation).0)
    ensures Survives(s, Open(s, id, generation).0)
    ensures Survives(s, Cancel(s, id, generation).0)
  {
  }

  lemma RegistrationSurvives(s: State, r: Registration)
    ensures Survives(s, Register(s, r).0)
  {
  }

  lemma PreparationSurvives(s: State, id: nat, generation: nat)
    ensures Survives(s, Prepare(s, id, generation).0)
  {
    if GenerationFault(s, id, generation).None? && s.ensembles[id].execution.Some? {
      PrepareCases(s, id, generation);
    }
  }

  lemma CommitSurvives(s: State, r: Result)
    ensures Survives(s, Commit(s, r).state)
  {
    CommitCases(s, r);
  }

  lemma ManagingSurvives(sys: System, op: Op)
    requires SysInv(sys) && Managing(op) && !op.OpInvalidate?
    ensures Survives(sys.fabric, Step(sys, op).fabric)
  {
    var s := sys.fabric;
    if op.OpDefine? {
      DefinitionSurvives(s, op.asked, op.digest);
    } else if op.OpSupersede? || op.OpOpen? || op.OpCancel? {
      ManagementSurvives(s, op.ensemble, op.generation);
    } else if op.OpRegister? {
      RegistrationSurvives(s, op.registration);
    } else if op.OpReportFailure? {
      FailureReportSurvives(sys, op.authority, op.kind);
    }
  }

  lemma StepAdvanceSurvives(sys: System, id: nat, generation: nat)
    requires SysInv(sys)
    ensures Survives(sys.fabric, StepAdvance(sys, id, generation).fabric)
  {
    AdvanceSurvives(sys, id, generation);
  }

  lemma StepSubmitSurvives(sys: System, a: CandidateAuthority, v: (State, Outcome<()>), payload: Option<seq<byte>>)
    requires Survives(sys.fabric, v.0)
    ensures Survives(sys.fabric, StepSubmit(sys, a, v, payload).fabric)
  {
  }

  lemma WorkingSurvives(sys: System, op: Op, next: System)
    requires SysInv(sys) && Working(op) && next == Step(sys, op)
    ensures Survives(sys.fabric, next.fabric)
  {
    var s := sys.fabric;
    match op {
      case OpAdvance(id, generation) =>
        StepAdvanceSurvives(sys, id, generation);
        assert next == StepAdvance(sys, id, generation);
      case OpSubmitCandidate(a, payload) =>
        SubmittedOutputSurvives(s, a, payload);
        StepSubmitSurvives(sys, a, SubmitCandidate(s, a, payload), Some(payload));
        assert next == StepSubmit(sys, a, SubmitCandidate(s, a, payload), Some(payload));
      case OpSubmitFailure(a, rawKind) =>
        SubmittedFailureSurvives(sys, a, rawKind);
        StepSubmitSurvives(sys, a, SubmitFailure(s, a, rawKind), None);
        assert next == StepSubmit(sys, a, SubmitFailure(s, a, rawKind), None);
      case OpSubmitAbstention(a) =>
        SubmittedOutputSurvives(s, a, []);
        StepSubmitSurvives(sys, a, SubmitAbstention(s, a), None);
        assert next == StepSubmit(sys, a, SubmitAbstention(s, a), None);
      case OpSubmitEvaluation(sub) =>
        SubmittedEvaluationSurvives(s, sub);
        assert next.fabric == SubmitEvaluation(s, sub).0;
    }
  }

  lemma StepPrepareSurvives(sys: System, id: nat, generation: nat)
    ensures Survives(sys.fabric, StepPrepare(sys, id, generation).fabric)
  {
    PreparationSurvives(sys.fabric, id, generation);
  }

  lemma StepCommitSurvives(sys: System, r: Result)
    ensures Survives(sys.fabric, StepCommit(sys, r).fabric)
  {
    CommitSurvives(sys.fabric, r);
  }

  lemma FinalizingSurvives(sys: System, t: nat)
    ensures Survives(sys.fabric, StepFinalizePrepare(sys, t).fabric)
    ensures Survives(sys.fabric, StepFinalizeCommit(sys, t).fabric)
  {
    match FinalizerOf(sys, t) {
      case Checked(id, generation, execution) => StepPrepareSurvives(sys, id, generation);
      case Ready(r) => StepCommitSurvives(sys, r);
      case Idle =>
    }
  }

  lemma ConcludingSurvives(sys: System, op: Op, next: System)
    requires Concluding(op) && next == Step(sys, op)
    ensures Survives(sys.fabric, next.fabric)
  {
    match op {
      case OpPrepare(id, generation) =>
        StepPrepareSurvives(sys, id, generation);
        assert next == StepPrepare(sys, id, generation);
      case OpCommit(key, index) =>
        if index < |LogOf(sys, key).prepared| {
          StepCommitSurvives(sys, LogOf(sys, key).prepared[index]);
          assert next == StepCommit(sys, LogOf(sys, key).prepared[index]);
        } else {
          assert next == sys;
        }
      case OpFinalizeCheck(t, id, generation) =>
        assert next == StepFinalizeCheck(sys, t, id, generation);
        assert next.fabric == sys.fabric;
      case OpFinalizePrepare(t) =>
        FinalizingSurvives(sys, t);
        assert next == StepFinalizePrepare(sys, t);
      case OpFinalizeCommit(t) =>
        FinalizingSurvives(sys, t);
        assert next == StepFinalizeCommit(sys, t);
    }
  }

  lemma ReloadingSurvives(kernel: Kernel, e: Ensemble)
    ensures EvaluationsSurvive(e, Reloaded(kernel, e))
  {
  }

  lemma LoadSurvives(s: State, t: State)
    requires forall k :: k in s.ensembles && k in t.ensembles ==> t.ensembles[k] == Reloaded(s.config.kernel, s.ensembles[k])
    ensures Survives(s, t)
  {
    forall k | k in s.ensembles && k in t.ensembles ensures EvaluationsSurvive(s.ensembles[k], t.ensembles[k]) {
      ReloadingSurvives(s.config.kernel, s.ensembles[k]);
    }
  }

  lemma RestartingSurvives(sys: System, op: Op)
    requires SysInv(sys) && Restarting(op)
    ensures Survives(sys.fabric, Step(sys, op).fabric)
  {
    if op.OpLoad? && WrittenBy(sys.fabric, op.saved) && op.saved.epoch != U64_MAX {
      LoadedEnsembles(sys, op.saved);
      var t := Load(Blank(sys.fabric.config), op.saved);
      LoadSurvives(sys.fabric, t);
      assert Step(sys, op).fabric == t;
    } else {
      assert Step(sys, op).fabric.ensembles == sys.fabric.ensembles;
    }
  }

  lemma StepSurvives(sys: System, op: Op)
    requires SysInv(sys) && !op.OpInvalidate?
    ensures Survives(sys.fabric, Step(sys, op).fabric)
  {
    if Managing(op) {
      ManagingSurvives(sys, op);
    } else if Working(op) {
      WorkingSurvives(sys, op, Step(sys, op));
    } else if Restarting(op) {
      RestartingSurvives(sys, op);
    } else {
      ConcludingSurvives(sys, op, Step(sys, op));
    }
  }

  /**
   A retry, a participant failure, a cancellation, loading a state file or any other step but an
   invalidation discards
   no accepted evaluation of the current execution: the stored list only grows.
   */
  lemma EvidenceIsNeverDiscarded(trace: seq<System>, ops: seq<Op>, n: nat, key: ExecutionKey, x: Execution, y: Execution)
    requires IsRun(trace, ops) && n < |ops| && !ops[n].OpInvalidate?
    requires IsCurrent(trace[n].fabric, key, x) && IsCurrent(trace[n + 1].fabric, key, y)
    ensures x.evaluations <= y.evaluations
  {
    ReachableIsGood(trace, ops, n);
    StepSurvives(trace[n], ops[n]);
    assert StepTo(trace, ops, n);
  }
}
