/**
 The runtime as a transition system.  Every public operation is one step; `finalize` is three,
 because it takes the lock three times and anything may happen in between; `restart` and
 `recover_state` are two each, an invalidation being one of them.
 */
module System {
  import opened Base
  import opened Spec
  import opened Lifecycle
  import opened Records
  import opened Attempts
  import opened Participants
  import opened Definition
  import opened Ingest
  import opened Progress
  import opened Finalization
  import opened Monotone
  import opened Invariants
  import opened Advancing
  import opened Ledger
  import opened Publishing
  import opened Snapshots
  import opened Restoration
  import Reports

  /** A thread inside `finalize`: before it, between check and preparation, or about to commit. */
  datatype Finalizer = Idle | Checked(ensemble: nat, generation: nat, execution: nat) | Ready(result: Result)

  datatype System = System(fabric: State, logs: map<nat, Log>, finalizers: map<nat, Finalizer>)

  datatype Op =
    | OpDefine(asked: RuntimeSpec, digest: Digest)
    | OpSupersede(ensemble: nat, generation: nat)
    | OpOpen(ensemble: nat, generation: nat)
    | OpCancel(ensemble: nat, generation: nat)
    | OpRegister(registration: Registration)
    | OpReportFailure(authority: ParticipantAuthority, kind: FailureKind)
    | OpInvalidate
    | OpNextEpoch
    | OpAdvance(ensemble: nat, generation: nat)
    | OpSubmitCandidate(candidate: CandidateAuthority, payload: seq<byte>)
    | OpSubmitFailure(candidate: CandidateAuthority, rawKind: nat)
    | OpSubmitAbstention(candidate: CandidateAuthority)
    | OpSubmitEvaluation(submission: EvaluationSubmission)
    | OpPrepare(ensemble: nat, generation: nat)
    | OpCommit(key: nat, index: nat)
    | OpFinalizeCheck(thread: nat, ensemble: nat, generation: nat)
    | OpFinalizePrepare(thread: nat)
    | OpFinalizeCommit(thread: nat)
    | OpLoad(saved: Saved)

  predicate Managing(op: Op) {
    op.OpDefine? || op.OpSupersede? || op.OpOpen? || op.OpCancel? || op.OpRegister? || op.OpReportFailure? || op.OpInvalidate?
  }

  predicate Restarting(op: Op) {
    op.OpNextEpoch? || op.OpLoad?
  }

  predicate Working(op: Op) {
    op.OpAdvance? || op.OpSubmitCandidate? || op.OpSubmitFailure? || op.OpSubmitAbstention? || op.OpSubmitEvaluation?
  }

  predicate Concluding(op: Op) {
    op.OpPrepare? || op.OpCommit? || op.OpFinalizeCheck? || op.OpFinalizePrepare? || op.OpFinalizeCommit?
  }

  function LogOf(sys: System, key: nat): Log {
    if key in sys.logs then sys.logs[key] else EMPTY_LOG
  }

  function WithLog(sys: System, key: nat, log: Log): System {
    sys.(logs := sys.logs[key := log])
  }

  // ---- Steps that write the log ---------------------------------------------------------------------

  function StepDefine(sys: System, asked: RuntimeSpec, digest: Digest): System {
    var v := Define(sys.fabric, asked, digest);
    var id := if DefinedIdentity(sys.fabric, asked).Some? then DefinedIdentity(sys.fabric, asked).value.0 else 0;
    if v.1.Ok? then WithLog(sys.(fabric := v.0), id, LogOf(sys, id)) else sys.(fabric := v.0)
  }

  function StepAdvance(sys: System, id: nat, generation: nat): System {
    var v := Advance(sys.fabric, id, generation);
    var log := LogOf(sys, id);
    if id in sys.logs then WithLog(sys.(fabric := v.state), id, log.(actions := log.actions + v.performed))
    else sys.(fabric := v.state)
  }

  function Accepting(sys: System, a: CandidateAuthority, payload: Option<seq<byte>>): System {
    var log := LogOf(sys, a.participant.ensemble);
    WithLog(sys, a.participant.ensemble,
            log.(accepted := log.accepted + [Acceptance(a.candidate, a.candidateGeneration, payload)]))
  }

  function StepSubmit(sys: System, a: CandidateAuthority, v: (State, Outcome<()>), payload: Option<seq<byte>>): System {
    if v.1.Ok? then Accepting(sys.(fabric := v.0), a, payload) else sys.(fabric := v.0)
  }

  function Preparing(sys: System, id: nat, r: Result): System {
    var log := LogOf(sys, id);
    WithLog(sys, id, log.(prepared := log.prepared + [r]))
  }

  function StepPrepare(sys: System, id: nat, generation: nat): System {
    var v := Prepare(sys.fabric, id, generation);
    if v.1.Ok? then Preparing(sys.(fabric := v.0), id, v.1.value) else sys.(fabric := v.0)
  }

  function StepCommit(sys: System, r: Result): System {
    var v := Commit(sys.fabric, r);
    if v.published && v.outcome.Ok? then
      var log := LogOf(sys, r.ensemble);
      WithLog(sys.(fabric := v.state), r.ensemble, log.(committed := log.committed + [v.outcome.value]))
    else sys.(fabric := v.state)
  }

  // ---- Finalizers -------------------------------------------------------------------------------------

  function FinalizerOf(sys: System, t: nat): Finalizer {
    if t in sys.finalizers then sys.finalizers[t] else Idle
  }

  function WithFinalizer(sys: System, t: nat, f: Finalizer): System {
    sys.(finalizers := sys.finalizers[t := f])
  }

  function StepFinalizeCheck(sys: System, t: nat, id: nat, generation: nat): System {
    if FinalizerOf(sys, t) != Idle then sys
    else
      match FinalizeCheck(sys.fabric, id, generation)
      case Err(_) => sys
      case Ok(execution) => WithFinalizer(sys, t, Checked(id, generation, execution))
  }

  /** The second section prepares; a result for another execution than the checked one is dropped. */
  function StepFinalizePrepare(sys: System, t: nat): System {
    match FinalizerOf(sys, t)
    case Checked(id, generation, execution) =>
      var next := StepPrepare(sys, id, generation);
      var v := Prepare(sys.fabric, id, generation).1;
      WithFinalizer(next, t, if v.Ok? && v.value.execution == execution then Ready(v.value) else Idle)
    case _ => sys
  }

  function StepFinalizeCommit(sys: System, t: nat): System {
    match FinalizerOf(sys, t)
    case Ready(r) => WithFinalizer(StepCommit(sys, r), t, Idle)
    case _ => sys
  }

  /**
   The process ends, with every thread in it, and a new one loads the state file it left.  Only
   the log of what was performed, accepted, prepared and published outlives the process as it is.
   */
  function StepLoad(sys: System, saved: Saved): System {
    if WrittenBy(sys.fabric, saved) && saved.epoch != U64_MAX
    then System(Load(Blank(sys.fabric.config), saved), sys.logs, map[])
    else sys
  }

  /** One step.  A commit outside `finalize` may present any result ever prepared, at any time. */
  function Step(sys: System, op: Op): System {
    match op
    case OpDefine(asked, digest) => StepDefine(sys, asked, digest)
    case OpSupersede(id, generation) => sys.(fabric := Supersede(sys.fabric, id, generation).0)
    case OpOpen(id, generation) => sys.(fabric := Open(sys.fabric, id, generation).0)
    case OpCancel(id, generation) => sys.(fabric := Cancel(sys.fabric, id, generation).0)
    case OpRegister(r) => sys.(fabric := Register(sys.fabric, r).0)
    case OpReportFailure(a, kind) => sys.(fabric := ReportFailure(sys.fabric, a, kind).0)
    case OpInvalidate => sys.(fabric := Invalidate(sys.fabric))
    case OpNextEpoch => sys.(fabric := NextEpoch(sys.fabric).0)
    case OpAdvance(id, generation) => StepAdvance(sys, id, generation)
    case OpSubmitCandidate(a, payload) => StepSubmit(sys, a, SubmitCandidate(sys.fabric, a, payload), Some(payload))
    case OpSubmitFailure(a, rawKind) => StepSubmit(sys, a, SubmitFailure(sys.fabric, a, rawKind), None)
    case OpSubmitAbstention(a) => StepSubmit(sys, a, SubmitAbstention(sys.fabric, a), None)
    case OpSubmitEvaluation(sub) => sys.(fabric := SubmitEvaluation(sys.fabric, sub).0)
    case OpPrepare(id, generation) => StepPrepare(sys, id, generation)
    case OpCommit(key, index) =>
      var log := LogOf(sys, key);
      if index < |log.prepared| then StepCommit(sys, log.prepared[index]) else sys
    case OpFinalizeCheck(t, id, generation) => StepFinalizeCheck(sys, t, id, generation)
    case OpFinalizePrepare(t) => StepFinalizePrepare(sys, t)
    case OpFinalizeCommit(t) => StepFinalizeCommit(sys, t)
    case OpLoad(saved) => StepLoad(sys, saved)
  }

  ghost predicate Initial(sys: System) {
    && Reports.Faithful(sys.fabric.config.kernel)
    && 1 <= sys.fabric.epoch <= U64_MAX && InRange(sys.fabric.ids) && sys.fabric.ensembles == map[] && sys.logs == map[] && sys.finalizers == map[]
  }

  ghost predicate StepTo(trace: seq<System>, ops: seq<Op>, i: nat) {
    i < |ops| && i + 1 < |trace| ==> trace[i + 1] == Step(trace[i], ops[i])
  }

  /** A run: the states passed through by performing `ops`, one after the other, from an initial state. */
  ghost predicate IsRun(trace: seq<System>, ops: seq<Op>) {
    && |trace| == |ops| + 1
    && Initial(trace[0])
    && (forall i: nat {:trigger StepTo(trace, ops, i)} :: StepTo(trace, ops, i))
  }

  // ---- The invariant ------------------------------------------------------------------------------------

  ghost predicate FinalizersInv(logs: map<nat, Log>, finalizers: map<nat, Finalizer>) {
    forall t :: t in finalizers && finalizers[t].Ready? ==>
      finalizers[t].result.ensemble in logs && finalizers[t].result in logs[finalizers[t].result.ensemble].prepared
  }

  /** The invariant of the ensemble at `key`, against its log. */
  ghost predicate Sound(s: State, logs: map<nat, Log>, key: nat) {
    key in s.ensembles ==> key in logs && EnsInv(s.epoch, s.ids, logs[key], key, s.ensembles[key])
  }

  ghost predicate SysInv(sys: System) {
    && sys.logs.Keys == sys.fabric.ensembles.Keys
    && (forall k {:trigger Sound(sys.fabric, sys.logs, k)} :: Sound(sys.fabric, sys.logs, k))
    && FinalizersInv(sys.logs, sys.finalizers)
  }

  lemma InitialHolds(sys: System)
    requires Initial(sys)
    ensures SysInv(sys)
  {
  }

  /** A step that changes neither ensembles nor logs. */
  lemma IdleStepKeeps(sys: System, s: State)
    requires SysInv(sys)
    requires s.ensembles == sys.fabric.ensembles && sys.fabric.epoch <= s.epoch && IdsAdvance(sys.fabric.ids, s.ids)
    ensures SysInv(sys.(fabric := s))
  {
    forall k ensures Sound(s, sys.logs, k) {
      assert Sound(sys.fabric, sys.logs, k);
      if k in s.ensembles {
        UntouchedKeeps(sys.fabric.epoch, s.epoch, sys.fabric.ids, s.ids, sys.logs[k], k, s.ensembles[k]);
      }
    }
  }

  /** A step that rewrites one ensemble and its log. */
  lemma LocalStepKeeps(sys: System, s: State, key: nat, e: Ensemble, log: Log)
    requires SysInv(sys)
    requires s.ensembles == sys.fabric.ensembles[key := e] && s.epoch == sys.fabric.epoch && IdsAdvance(sys.fabric.ids, s.ids)
    requires EnsInv(s.epoch, s.ids, log, key, e)
    requires LogOf(sys, key).prepared <= log.prepared
    ensures SysInv(sys.(fabric := s, logs := sys.logs[key := log]))
  {
    var logs := sys.logs[key := log];
    forall k ensures Sound(s, logs, k) {
      assert Sound(sys.fabric, sys.logs, k);
      if k != key && k in s.ensembles {
        UntouchedKeeps(sys.fabric.epoch, s.epoch, sys.fabric.ids, s.ids, sys.logs[k], k, s.ensembles[k]);
      }
    }
    assert FinalizersInv(logs, sys.finalizers);
  }

  /** The same, when the log does not change. */
  lemma QuietStepKeeps(sys: System, s: State, key: nat, e: Ensemble)
    requires SysInv(sys) && key in sys.fabric.ensembles && key in sys.logs
    requires s.ensembles == sys.fabric.ensembles[key := e] && s.epoch == sys.fabric.epoch && IdsAdvance(sys.fabric.ids, s.ids)
    requires EnsInv(sys.fabric.epoch, sys.fabric.ids, sys.logs[key], key, e)
    ensures SysInv(sys.(fabric := s))
  {
    UntouchedKeeps(sys.fabric.epoch, s.epoch, sys.fabric.ids, s.ids, sys.logs[key], key, e);
    LocalStepKeeps(sys, s, key, e, sys.logs[key]);
    assert sys.(fabric := s, logs := sys.logs[key := sys.logs[key]]) == sys.(fabric := s) by {
      assert sys.logs[key := sys.logs[key]] == sys.logs;
    }
  }

  lemma At(sys: System, key: nat)
    requires SysInv(sys) && key in sys.fabric.ensembles
    ensures key in sys.logs && LogOf(sys, key) == sys.logs[key]
    ensures EnsInv(sys.fabric.epoch, sys.fabric.ids, sys.logs[key], key, sys.fabric.ensembles[key])
  {
    assert Sound(sys.fabric, sys.logs, key);
  }

  // ---- Every step keeps it ---------------------------------------------------------------------------------

  lemma DefineKeeps(sys: System, asked: RuntimeSpec, digest: Digest)
    requires SysInv(sys)
    ensures SysInv(StepDefine(sys, asked, digest))
  {
    var s := sys.fabric;
    var v := Define(s, asked, digest);
    DefineAdvances(s, asked, digest);
    if v.1.Ok? {
      var id, spec := DefinedSpec(s, asked, digest);
      DefinedEnsembleHolds(sys, v.0, spec, LogOf(sys, id));
      LocalStepKeeps(sys, v.0, id, v.0.ensembles[id], LogOf(sys, id));
    } else {
      IdleStepKeeps(sys, v.0);
    }
  }

  /** The specification an accepted definition installs. */
  lemma DefinedSpec(s: State, asked: RuntimeSpec, digest: Digest) returns (id: nat, spec: RuntimeSpec)
    requires Define(s, asked, digest).1.Ok?
    ensures DefinedIdentity(s, asked).Some? && DefinedIdentity(s, asked).value.0 == id == spec.id
    ensures WellFormed(spec)
    ensures spec.id in s.ensembles ==> spec.generation > s.ensembles[spec.id].spec.generation
    ensures var t := Define(s, asked, digest).0;
            && t.epoch == s.epoch && id in t.ensembles && t.ensembles[id] == Redefine(s, spec).ensembles[id]
            && t.ensembles == s.ensembles[id := t.ensembles[id]]
  {
    id := DefinedIdentity(s, asked).value.0;
    var admitted := asked.(id := id, generation := Define(s, asked, digest).1.value);
    AdmittedIsWellFormed(admitted, s.config.limits);
    spec := admitted.(fingerprint := digest(admitted));
  }

  lemma DefinedEnsembleHolds(sys: System, t: State, spec: RuntimeSpec, log: Log)
    requires SysInv(sys) && WellFormed(spec) && log == LogOf(sys, spec.id)
    requires t.epoch == sys.fabric.epoch && IdsAdvance(sys.fabric.ids, t.ids)
    requires spec.id in t.ensembles && t.ensembles[spec.id] == Redefine(sys.fabric, spec).ensembles[spec.id]
    requires spec.id in sys.fabric.ensembles ==> spec.generation > sys.fabric.ensembles[spec.id].spec.generation
    ensures EnsInv(t.epoch, t.ids, log, spec.id, t.ensembles[spec.id])
  {
    var s := sys.fabric;
    if spec.id in s.ensembles {
      At(sys, spec.id);
      var e := s.ensembles[spec.id];
      UntouchedKeeps(s.epoch, t.epoch, s.ids, t.ids, log, spec.id, e);
      RedefinitionKeeps(t.epoch, t.ids, log, spec.id, e, spec, RedefinedHistory(e, s.config.limits.maxRetainedResults));
    } else {
      FirstDefinitionKeeps(t.epoch, t.ids, spec);
    }
  }

  lemma SupersedeKeeps(sys: System, id: nat, generation: nat)
    requires SysInv(sys)
    ensures SysInv(sys.(fabric := Supersede(sys.fabric, id, generation).0))
  {
    var s := sys.fabric;
    if GenerationFault(s, id, generation).None? {
      At(sys, id);
      SupersessionKeeps(s.epoch, s.ids, sys.logs[id], id, s.ensembles[id]);
      QuietStepKeeps(sys, Supersede(s, id, generation).0, id, SupersededEnsemble(s.ensembles[id]));
    }
  }

  lemma OpenKeeps(sys: System, id: nat, generation: nat)
    requires SysInv(sys)
    ensures SysInv(sys.(fabric := Open(sys.fabric, id, generation).0))
  {
    var s := sys.fabric;
    if OpenFault(s, id, generation).None? {
      At(sys, id);
      var e := s.ensembles[id];
      ExecutionReplaced(s.epoch, s.ids, sys.logs[id], id, e);
      QuietStepKeeps(sys, Open(s, id, generation).0, id, e.(execution := Some(NextExecution(e, s.epoch))));
    }
  }

  lemma CancelKeeps(sys: System, id: nat, generation: nat)
    requires SysInv(sys)
    ensures SysInv(sys.(fabric := Cancel(sys.fabric, id, generation).0))
  {
    var s := sys.fabric;
    if CancelFault(s, id, generation).None? && s.ensembles[id].execution.value.status != ExecCancelled {
      At(sys, id);
      var e := s.ensembles[id];
      CancellationKeeps(s.epoch, s.ids, sys.logs[id], id, e);
      QuietStepKeeps(sys, Cancel(s, id, generation).0, id,
                     e.(execution := Some(e.execution.value.(cancellationRequested := true, status := ExecCancelled))));
    }
  }

  lemma RegisterKeeps(sys: System, r: Registration)
    requires SysInv(sys)
    ensures SysInv(sys.(fabric := Register(sys.fabric, r).0))
  {
    var s := sys.fabric;
    if RegistrationFault(s, r).None? {
      At(sys, r.ensemble);
      var e := s.ensembles[r.ensemble];
      var j := FindParticipant(e.participants, r.participant).value;
      RegistrationKeeps(s.epoch, s.ids, sys.logs[r.ensemble], r.ensemble, e, j, r);
      QuietStepKeeps(sys, Register(s, r).0, r.ensemble, e.(participants := e.participants[j := Registered(e.participants[j], r)]));
    } else {
      IdleStepKeeps(sys, Register(s, r).0);
    }
  }

  lemma ReportFailureKeeps(sys: System, a: ParticipantAuthority, kind: FailureKind)
    requires SysInv(sys)
    ensures SysInv(sys.(fabric := ReportFailure(sys.fabric, a, kind).0))
  {
    var s := sys.fabric;
    if ReportFault(s, a).None? {
      At(sys, a.ensemble);
      var e := s.ensembles[a.ensemble];
      var j := FindParticipant(e.participants, a.participant).value;
      FailureKeeps(s.epoch, s.ids, sys.logs[a.ensemble], a.ensemble, e, j, kind);
      QuietStepKeeps(sys, ReportFailure(s, a, kind).0, a.ensemble, AfterFailure(e, j, kind));
    } else {
      IdleStepKeeps(sys, ReportFailure(s, a, kind).0);
    }
  }

  lemma InvalidateKeeps(sys: System)
    requires SysInv(sys)
    ensures SysInv(sys.(fabric := Invalidate(sys.fabric)))
  {
    var s, t := sys.fabric, Invalidate(sys.fabric);
    forall k ensures Sound(t, sys.logs, k) {
      if k in s.ensembles {
        At(sys, k);
        InvalidationKeeps(s.epoch, s.ids, sys.logs[k], k, s.ensembles[k]);
      }
    }
    assert t.ensembles.Keys == s.ensembles.Keys;
  }

  // ---- Submissions -------------------------------------------------------------------------------------------

  /** A completion that stays in its generation and spends no attempt. */
  ghost predicate PlainCompletion(c: Candidate, d: Candidate, a: Acceptance) {
    Completes(c, d, a) && d.generation == c.generation && d.attempt == c.attempt && d.attemptsUsed == c.attemptsUsed
  }

  lemma PlainCompletionKeeps(epoch: nat, ids: Ids, ids': Ids, log: Log, id: nat, e: Ensemble, k: nat, d: Candidate, a: Acceptance)
    requires EnsInv(epoch, ids, log, id, e) && e.execution.Some? && k < |e.execution.value.candidates|
    requires PlainCompletion(e.execution.value.candidates[k], d, a) && IdsAdvance(ids, ids')
    ensures EnsInv(epoch, ids', log.(accepted := log.accepted + [a]), id,
                   e.(execution := Some(e.execution.value.(candidates := e.execution.value.candidates[k := d]))))
  {
    var x := e.execution.value;
    assert BudgetInv(e.spec.retry.maxAttempts, log.actions, x.candidates[k]);
    CompletionKeeps(epoch, ids, log, id, e, k, d, a);
    UntouchedKeeps(epoch, epoch, ids, ids', log.(accepted := log.accepted + [a]), id,
                   e.(execution := Some(x.(candidates := x.candidates[k := d]))));
  }

  lemma AcceptedSubmissionKeeps(sys: System, a: CandidateAuthority, x: Execution, k: nat, d: Candidate, payload: Option<seq<byte>>)
    requires SysInv(sys) && a.participant.ensemble in sys.fabric.ensembles
    requires sys.fabric.ensembles[a.participant.ensemble].execution == Some(x) && k < |x.candidates|
    requires PlainCompletion(x.candidates[k], d, Acceptance(a.candidate, a.candidateGeneration, payload))
    ensures SysInv(Accepting(sys.(fabric := WithExecution(sys.fabric, a.participant.ensemble, x.(candidates := x.candidates[k := d]))
                                              .(ids := AfterSequence(sys.fabric.ids))), a, payload))
  {
    var s, id := sys.fabric, a.participant.ensemble;
    At(sys, id);
    var e, log := s.ensembles[id], sys.logs[id];
    var accepted := Acceptance(a.candidate, a.candidateGeneration, payload);
    var f := e.(execution := Some(x.(candidates := x.candidates[k := d])));
    var t := Put(s, id, f).(ids := AfterSequence(s.ids));
    PlainCompletionKeeps(s.epoch, s.ids, t.ids, log, id, e, k, d, accepted);
    LocalStepKeeps(sys, t, id, f, log.(accepted := log.accepted + [accepted]));
  }

  lemma ReceivedIsCompletion(c: Candidate, payload: seq<byte>, sequence: nat, budget: nat, minBytes: nat)
    requires c.state == Dispatched
    ensures PlainCompletion(c, Received(c, payload, sequence, budget, minBytes), Acceptance(c.id, c.generation, Some(payload)))
  {
  }

  lemma SubmitCandidateKeeps(sys: System, a: CandidateAuthority, payload: seq<byte>)
    requires SysInv(sys)
    ensures SysInv(StepSubmit(sys, a, SubmitCandidate(sys.fabric, a, payload), Some(payload)))
  {
    var s := sys.fabric;
    var v := SubmitCandidate(s, a, payload);
    if v.1.Ok? {
      var e := s.ensembles[a.participant.ensemble];
      var x, k := SubmissionTarget(s, a);
      var p := e.participants[FindParticipant(e.participants, a.participant.participant).value];
      var budget, minBytes := p.declaration.executionBudgetUnits, e.spec.evidence.minCandidatePayloadBytes;
      ReceivedIsCompletion(x.candidates[k], payload, SequenceValue(s.ids), budget, minBytes);
      AcceptedSubmissionKeeps(sys, a, x, k, Received(x.candidates[k], payload, SequenceValue(s.ids), budget, minBytes), Some(payload));
    } else {
      IdleStepKeeps(sys, v.0);
    }
  }

  lemma SubmitAbstentionKeeps(sys: System, a: CandidateAuthority)
    requires SysInv(sys)
    ensures SysInv(StepSubmit(sys, a, SubmitAbstention(sys.fabric, a), None))
  {
    var s := sys.fabric;
    var v := SubmitAbstention(s, a);
    if v.1.Ok? {
      var x, k := SubmissionTarget(s, a);
      AcceptedSubmissionKeeps(sys, a, x, k, AbstainedCandidate(x.candidates[k], SequenceValue(s.ids)), None);
    } else {
      IdleStepKeeps(sys, v.0);
    }
  }

  lemma SubmitFailureKeeps(sys: System, a: CandidateAuthority, rawKind: nat)
    requires SysInv(sys)
    ensures SysInv(StepSubmit(sys, a, SubmitFailure(sys.fabric, a, rawKind), None))
  {
    var s := sys.fabric;
    var v := SubmitFailure(s, a, rawKind);
    if v.1.Ok? {
      var id := a.participant.ensemble;
      At(sys, id);
      var x, k := SubmissionTarget(s, a);
      FailureCompletionKeeps(s.epoch, s.ids, sys.logs[id], id, s.ensembles[id], k, FailureOf(KindOf(rawKind).value));
      var log := sys.logs[id];
      LocalStepKeeps(sys, v.0, id, v.0.ensembles[id],
                     log.(accepted := log.accepted + [Acceptance(a.candidate, a.candidateGeneration, None)]));
    } else {
      IdleStepKeeps(sys, v.0);
    }
  }

  lemma AcceptedAnswer(s: State, sub: EvaluationSubmission) returns (e: Ensemble, x: Execution, j: nat, k: nat, f: Evaluation)
    requires EvaluationFaultOf(s, sub).None?
    ensures sub.authority.evaluator.ensemble in s.ensembles && e == s.ensembles[sub.authority.evaluator.ensemble]
    ensures e.execution == Some(x) && j < |x.pending| && f.criterion == x.pending[j].criterion && f.kind == x.pending[j].kind
    ensures k < |x.candidates| && x.candidates[k].id == f.candidate && x.candidates[k].generation == f.candidateGeneration
    ensures IsContent(x.candidates[k].state)
    ensures forall g :: g in x.evaluations ==> !SameEvidence(g, f)
    ensures SubmitEvaluation(s, sub).0 ==
              WithExecution(s, sub.authority.evaluator.ensemble,
                            x.(evaluations := x.evaluations + [f], pending := x.pending[j := x.pending[j].(answered := true)]))
                .(ids := AfterSequence(s.ids))
  {
    e := s.ensembles[sub.authority.evaluator.ensemble];
    x := e.execution.value;
    j := FindPending(x.pending, sub.authority.evaluation).value;
    k := FindCandidate(x.candidates, sub.authority.candidate).value;
    f := EvaluationOf(s, sub, x.pending[j], e.participants[FindParticipant(e.participants, sub.authority.evaluator.participant).value]);
    forall g | g in x.evaluations ensures !SameEvidence(g, f) {
      assert !SameQuestion(g, sub);
    }
  }

  lemma AcceptedAnswerKeeps(sys: System, id: nat, x: Execution, j: nat, k: nat, f: Evaluation)
    requires SysInv(sys) && id in sys.fabric.ensembles && sys.fabric.ensembles[id].execution == Some(x)
    requires j < |x.pending| && f.criterion == x.pending[j].criterion && f.kind == x.pending[j].kind
    requires k < |x.candidates| && x.candidates[k].id == f.candidate && x.candidates[k].generation == f.candidateGeneration
    requires IsContent(x.candidates[k].state)
    requires forall g :: g in x.evaluations ==> !SameEvidence(g, f)
    ensures SysInv(sys.(fabric := WithExecution(sys.fabric, id,
                          x.(evaluations := x.evaluations + [f], pending := x.pending[j := x.pending[j].(answered := true)]))
                            .(ids := AfterSequence(sys.fabric.ids))))
  {
    var s, e := sys.fabric, sys.fabric.ensembles[id];
    At(sys, id);
    assert ContentInv(sys.logs[id].accepted, x.candidates[k]);
    ContentIsSupported(sys.logs[id].accepted, x.candidates, k);
    AnswerKeeps(s.epoch, s.ids, sys.logs[id], id, e, j, f);
    var y := x.(evaluations := x.evaluations + [f], pending := x.pending[j := x.pending[j].(answered := true)]);
    QuietStepKeeps(sys, WithExecution(s, id, y).(ids := AfterSequence(s.ids)), id, e.(execution := Some(y)));
  }

  lemma SubmitEvaluationKeeps(sys: System, sub: EvaluationSubmission)
    requires SysInv(sys)
    ensures SysInv(sys.(fabric := SubmitEvaluation(sys.fabric, sub).0))
  {
    if EvaluationFaultOf(sys.fabric, sub).None? {
      var e, x, j, k, f := AcceptedAnswer(sys.fabric, sub);
      AcceptedAnswerKeeps(sys, sub.authority.evaluator.ensemble, x, j, k, f);
    } else {
      IdleStepKeeps(sys, SubmitEvaluation(sys.fabric, sub).0);
    }
  }

  // ---- Advance -------------------------------------------------------------------------------------------------

  lemma MarkedParticipantsInv(spec: RuntimeSpec, epoch: nat, ps: seq<Participant>, qs: seq<Participant>)
    requires ParticipantsInv(spec, epoch, ps) && OnlyMarked(ps, qs)
    ensures ParticipantsInv(spec, epoch, qs)
  {
    forall i | 0 <= i < |qs|
      ensures qs[i].declaration == spec.participants[i] && qs[i].id == spec.participants[i].id
      ensures qs[i].generation >= 1 && qs[i].epoch <= epoch && (qs[i].registered ==> qs[i].workerBoot != 0)
    {
      assert qs[i] == ps[i].(fallbackActivated := qs[i].fallbackActivated);
    }
  }

  lemma StartHolds(s: State, log: Log, id: nat, e: Ensemble)
    requires EnsInv(s.epoch, s.ids, log, id, e) && e.execution.Some?
    ensures RunInv(ContextOf(s, e), log.actions, log.accepted, StartOf(s, e))
  {
    assert log.actions + [] == log.actions;
  }

  /** A run that kept the invariant leaves a sound ensemble behind, error or not. */
  lemma RunLeavesSound(s: State, log: Log, id: nat, e: Ensemble, r: Run)
    requires EnsInv(s.epoch, s.ids, log, id, e) && e.execution.Some?
    requires RoundKeeps(ContextOf(s, e), log.actions, log.accepted, StartOf(s, e), r)
    ensures EnsInv(s.epoch, r.ids, log.(actions := log.actions + r.actions), id, e.(participants := r.participants, execution := Some(r.x)))
  {
    MarkedParticipantsInv(e.spec, s.epoch, e.participants, r.participants);
    ExecutionKept(s.epoch, s.ids, r.ids, log, log.(actions := log.actions + r.actions), id, e, r.participants, r.x);
  }

  lemma StoredRunKeeps(sys: System, id: nat, r: Run, t: State)
    requires SysInv(sys) && id in sys.fabric.ensembles && sys.fabric.ensembles[id].execution.Some?
    requires RoundKeeps(ContextOf(sys.fabric, sys.fabric.ensembles[id]), LogOf(sys, id).actions, LogOf(sys, id).accepted,
                        StartOf(sys.fabric, sys.fabric.ensembles[id]), r)
    requires t == Store(sys.fabric, id, r).(counters := t.counters)
    ensures id in sys.logs
    ensures SysInv(WithLog(sys.(fabric := t), id, LogOf(sys, id).(actions := LogOf(sys, id).actions + r.actions)))
  {
    At(sys, id);
    var e, log := sys.fabric.ensembles[id], sys.logs[id];
    RunLeavesSound(sys.fabric, log, id, e, r);
    LocalStepKeeps(sys, t, id, e.(participants := r.participants, execution := Some(r.x)), log.(actions := log.actions + r.actions));
  }

  /** What an advance amounts to: nothing, a supersession, or a run of its loops. */
  datatype AdvanceKind = Nothing | Superseding | Running(run: Run)

  lemma AdvanceCases(s: State, id: nat, generation: nat) returns (kind: AdvanceKind)
    ensures var v := Advance(s, id, generation);
            match kind
            case Nothing => v.state == s && v.performed == []
            case Superseding =>
              && id in s.ensembles && HasOpenExecution(s.ensembles[id]) && v.performed == []
              && v.state == Put(s, id, s.ensembles[id].(execution := Some(SupersedeOpen(s.ensembles[id].execution.value))))
            case Running(r) =>
              && id in s.ensembles && s.ensembles[id].execution.Some? && v.performed == r.actions
              && v.state == Store(s, id, r).(counters := v.state.counters)
              && var ctx, start := ContextOf(s, s.ensembles[id]), StartOf(s, s.ensembles[id]);
                 r == EmitCancellation(ctx, start) || r == AdvanceOpen(ctx, start).run
  {
    kind := Nothing;
    if GenerationFault(s, id, generation).None? && s.ensembles[id].execution.Some? {
      var e := s.ensembles[id];
      var x := e.execution.value;
      if x.status == ExecCancelled && !x.cancellationEmitted {
        kind := Running(EmitCancellation(ContextOf(s, e), StartOf(s, e)));
      } else if x.status == ExecOpen && e.superseded {
        kind := Superseding;
      } else if x.status == ExecOpen {
        kind := Running(AdvanceOpen(ContextOf(s, e), StartOf(s, e)).run);
      }
    }
  }

  lemma AdvanceRunKeeps(s: State, log: Log, id: nat, e: Ensemble, r: Run)
    requires EnsInv(s.epoch, s.ids, log, id, e) && e.execution.Some?
    requires r == EmitCancellation(ContextOf(s, e), StartOf(s, e)) || r == AdvanceOpen(ContextOf(s, e), StartOf(s, e)).run
    ensures RoundKeeps(ContextOf(s, e), log.actions, log.accepted, StartOf(s, e), r)
  {
    var ctx, start := ContextOf(s, e), StartOf(s, e);
    StartHolds(s, log, id, e);
    if r == EmitCancellation(ctx, start) {
      EmitCancellationKeeps(ctx, log.actions, log.accepted, start);
      RunAdvancesRound(start, r);
    } else {
      AdvanceOpenKeeps(ctx, log.actions, log.accepted, start);
    }
  }

  lemma AdvanceKeeps(sys: System, id: nat, generation: nat)
    requires SysInv(sys)
    ensures SysInv(StepAdvance(sys, id, generation))
  {
    var s := sys.fabric;
    var v := Advance(s, id, generation);
    var kind := AdvanceCases(s, id, generation);
    if id in s.ensembles {
      At(sys, id);
      var log := sys.logs[id];
      assert log.(actions := log.actions + []) == log && sys.logs[id := log] == sys.logs;
      match kind {
        case Nothing =>
          assert StepAdvance(sys, id, generation) == sys;
        case Superseding =>
          InterruptionKeeps(s.epoch, s.ids, log, id, s.ensembles[id], true);
          QuietStepKeeps(sys, v.state, id, v.state.ensembles[id]);
          assert StepAdvance(sys, id, generation) == sys.(fabric := v.state);
        case Running(r) =>
          AdvanceRunKeeps(s, log, id, s.ensembles[id], r);
          StoredRunKeeps(sys, id, r, v.state);
      }
    }
  }

  // ---- Prepare and commit ----------------------------------------------------------------------------------------

  ghost predicate Configured(sys: System) {
    Reports.Faithful(sys.fabric.config.kernel)
  }

  lemma PreparedAgain(s: State, log: Log, id: nat, e: Ensemble)
    requires EnsInv(s.epoch, s.ids, log, id, e) && e.execution.Some? && e.execution.value.result.Some?
    ensures EnsInv(s.epoch, s.ids, log.(prepared := log.prepared + [e.execution.value.result.value]), id, e)
    ensures e.execution.value.result.value.ensemble == id
  {
    var r := e.execution.value.result.value;
    var i :| 0 <= i < |log.committed| && log.committed[i] == r;
    assert WasPrepared(log.prepared, log.committed[i]);
    PreparedLogKeeps(s.epoch, s.ids, log, id, e, r);
  }

  lemma PreparedAnew(s: State, log: Log, id: nat, e: Ensemble, x: Execution, reports: ReportSet, r: Result)
    requires EnsInv(s.epoch, s.ids, log, id, e) && e.execution == Some(x)
    requires reports == Reports.ReportsOf(e.spec, e.superseded, e.participants, x)
    requires Conclusion(s.config, e.spec, Reports.WithReports(x, reports)) == Ok(r)
    ensures EnsInv(s.epoch, s.ids, log.(prepared := log.prepared + [r]), id, e.(execution := Some(Reports.WithReports(x, reports))))
    ensures r.ensemble == id
  {
    ConclusionIsSound(s.config, e.spec, e.superseded, e.participants, x, s.ids.candidate, log.actions, log.accepted);
    PreparationKeeps(s.epoch, s.ids, log, id, e, reports, r);
  }

  /** The three outcomes of a preparation on a current execution. */
  lemma PrepareCases(s: State, id: nat, generation: nat)
    requires GenerationFault(s, id, generation).None? && s.ensembles[id].execution.Some?
    ensures var v, e := Prepare(s, id, generation), s.ensembles[id];
            var x := e.execution.value;
            var reports := s.config.kernel(e.spec, e.superseded, e.participants, x);
            if x.result.Some? then v == (s, Ok(x.result.value))
            else v == (Put(s, id, e.(execution := Some(Reports.WithReports(x, reports)))),
                       Conclusion(s.config, e.spec, Reports.WithReports(x, reports)))
  {
  }

  lemma PrepareExecutionKeeps(sys: System, id: nat, e: Ensemble, x: Execution, reports: ReportSet, v: Outcome<Result>)
    requires SysInv(sys) && id in sys.fabric.ensembles && e == sys.fabric.ensembles[id] && e.execution == Some(x)
    requires reports == Reports.ReportsOf(e.spec, e.superseded, e.participants, x)
    requires v == Conclusion(sys.fabric.config, e.spec, Reports.WithReports(x, reports))
    ensures var t := Put(sys.fabric, id, e.(execution := Some(Reports.WithReports(x, reports))));
            && (v.Ok? ==> SysInv(Preparing(sys.(fabric := t), id, v.value)) && v.value.ensemble == id)
            && (v.Err? ==> SysInv(sys.(fabric := t)))
  {
    var s := sys.fabric;
    At(sys, id);
    var log := sys.logs[id];
    var f := e.(execution := Some(Reports.WithReports(x, reports)));
    if v.Ok? {
      PreparedAnew(s, log, id, e, x, reports, v.value);
      LocalStepKeeps(sys, Put(s, id, f), id, f, log.(prepared := log.prepared + [v.value]));
    } else {
      ReportsKeep(e.spec, s.ids.candidate, log.actions, log.accepted, x, reports);
      ExecutionMoves(s.epoch, s.ids, log, id, e, Reports.WithReports(x, reports));
      QuietStepKeeps(sys, Put(s, id, f), id, f);
    }
  }

  lemma KernelReports(sys: System, e: Ensemble, x: Execution)
    requires Configured(sys)
    ensures sys.fabric.config.kernel(e.spec, e.superseded, e.participants, x)
            == Reports.ReportsOf(e.spec, e.superseded, e.participants, x)
  {
  }

  /** What a preparation leaves behind. */
  lemma PrepareKeeps(sys: System, id: nat, generation: nat)
    requires SysInv(sys) && Configured(sys)
    ensures SysInv(StepPrepare(sys, id, generation))
    ensures var v := Prepare(sys.fabric, id, generation).1;
            v.Ok? ==> v.value.ensemble == id && id in StepPrepare(sys, id, generation).logs
                      && v.value in StepPrepare(sys, id, generation).logs[id].prepared
  {
    var s := sys.fabric;
    if GenerationFault(s, id, generation).None? && s.ensembles[id].execution.Some? {
      var e := s.ensembles[id];
      var x := e.execution.value;
      PrepareCases(s, id, generation);
      if x.result.Some? {
        At(sys, id);
        PreparedAgain(s, sys.logs[id], id, e);
        LocalStepKeeps(sys, s, id, e, sys.logs[id].(prepared := sys.logs[id].prepared + [x.result.value]));
      } else {
        var reports := s.config.kernel(e.spec, e.superseded, e.participants, x);
        KernelReports(sys, e, x);
        PrepareExecutionKeeps(sys, id, e, x, reports, Conclusion(s.config, e.spec, Reports.WithReports(x, reports)));
      }
    }
  }

  /** A commit either leaves the ensembles alone or publishes the presented result. */
  lemma CommitCases(s: State, r: Result)
    ensures var v := Commit(s, r);
            if v.published then
              && r.ensemble in s.ensembles && v.outcome.Ok?
              && var e := s.ensembles[r.ensemble];
                 && r.ensembleGeneration == e.spec.generation && r.epoch == s.epoch
                 && e.execution.Some? && e.execution.value.id == r.execution
                 && e.execution.value.result.None? && PublicationFault(e, e.execution.value).None?
                 && v.outcome.value == Stored(s.config, r, s.ids.result, SequenceValue(s.ids))
                 && v.state == Put(s, r.ensemble, e.(execution := Some(Published(e.execution.value, v.outcome.value))))
                                 .(ids := v.state.ids, counters := v.state.counters)
                 && IdsAdvance(s.ids, v.state.ids)
            else
              && v.state == s.(counters := v.state.counters)
              && (v.outcome.Ok? ==> r.ensemble in s.ensembles && s.ensembles[r.ensemble].execution.Some?
                                    && s.ensembles[r.ensemble].execution.value.result == Some(v.outcome.value))
  {
  }

  lemma CommitKeeps(sys: System, key: nat, k: nat)
    requires SysInv(sys) && k < |LogOf(sys, key).prepared|
    ensures SysInv(StepCommit(sys, LogOf(sys, key).prepared[k]))
  {
    var s, r := sys.fabric, LogOf(sys, key).prepared[k];
    var v := Commit(s, r);
    CommitCases(s, r);
    if v.published {
      PreparedForItsEnsemble(sys, key, k);
      At(sys, key);
      var e, log := s.ensembles[key], sys.logs[key];
      PublicationKeeps(s.config, s.epoch, s.ids, log, key, e, k, s.ids.result, SequenceValue(s.ids));
      var f := e.(execution := Some(Published(e.execution.value, v.outcome.value)));
      var log' := log.(committed := log.committed + [v.outcome.value]);
      UntouchedKeeps(s.epoch, s.epoch, s.ids, v.state.ids, log', key, f);
      LocalStepKeeps(sys, v.state, key, f, log');
    } else {
      IdleStepKeeps(sys, v.state);
    }
  }

  lemma PreparedForItsEnsemble(sys: System, key: nat, k: nat)
    requires SysInv(sys) && k < |LogOf(sys, key).prepared|
    ensures key in sys.fabric.ensembles && LogOf(sys, key).prepared[k].ensemble == key
  {
    assert key in sys.logs;
    At(sys, key);
    assert PreparedInv(sys.logs[key].accepted, sys.fabric.ensembles[key], sys.logs[key].prepared[k]);
  }

  // ---- Finalizers ------------------------------------------------------------------------------------------------

  lemma FinalizerKeeps(sys: System, t: nat, f: Finalizer)
    requires SysInv(sys)
    requires f.Ready? ==> f.result.ensemble in sys.logs && f.result in sys.logs[f.result.ensemble].prepared
    ensures SysInv(WithFinalizer(sys, t, f))
  {
  }

  lemma FinalizePrepareKeeps(sys: System, t: nat)
    requires SysInv(sys) && Configured(sys)
    ensures SysInv(StepFinalizePrepare(sys, t))
  {
    match FinalizerOf(sys, t) {
      case Checked(id, generation, execution) =>
        PrepareKeeps(sys, id, generation);
        var v := Prepare(sys.fabric, id, generation).1;
        FinalizerKeeps(StepPrepare(sys, id, generation), t,
                       if v.Ok? && v.value.execution == execution then Ready(v.value) else Idle);
      case _ =>
    }
  }

  lemma FinalizeCommitKeeps(sys: System, t: nat)
    requires SysInv(sys)
    ensures SysInv(StepFinalizeCommit(sys, t))
  {
    match FinalizerOf(sys, t) {
      case Ready(r) =>
        var log := sys.logs[r.ensemble];
        var k :| 0 <= k < |log.prepared| && log.prepared[k] == r;
        CommitKeeps(sys, r.ensemble, k);
        FinalizerKeeps(StepCommit(sys, r), t, Idle);
      case _ =>
    }
  }

  // ---- Every reachable state -----------------------------------------------------------------------------------------

  lemma ManagingKeeps(sys: System, op: Op)
    requires SysInv(sys) && Managing(op)
    ensures SysInv(Step(sys, op))
  {
    if op.OpDefine? {
      DefineKeeps(sys, op.asked, op.digest);
    } else if op.OpSupersede? {
      SupersedeKeeps(sys, op.ensemble, op.generation);
    } else if op.OpOpen? {
      OpenKeeps(sys, op.ensemble, op.generation);
    } else if op.OpCancel? {
      CancelKeeps(sys, op.ensemble, op.generation);
    } else if op.OpRegister? {
      RegisterKeeps(sys, op.registration);
    } else if op.OpReportFailure? {
      ReportFailureKeeps(sys, op.authority, op.kind);
    } else {
      InvalidateKeeps(sys);
    }
  }

  lemma LoadedEnsembles(sys: System, saved: Saved)
    requires SysInv(sys) && WrittenBy(sys.fabric, saved)
    ensures var s, t := sys.fabric, Load(Blank(sys.fabric.config), saved);
            && t.epoch == s.epoch + 1 && t.config == s.config && t.ids == RecoveredIds(FIRST_IDS, saved)
            && t.ensembles == map k | k in s.ensembles :: Reloaded(s.config.kernel, s.ensembles[k])
  {
    forall k | k in sys.fabric.ensembles ensures sys.fabric.ensembles[k].spec.id == k {
      At(sys, k);
    }
    WrittenIsLoaded(sys.fabric, saved);
  }

  lemma LoadedEnsembleHolds(sys: System, t: State, k: nat)
    requires SysInv(sys) && k in sys.fabric.ensembles && k in t.ensembles
    requires t.ensembles[k] == Reloaded(sys.fabric.config.kernel, sys.fabric.ensembles[k])
    requires sys.fabric.epoch <= t.epoch && IdsAdvance(sys.fabric.ids, t.ids)
    ensures Sound(t, sys.logs, k) && EnsembleAdvances(sys.fabric.ensembles[k], t.ensembles[k])
  {
    var s := sys.fabric;
    At(sys, k);
    ReloadingKeeps(s.epoch, s.ids, sys.logs[k], k, s.ensembles[k], s.config.kernel);
    UntouchedKeeps(s.epoch, t.epoch, s.ids, t.ids, sys.logs[k], k, t.ensembles[k]);
  }

  /** A new process whose ensembles are sound one by one is sound, and nobody is finalizing in it. */
  lemma NewProcessHolds(sys: System, t: State)
    requires SysInv(sys) && t.ensembles.Keys == sys.fabric.ensembles.Keys
    requires forall k {:trigger Sound(t, sys.logs, k)} :: k in t.ensembles ==> Sound(t, sys.logs, k)
    ensures SysInv(System(t, sys.logs, map[]))
  {
  }

  lemma LoadedStateHolds(sys: System, t: State)
    requires SysInv(sys) && t.config == sys.fabric.config && sys.fabric.epoch <= t.epoch && IdsAdvance(sys.fabric.ids, t.ids)
    requires t.ensembles.Keys == sys.fabric.ensembles.Keys
    requires forall k :: k in sys.fabric.ensembles ==> t.ensembles[k] == Reloaded(sys.fabric.config.kernel, sys.fabric.ensembles[k])
    ensures SysInv(System(t, sys.logs, map[])) && Advances(sys.fabric, t)
  {
    forall k | k in sys.fabric.ensembles
      ensures Sound(t, sys.logs, k) && EnsembleAdvances(sys.fabric.ensembles[k], t.ensembles[k])
    {
      LoadedEnsembleHolds(sys, t, k);
    }
    NewProcessHolds(sys, t);
  }

  /** Loading what the runtime wrote: the same ensembles against the same logs, one epoch later. */
  lemma LoadKeeps(sys: System, saved: Saved)
    requires SysInv(sys) && InRange(sys.fabric.ids) && WrittenBy(sys.fabric, saved)
    ensures var t := Load(Blank(sys.fabric.config), saved);
            SysInv(System(t, sys.logs, map[])) && Advances(sys.fabric, t)
  {
    LoadedEnsembles(sys, saved);
    LoadedIdsReach(sys.fabric, saved);
    LoadedStateHolds(sys, Load(Blank(sys.fabric.config), saved));
  }

  lemma NextEpochKeeps(sys: System)
    requires SysInv(sys)
    ensures SysInv(sys.(fabric := NextEpoch(sys.fabric).0)) && Advances(sys.fabric, NextEpoch(sys.fabric).0)
  {
    IdleStepKeeps(sys, NextEpoch(sys.fabric).0);
    forall k | k in sys.fabric.ensembles ensures EnsembleAdvances(sys.fabric.ensembles[k], sys.fabric.ensembles[k]) {
      EnsembleAdvancesReflexive(sys.fabric.ensembles[k]);
    }
  }

  lemma StepLoadKeeps(sys: System, saved: Saved)
    requires SysInv(sys) && InRange(sys.fabric.ids)
    ensures SysInv(StepLoad(sys, saved)) && Advances(sys.fabric, StepLoad(sys, saved).fabric)
  {
    if WrittenBy(sys.fabric, saved) && saved.epoch != U64_MAX {
      LoadKeeps(sys, saved);
      assert StepLoad(sys, saved) == System(Load(Blank(sys.fabric.config), saved), sys.logs, map[]);
    } else {
      AdvancesReflexive(sys.fabric);
      assert StepLoad(sys, saved) == sys;
    }
  }

  lemma RestartingKeeps(sys: System, op: Op)
    requires SysInv(sys) && InRange(sys.fabric.ids) && Restarting(op)
    ensures SysInv(Step(sys, op)) && Advances(sys.fabric, Step(sys, op).fabric)
  {
    if op.OpLoad? {
      StepLoadKeeps(sys, op.saved);
      assert Step(sys, op) == StepLoad(sys, op.saved);
    } else {
      NextEpochKeeps(sys);
      assert Step(sys, op) == sys.(fabric := NextEpoch(sys.fabric).0);
    }
  }

  lemma WorkingKeeps(sys: System, op: Op)
    requires SysInv(sys) && Working(op)
    ensures SysInv(Step(sys, op))
  {
    if op.OpAdvance? {
      AdvanceKeeps(sys, op.ensemble, op.generation);
    } else if op.OpSubmitCandidate? {
      SubmitCandidateKeeps(sys, op.candidate, op.payload);
    } else if op.OpSubmitFailure? {
      SubmitFailureKeeps(sys, op.candidate, op.rawKind);
    } else if op.OpSubmitAbstention? {
      SubmitAbstentionKeeps(sys, op.candidate);
    } else {
      SubmitEvaluationKeeps(sys, op.submission);
    }
  }

  lemma ConcludingKeeps(sys: System, op: Op)
    requires SysInv(sys) && Configured(sys) && Concluding(op)
    ensures SysInv(Step(sys, op))
  {
    if op.OpPrepare? {
      PrepareKeeps(sys, op.ensemble, op.generation);
    } else if op.OpCommit? {
      if op.index < |LogOf(sys, op.key).prepared| { CommitKeeps(sys, op.key, op.index); }
    } else if op.OpFinalizeCheck? {
      var checked := FinalizeCheck(sys.fabric, op.ensemble, op.generation);
      if checked.Ok? { FinalizerKeeps(sys, op.thread, Checked(op.ensemble, op.generation, checked.value)); }
    } else if op.OpFinalizePrepare? {
      FinalizePrepareKeeps(sys, op.thread);
    } else {
      FinalizeCommitKeeps(sys, op.thread);
    }
  }

  /** Every step of every operation keeps the invariant. */
  lemma StepKeeps(sys: System, op: Op)
    requires SysInv(sys) && Configured(sys) && InRange(sys.fabric.ids)
    ensures SysInv(Step(sys, op))
  {
    if Managing(op) {
      ManagingKeeps(sys, op);
    } else if Working(op) {
      WorkingKeeps(sys, op);
    } else if Restarting(op) {
      RestartingKeeps(sys, op);
    } else {
      ConcludingKeeps(sys, op);
    }
  }
}
