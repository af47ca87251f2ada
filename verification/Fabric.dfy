/** The runtime object: its public operations update the fields in place and refine the state machine. */
module Fabric {
  import opened Base
  import opened Spec
  import opened Records
  import opened Lifecycle
  import opened Attempts
  import opened Participants
  import opened Definition
  import opened Ingest
  import opened Reports
  import opened Progress
  import opened Finalization
  import opened Loops
  import opened Snapshots

  class EnsembleFabric {
    const config: Config
    var epoch: nat
    var ids: Ids
    var counters: Counters
    var ensembles: map<nat, Ensemble>

    /** The configured kernel is the one the methods below compute with. */
    ghost predicate Configured() {
      Faithful(config.kernel)
    }

    function View(): State
      reads this
    {
      State(config, epoch, ids, counters, ensembles)
    }

    constructor (config: Config, initialEpoch: nat)
      requires Faithful(config.kernel)
      ensures Configured()
      ensures View() == State(config, if initialEpoch != 0 then initialEpoch else 1, Ids(1, 1, 1, 1, 1), NO_COUNTERS, map[])
    {
      this.config := config;
      epoch := if initialEpoch != 0 then initialEpoch else 1;
      ids := Ids(1, 1, 1, 1, 1);
      counters := NO_COUNTERS;
      ensembles := map[];
    }

    method NextSequence() returns (sequence: nat)
      modifies this`ids
      ensures sequence == SequenceValue(old(ids)) && ids == AfterSequence(old(ids))
    {
      if ids.sequence == U64_MAX {
        sequence := 1;
      } else {
        sequence := ids.sequence;
        ids := ids.(sequence := ids.sequence + 1);
      }
    }

    method CountStaleSubmission()
      modifies this`counters
      ensures counters == old(counters).(staleSubmissionsRejected := old(counters).staleSubmissionsRejected + 1)
    {
      counters := counters.(staleSubmissionsRejected := counters.staleSubmissionsRejected + 1);
    }

    // ---- Definition -------------------------------------------------------------------------------------

    method DefineEnsemble(asked: RuntimeSpec, digest: Digest) returns (out: Outcome<nat>)
      modifies this
      ensures (View(), out) == Define(old(View()), asked, digest)
    {
      var id := asked.id;
      if id == 0 {
        if ids.ensemble >= U64_MAX {
          return Err(ResourceLimitExceeded);
        }
        id := ids.ensemble;
        ids := ids.(ensemble := ids.ensemble + 1);
      } else {
        ids := ids.(ensemble := Observe(ids.ensemble, id));
      }
      var next := NextGeneration(View(), id, asked.generation);
      if next.Err? {
        return next;
      }
      var spec := asked.(id := id, generation := next.value);
      var fault := SpecFault(spec, config.limits);
      if fault.Some? {
        return Err(fault.value);
      }
      spec := spec.(fingerprint := digest(spec));
      Install(spec);
      out := next;
    }

    method Install(spec: RuntimeSpec)
      modifies this
      ensures View() == Redefine(old(View()), spec)
    {
      var history := [];
      if spec.id in ensembles {
        var existing := ensembles[spec.id];
        if HasOpenExecution(existing) {
          counters := counters.(supersessions := counters.supersessions + 1);
        }
        history := existing.history;
        if existing.execution.Some? && existing.execution.value.result.Some? {
          history := history + [existing.execution.value.result.value];
          var retained := config.limits.maxRetainedResults;
          if |history| > retained {
            history := history[|history| - retained..];
          }
        }
      }
      var members := EnrollParticipants(spec.participants);
      ensembles := ensembles[spec.id := Ensemble(spec, members, None, false, history)];
    }

    method SupersedeEnsemble(id: nat, generation: nat) returns (out: Outcome<()>)
      modifies this
      ensures (View(), out) == Supersede(old(View()), id, generation)
    {
      if id !in ensembles {
        return Err(UnknownEnsemble);
      }
      var e := ensembles[id];
      if e.spec.generation != generation {
        return Err(StaleEnsembleGeneration);
      }
      e := e.(superseded := true);
      if HasOpenExecution(e) {
        var x := e.execution.value;
        var cs := InterruptCandidates(x.candidates, Superseded, false, None);
        e := e.(execution := Some(x.(status := ExecSuperseded, candidates := cs)));
      }
      ensembles := ensembles[id := e];
      counters := counters.(supersessions := counters.supersessions + 1);
      out := Ok(());
    }

    method OpenExecution(id: nat, generation: nat) returns (out: Outcome<nat>)
      modifies this
      ensures (View(), out) == Open(old(View()), id, generation)
    {
      if id !in ensembles {
        return Err(UnknownEnsemble);
      }
      var e := ensembles[id];
      if e.spec.generation != generation {
        return Err(StaleEnsembleGeneration);
      }
      if e.superseded {
        return Err(EnsembleSuperseded);
      }
      if HasOpenExecution(e) {
        return Err(InvalidStateTransition);
      }
      var inFlight := CountOpen(ensembles);
      if inFlight >= config.limits.maxInFlightExecutions {
        return Err(ResourceLimitExceeded);
      }
      if e.execution.Some? && e.execution.value.id == U64_MAX {
        return Err(ResourceLimitExceeded);
      }
      var x := FreshExecution(if e.execution.Some? then e.execution.value.id + 1 else 1, epoch);
      ensembles := ensembles[id := e.(execution := Some(x))];
      out := Ok(x.id);
    }

    method CancelEnsemble(id: nat, generation: nat) returns (out: Outcome<()>)
      modifies this
      ensures (View(), out) == Cancel(old(View()), id, generation)
    {
      if id !in ensembles {
        return Err(UnknownEnsemble);
      }
      var e := ensembles[id];
      if e.spec.generation != generation {
        return Err(StaleEnsembleGeneration);
      }
      if e.execution.None? {
        return Err(UnknownExecution);
      }
      var x := e.execution.value;
      if x.result.Some? {
        return Err(ResultAlreadyCommitted);
      }
      if x.status != ExecCancelled {
        var sequence := NextSequence();
        ensembles := ensembles[id := e.(execution := Some(x.(cancellationRequested := true, status := ExecCancelled)))];
      }
      out := Ok(());
    }

    // ---- Participants -------------------------------------------------------------------------------------

    method RegisterParticipant(r: Registration) returns (out: Outcome<nat>)
      modifies this
      ensures (View(), out) == Register(old(View()), r)
    {
      if !r.Complete() {
        return Err(InvalidIdentityCombination);
      }
      if r.epoch != epoch {
        CountStaleSubmission();
        return Err(StaleCoordinatorEpoch);
      }
      if r.ensemble !in ensembles {
        return Err(UnknownEnsemble);
      }
      var e := ensembles[r.ensemble];
      if e.spec.generation != r.ensembleGeneration {
        CountStaleSubmission();
        return Err(StaleEnsembleGeneration);
      }
      var j := FindParticipant(e.participants, r.participant);
      if j.None? {
        return Err(UnknownParticipant);
      }
      var p := e.participants[j.value];
      if p.registered && p.status == StatusCurrent {
        counters := counters.(duplicateSubmissionsSuppressed := counters.duplicateSubmissionsSuppressed + 1);
        return Err(ParticipantDuplicate);
      }
      if !p.declaration.roles.ContainsAll(r.claimedRoles) {
        return Err(ParticipantRoleMismatch);
      }
      if !Compatible(p.declaration.compatibility, r.profile) {
        return Err(ParticipantIncompatible);
      }
      if p.workerBoot != 0 {
        p := p.(generation := p.generation + 1, replacementCount := p.replacementCount + 1);
      }
      p := p.(worker := r.worker, workerBoot := r.workerBoot, epoch := r.epoch, profile := r.profile,
              status := StatusCurrent, registered := true);
      ensembles := ensembles[r.ensemble := e.(participants := e.participants[j.value := p])];
      out := Ok(p.generation);
    }

    method ReportParticipantFailure(a: ParticipantAuthority, kind: FailureKind) returns (out: Outcome<()>)
      modifies this
      ensures (View(), out) == ReportFailure(old(View()), a, kind)
    {
      if !a.Complete() {
        return Err(InvalidIdentityCombination);
      }
      if a.epoch != epoch {
        CountStaleSubmission();
        return Err(StaleCoordinatorEpoch);
      }
      if a.ensemble !in ensembles {
        return Err(UnknownEnsemble);
      }
      var e := ensembles[a.ensemble];
      if e.spec.generation != a.ensembleGeneration {
        CountStaleSubmission();
        return Err(StaleEnsembleGeneration);
      }
      var j := FindParticipant(e.participants, a.participant);
      if j.None? {
        return Err(UnknownParticipant);
      }
      var p := e.participants[j.value];
      if p.generation != a.participantGeneration || p.workerBoot != a.workerBoot || p.worker != a.worker {
        CountStaleSubmission();
        return Err(StaleWorkerBoot);
      }
      var cancelled := ApplyFailure(a.ensemble, e, j.value, kind);
      out := if cancelled then Err(RequiredParticipantFailed) else Ok(());
    }

    /** Marks the participant, releases its slots and, if the policy says so, fails the execution. */
    method ApplyFailure(id: nat, e: Ensemble, j: nat, kind: FailureKind) returns (cancelled: bool)
      requires j < |e.participants|
      modifies this
      ensures View() == Put(old(View()), id, AfterFailure(e, j, kind))
      ensures cancelled == (HasOpenExecution(e) && FailureCancels(e, e.participants[j]))
    {
      var p := e.participants[j];
      p := p.(status := if kind == KindUnavailable then StatusUnavailable else StatusFailed, registered := false);
      var f := e.(participants := e.participants[j := p]);
      cancelled := false;
      if HasOpenExecution(e) {
        var x := ReleaseCandidates(e.spec, p, FailureOf(kind), e.execution.value);
        if e.spec.cancellation.cancelOnRequiredFailure && p.declaration.required {
          x := x.(status := ExecFailed);
          cancelled := true;
        }
        f := f.(execution := Some(x));
      }
      ensembles := ensembles[id := f];
    }

    method InvalidateDynamicAuthority()
      modifies this
      ensures View() == Invalidate(old(View()))
    {
      var revalidated := CountOpen(ensembles);
      ensembles := InvalidateEach(ensembles);
      counters := counters.(revalidationsRequired := counters.revalidationsRequired + revalidated);
    }

    /** The second locked section of a restart. */
    method BeginNextEpoch() returns (out: Outcome<nat>)
      modifies this
      ensures (View(), out) == NextEpoch(old(View()))
    {
      if epoch == U64_MAX {
        return Err(ResourceLimitExceeded);
      }
      epoch := epoch + 1;
      out := Ok(epoch);
    }

    /** `restart` with nobody else at work: refused at the last epoch before anything is invalidated. */
    method RestartRuntime() returns (out: Outcome<nat>)
      modifies this
      ensures (View(), out) == Restart(old(View()))
    {
      if epoch == U64_MAX {
        return Err(ResourceLimitExceeded);
      }
      InvalidateDynamicAuthority();
      out := BeginNextEpoch();
    }

    /** Recovery from a decoded state file: load, observe every identity, recompute reports, then invalidate. */
    method RecoverState(saved: Saved) returns (out: Outcome<nat>)
      requires Configured()
      modifies this
      ensures (View(), out) == Recover(old(View()), saved)
    {
      if saved.epoch == U64_MAX {
        return Err(ResourceLimitExceeded);
      }
      LoadState(saved);
      InvalidateDynamicAuthority();
      out := Ok(saved.epoch + 1);
    }

    method LoadState(saved: Saved)
      requires Configured()
      modifies this
      ensures View() == Load(old(View()), saved)
    {
      var kept := Kept(saved.ensembles);
      counters := saved.counters;
      epoch := saved.epoch + 1;
      ids := ObserveIdentities(RaiseAll(ids, saved.watermarks), kept);
      ensembles := RefreshEach(Index(kept));
    }

    method RefreshEach(loaded: map<nat, Ensemble>) returns (after: map<nat, Ensemble>)
      requires Configured()
      ensures after == map k | k in loaded :: Refreshed(config.kernel, loaded[k])
    {
      after := map[];
      var todo := loaded.Keys;
      while todo != {}
        invariant todo <= loaded.Keys && after.Keys == loaded.Keys - todo
        invariant forall k :: k in after ==> after[k] == Refreshed(config.kernel, loaded[k])
      {
        var k :| k in todo;
        var f := RefreshOne(loaded[k]);
        after := after[k := f];
        todo := todo - {k};
      }
    }

    method RefreshOne(e: Ensemble) returns (f: Ensemble)
      requires Configured()
      ensures f == Refreshed(config.kernel, e)
    {
      f := e;
      if e.execution.Some? {
        var x := e.execution.value;
        var rs := Recompute(e.spec, e.superseded, e.participants, x);
        assert rs == config.kernel(e.spec, e.superseded, e.participants, x);
        f := e.(execution := Some(WithReports(x, rs)));
      }
    }

    // ---- Progress ---------------------------------------------------------------------------------------------

    method AdvanceEnsemble(id: nat, generation: nat) returns (out: Outcome<seq<Action>>, ghost performed: seq<Action>)
      requires Configured()
      modifies this
      ensures Advanced(View(), out, performed) == Advance(old(View()), id, generation)
    {
      if id !in ensembles {
        return Err(UnknownEnsemble), [];
      }
      var e := ensembles[id];
      if e.spec.generation != generation {
        return Err(StaleEnsembleGeneration), [];
      }
      if e.execution.None? {
        return Ok([]), [];
      }
      var x := e.execution.value;
      var ctx := ContextOf(View(), e);
      if x.status == ExecCancelled {
        if x.cancellationEmitted {
          return Ok([]), [];
        }
        var r := AnnounceCancellation(ctx, StartOf(View(), e));
        StoreRun(id, r);
        counters := counters.(cancellations := counters.cancellations + 1);
        return Ok(r.actions), r.actions;
      }
      if x.status != ExecOpen {
        return Ok([]), [];
      }
      if e.superseded {
        var cs := InterruptCandidates(x.candidates, Superseded, true, None);
        ensembles := ensembles[id := e.(execution := Some(x.(status := ExecSuperseded, candidates := cs)))];
        return Ok([]), [];
      }
      var v := AdvanceOpenExecution(id, e, x);
      performed := v.run.actions;
      out := if v.Halt? then Err(v.error) else Ok(v.run.actions);
    }

    method AdvanceOpenExecution(id: nat, e: Ensemble, x: Execution) returns (v: Phase)
      requires Configured() && id in ensembles && ensembles[id] == e && e.execution == Some(x)
      modifies this
      ensures v == AdvanceOpen(ContextOf(old(View()), e), StartOf(old(View()), e))
      ensures View() == CountActivation(Store(old(View()), id, v.run), x, v.run.x)
    {
      v := RunAdvance(ContextOf(View(), e), StartOf(View(), e));
      StoreRun(id, v.run);
      if v.run.x.fallbackDepth > x.fallbackDepth {
        counters := counters.(fallbackActivations := counters.fallbackActivations + v.run.x.fallbackDepth - x.fallbackDepth);
      }
    }

    method StoreRun(id: nat, r: Run)
      requires id in ensembles
      modifies this
      ensures View() == Store(old(View()), id, r)
    {
      ensembles := ensembles[id := ensembles[id].(participants := r.participants, execution := Some(r.x))];
      ids := r.ids;
    }

    // ---- Submissions -------------------------------------------------------------------------------------------

    method SubmitCandidateOutput(a: CandidateAuthority, payload: seq<byte>) returns (out: Outcome<()>)
      modifies this
      ensures (View(), out) == SubmitCandidate(old(View()), a, payload)
    {
      var fault := SubmissionFault(View(), a);
      if fault.Some? {
        RejectSubmission(a, fault.value);
        return Err(fault.value);
      }
      if |payload| > config.limits.maxCandidatePayloadBytes {
        return Err(ResourceLimitExceeded);
      }
      if |payload| > config.limits.maxFrameBytes {
        return Err(PayloadTooLarge);
      }
      var e := ensembles[a.participant.ensemble];
      var x := e.execution.value;
      var k := FindCandidate(x.candidates, a.candidate).value;
      var p := e.participants[FindParticipant(e.participants, a.participant.participant).value];
      var sequence := NextSequence();
      var c := x.candidates[k];
      c := c.(trace := c.trace.(receivedSequence := sequence, latency := LatencyOf(sequence, c.trace.dispatchSequence),
                                budgetUnitsUsed := p.declaration.executionBudgetUnits));
      if payload == [] || |payload| < e.spec.evidence.minCandidatePayloadBytes {
        c := c.(state := Invalid, failure := Some(MalformedCandidate), payload := []);
      } else {
        c := c.(state := Valid, failure := None, payload := payload);
      }
      ensembles := ensembles[a.participant.ensemble := e.(execution := Some(x.(candidates := x.candidates[k := c])))];
      out := Ok(());
    }

    method RejectSubmission(a: CandidateAuthority, error: Error)
      requires SubmissionFault(View(), a).Some?
      modifies this
      ensures View() == Rejecting(old(View()), a, error)
    {
      var located := LocateFault(View(), a);
      if located.Some? {
        if IsStale(located.value) {
          CountStaleSubmission();
        }
      } else {
        var x := ensembles[a.participant.ensemble].execution.value;
        var c := x.candidates[FindCandidate(x.candidates, a.candidate).value];
        if !InFlight(c.state) {
          counters := counters.(duplicateSubmissionsSuppressed := counters.duplicateSubmissionsSuppressed + 1);
        }
      }
    }

    method SubmitCandidateFailure(a: CandidateAuthority, rawKind: nat) returns (out: Outcome<()>)
      modifies this
      ensures (View(), out) == SubmitFailure(old(View()), a, rawKind)
    {
      var fault := SubmissionFault(View(), a);
      if fault.Some? {
        RejectSubmission(a, fault.value);
        return Err(fault.value);
      }
      var kind := KindOf(rawKind);
      if kind.None? {
        return Err(InvalidEnumValue);
      }
      var e := ensembles[a.participant.ensemble];
      var x := e.execution.value;
      var k := FindCandidate(x.candidates, a.candidate).value;
      var failure := FailureOf(kind.value);
      if RetryAuthorized(e.spec, x.candidates[k], failure) {
        x := RewindAt(x, k);
      } else {
        x := FailAt(x, k, failure);
      }
      ensembles := ensembles[a.participant.ensemble := e.(execution := Some(x))];
      out := Ok(());
    }

    method SubmitCandidateAbstention(a: CandidateAuthority) returns (out: Outcome<()>)
      modifies this
      ensures (View(), out) == SubmitAbstention(old(View()), a)
    {
      var fault := SubmissionFault(View(), a);
      if fault.Some? {
        RejectSubmission(a, fault.value);
        return Err(fault.value);
      }
      var e := ensembles[a.participant.ensemble];
      var x := e.execution.value;
      var k := FindCandidate(x.candidates, a.candidate).value;
      var sequence := NextSequence();
      var c := x.candidates[k];
      c := c.(state := Abstained, payload := [], trace := c.trace.(receivedSequence := sequence));
      ensembles := ensembles[a.participant.ensemble := e.(execution := Some(x.(candidates := x.candidates[k := c])))];
      out := Ok(());
    }

    /** Authority and target, then the plan, then the content, then earlier answers. */
    method CheckEvaluation(sub: EvaluationSubmission) returns (fault: Option<EvaluationFault>)
      ensures fault == EvaluationFaultOf(View(), sub)
    {
      var a := sub.authority;
      var target := TargetFault(View(), a);
      if target.Some? {
        return Some(Plain(target.value));
      }
      var e := ensembles[a.evaluator.ensemble];
      var x := e.execution.value;
      var p := e.participants[FindParticipant(e.participants, a.evaluator.participant).value];
      var plan := PlanFault(x, sub);
      if plan.Some? {
        return Some(if plan.value == DuplicateEvaluation then Repeated(plan.value) else Plain(plan.value));
      }
      var content := ContentFault(View(), e.spec, p, sub);
      if content.Some? {
        return Some(Plain(content.value));
      }
      var duplicate := FindDuplicate(x.evaluations, sub);
      if duplicate.Some? {
        return Some(Repeated(duplicate.value));
      }
      fault := None;
    }

    method SubmitCandidateEvaluation(sub: EvaluationSubmission) returns (out: Outcome<nat>)
      modifies this
      ensures (View(), out) == SubmitEvaluation(old(View()), sub)
    {
      var fault := CheckEvaluation(sub);
      if fault.Some? {
        match fault.value {
          case Plain(error) =>
            if IsStale(error) {
              CountStaleSubmission();
            }
          case Repeated(error) =>
            counters := counters.(duplicateVotesSuppressed := counters.duplicateVotesSuppressed + 1);
        }
        return Err(fault.value.error);
      }
      var a := sub.authority;
      var e := ensembles[a.evaluator.ensemble];
      var x := e.execution.value;
      var p := e.participants[FindParticipant(e.participants, a.evaluator.participant).value];
      var j := FindPending(x.pending, a.evaluation).value;
      var record := EvaluationOf(View(), sub, x.pending[j], p);
      var sequence := NextSequence();
      x := x.(evaluations := x.evaluations + [record], pending := x.pending[j := x.pending[j].(answered := true)]);
      ensembles := ensembles[a.evaluator.ensemble := e.(execution := Some(x))];
      out := Ok(a.evaluation);
    }

    // ---- Results ---------------------------------------------------------------------------------------------------

    method PrepareResult(id: nat, generation: nat) returns (out: Outcome<Result>)
      requires Configured()
      modifies this
      ensures (View(), out) == Prepare(old(View()), id, generation)
    {
      if id !in ensembles {
        return Err(UnknownEnsemble);
      }
      var e := ensembles[id];
      if e.spec.generation != generation {
        return Err(StaleEnsembleGeneration);
      }
      if e.execution.None? {
        return Err(UnknownExecution);
      }
      var x := e.execution.value;
      if x.result.Some? {
        return Ok(x.result.value);
      }
      var rs := Recompute(e.spec, e.superseded, e.participants, x);
      assert rs == config.kernel(e.spec, e.superseded, e.participants, x);
      x := WithReports(x, rs);
      ensembles := ensembles[id := e.(execution := Some(x))];
      out := Conclusion(config, e.spec, x);
    }

    method CommitResult(r: Result) returns (out: Outcome<Result>, ghost published: bool)
      modifies this
      ensures Commitment(View(), out, published) == Commit(old(View()), r)
    {
      published := false;
      if r.ensemble !in ensembles {
        return Err(UnknownEnsemble), false;
      }
      var e := ensembles[r.ensemble];
      var fault := ValidateResult(r, e.spec, epoch);
      if fault.Some? {
        if fault.value == StaleEnsembleGeneration || fault.value == StaleCoordinatorEpoch {
          counters := counters.(commitsRejectedStale := counters.commitsRejectedStale + 1);
        }
        return Err(fault.value), false;
      }
      if e.execution.None? || e.execution.value.id != r.execution {
        return Err(StaleExecutionGeneration), false;
      }
      var x := e.execution.value;
      if x.result.Some? {
        if x.result.value.fingerprint == r.fingerprint {
          return Ok(x.result.value), false;
        }
        counters := counters.(commitsRejectedConflicting := counters.commitsRejectedConflicting + 1);
        return Err(ConflictingResultCommit), false;
      }
      var refusal := PublicationFault(e, x);
      if refusal.Some? {
        return Err(refusal.value), false;
      }
      if ids.result >= U64_MAX {
        return Err(ResourceLimitExceeded), false;
      }
      var stored := Publish(r, e, x);
      return Ok(stored), true;
    }

    /** Allocates the identity of the result, stores it and marks the winner and the losers. */
    method Publish(r: Result, e: Ensemble, x: Execution) returns (stored: Result)
      requires ids.result < U64_MAX
      modifies this
      ensures stored == Stored(config, r, old(ids.result), SequenceValue(old(ids)))
      ensures View() == CountCommit(
                Put(old(View()), r.ensemble, e.(execution := Some(Published(x, stored))))
                  .(ids := AfterSequence(old(ids)).(result := old(ids.result) + 1)), stored)
    {
      var resultId := ids.result;
      ids := ids.(result := ids.result + 1);
      var sequence := NextSequence();
      stored := Stored(config, r, resultId, sequence);
      var y := x.(result := Some(stored), status := StatusFor(stored.decision));
      if stored.decision == DecisionCommitted {
        counters := counters.(commitsAccepted := counters.commitsAccepted + 1);
        var marked := MarkCandidates(x.candidates, stored.selectedCandidate);
        y := y.(candidates := marked);
      }
      ensembles := ensembles[r.ensemble := e.(execution := Some(y))];
    }

    /** `finalize` with nobody else at work: its three sections back to back. */
    method FinalizeEnsemble(id: nat, generation: nat) returns (out: Outcome<Result>)
      requires Configured()
      modifies this
      ensures (View(), out) == FinalizeAlone(old(View()), id, generation)
    {
      var checked := FinalizeCheck(View(), id, generation);
      if checked.Err? {
        return Err(checked.error);
      }
      out := PrepareResult(id, generation);
      if out.Err? {
        return;
      }
      if out.value.execution != checked.value {
        return Err(InternalError);
      }
      ghost var published;
      out, published := CommitResult(out.value);
      if out.Ok? && out.value.decision != DecisionCommitted {
        return Err(ConsensusError(out.value.consensus.state));
      }
    }
  }
}
