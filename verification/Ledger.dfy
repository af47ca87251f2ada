/**
 The invariant of one ensemble against the log of everything it dispatched, accepted, prepared
 and committed, and the operations' effect on it.
 */
module Ledger {
  import opened Base
  import opened Spec
  import opened Lifecycle
  import opened Records
  import opened Attempts
  import opened Participants
  import opened Definition
  import opened Ingest
  import opened Reports
  import opened Progress
  import opened Finalization
  import opened Monotone
  import opened Invariants
  import opened Advancing
  import Quorum
  import Consensus

  /** Everything one ensemble ever performed, accepted, prepared and published. */
  datatype Log = Log(actions: seq<Action>, accepted: seq<Acceptance>, prepared: seq<Result>, committed: seq<Result>)

  const EMPTY_LOG: Log := Log([], [], [], [])

  ghost predicate ParticipantsInv(spec: RuntimeSpec, epoch: nat, ps: seq<Participant>) {
    && |ps| == |spec.participants|
    && forall i :: 0 <= i < |ps| ==>
         && ps[i].declaration == spec.participants[i] && ps[i].id == spec.participants[i].id
         && ps[i].generation >= 1 && ps[i].epoch <= epoch
         && (ps[i].registered ==> ps[i].workerBoot != 0)
  }

  /** What a prepared decision rests on. */
  ghost predicate ResultSound(acc: seq<Acceptance>, r: Result) {
    && r.hasSelected == (r.decision == DecisionCommitted)
    && (r.hasSelected ==>
          && r.payload != []
          && Acceptance(r.selectedCandidate, r.selectedCandidateGeneration, Some(r.payload)) in acc
          && r.quorum.state == Quorum.QuorumReached
          && (Consensus.Resolved(r.consensus.state) || (r.consensus.state == Consensus.Tie && r.arbitration.tieBreak != ReportTie)))
  }

  /** A result never names a generation or an execution the ensemble has not reached. */
  ghost predicate PreparedInv(acc: seq<Acceptance>, e: Ensemble, r: Result) {
    && ResultSound(acc, r)
    && r.ensemble == e.spec.id
    && r.ensembleGeneration <= e.spec.generation
    && (r.ensembleGeneration == e.spec.generation ==>
          && e.execution.Some? && r.execution <= e.execution.value.id
          && (r.execution == e.execution.value.id ==>
                && r.epoch == e.execution.value.epoch
                && (r.hasSelected ==> Supported(e.execution.value.candidates, r.selectedCandidate, r.selectedCandidateGeneration))))
  }

  /** Whoever committed for the present execution is its result; other commits belong to the past. */
  ghost predicate CommittedInv(e: Ensemble, r: Result) {
    && r.ensembleGeneration <= e.spec.generation
    && (r.ensembleGeneration == e.spec.generation ==>
          && e.execution.Some? && r.execution <= e.execution.value.id
          && (r.execution == e.execution.value.id ==> e.execution.value.result == Some(r)))
  }

  ghost predicate SameExecution(r: Result, q: Result) {
    r.ensembleGeneration == q.ensembleGeneration && r.execution == q.execution
  }

  /** `r` is the stored form of the prepared result `p`. */
  predicate StoredFrom(r: Result, p: Result) {
    r == p.(id := r.id, generation := r.generation, commitSequence := r.commitSequence, fingerprint := r.fingerprint)
  }

  ghost predicate WasPrepared(prepared: seq<Result>, r: Result) {
    exists i :: 0 <= i < |prepared| && StoredFrom(r, prepared[i])
  }

  ghost predicate ResultsInv(log: Log, e: Ensemble) {
    && (forall i :: 0 <= i < |log.prepared| ==> PreparedInv(log.accepted, e, log.prepared[i]))
    && (forall i :: 0 <= i < |log.committed| ==> CommittedInv(e, log.committed[i]))
    && (forall i, j :: 0 <= i < j < |log.committed| ==> !SameExecution(log.committed[i], log.committed[j]))
    && (forall i :: 0 <= i < |log.committed| ==> WasPrepared(log.prepared, log.committed[i]))
    && (e.execution.Some? && e.execution.value.result.Some? ==>
          && e.execution.value.result.value in log.committed
          && PreparedInv(log.accepted, e, e.execution.value.result.value))
  }

  /** Nothing was prepared under an epoch still to come. */
  ghost predicate PreparedSoFar(epoch: nat, prepared: seq<Result>) {
    forall i :: 0 <= i < |prepared| ==> prepared[i].epoch <= epoch
  }

  ghost predicate EnsInv(epoch: nat, ids: Ids, log: Log, key: nat, e: Ensemble) {
    && e.spec.id == key && WellFormed(e.spec)
    && ParticipantsInv(e.spec, epoch, e.participants)
    && LogInv(ids.candidate, log.actions, log.accepted)
    && (e.execution.Some? ==>
          && ExecInv(e.spec, ids.candidate, log.actions, log.accepted, e.execution.value)
          && e.execution.value.epoch <= epoch)
    && ResultsInv(log, e)
    && PreparedSoFar(epoch, log.prepared)
  }

  // ---- Frames ---------------------------------------------------------------------------------------

  lemma SlotsSeeLaterIds(max: nat, next: nat, next': nat, acts: seq<Action>, acc: seq<Acceptance>, cs: seq<Candidate>)
    requires SlotsInv(max, next, acts, acc, cs) && next <= next'
    ensures SlotsInv(max, next', acts, acc, cs)
  {
  }

  /** An ensemble does not notice other ensembles' progress. */
  lemma UntouchedKeeps(epoch: nat, epoch': nat, ids: Ids, ids': Ids, log: Log, key: nat, e: Ensemble)
    requires EnsInv(epoch, ids, log, key, e) && epoch <= epoch' && IdsAdvance(ids, ids')
    ensures EnsInv(epoch', ids', log, key, e)
  {
    if e.execution.Some? {
      SlotsSeeLaterIds(e.spec.retry.maxAttempts, ids.candidate, ids'.candidate, log.actions, log.accepted, e.execution.value.candidates);
    }
  }

  lemma PreparedKept(acc: seq<Acceptance>, acc': seq<Acceptance>, e: Ensemble, f: Ensemble, r: Result)
    requires PreparedInv(acc, e, r) && f.spec == e.spec && (forall a :: a in acc ==> a in acc')
    requires e.execution.Some? && f.execution.Some? && ExecutionAdvances(e.execution.value, f.execution.value)
    ensures PreparedInv(acc', f, r)
  {
    var x, y := e.execution.value, f.execution.value;
    if r.ensembleGeneration == e.spec.generation && r.execution == x.id && r.hasSelected {
      SupportedAdvances(x.candidates, y.candidates, r.selectedCandidate, r.selectedCandidateGeneration);
    }
  }

  /** Log and results when the execution moves forward without publishing. */
  lemma ResultsKept(log: Log, log': Log, e: Ensemble, f: Ensemble)
    requires ResultsInv(log, e) && f.spec == e.spec
    requires e.execution.Some? && f.execution.Some? && ExecutionAdvances(e.execution.value, f.execution.value)
    requires f.execution.value.result == e.execution.value.result
    requires log'.prepared == log.prepared && log'.committed == log.committed && (forall a :: a in log.accepted ==> a in log'.accepted)
    ensures ResultsInv(log', f)
  {
    forall i | 0 <= i < |log.prepared| ensures PreparedInv(log'.accepted, f, log.prepared[i]) {
      PreparedKept(log.accepted, log'.accepted, e, f, log.prepared[i]);
    }
    if f.execution.value.result.Some? {
      PreparedKept(log.accepted, log'.accepted, e, f, f.execution.value.result.value);
    }
  }

  lemma ExecutionKept(epoch: nat, ids: Ids, ids': Ids, log: Log, log': Log, key: nat, e: Ensemble, ps: seq<Participant>, y: Execution)
    requires EnsInv(epoch, ids, log, key, e) && e.execution.Some?
    requires ParticipantsInv(e.spec, epoch, ps)
    requires ExecutionAdvances(e.execution.value, y) && y.result == e.execution.value.result
    requires ExecInv(e.spec, ids'.candidate, log'.actions, log'.accepted, y)
    requires LogInv(ids'.candidate, log'.actions, log'.accepted)
    requires log'.prepared == log.prepared && log'.committed == log.committed && (forall a :: a in log.accepted ==> a in log'.accepted)
    ensures EnsInv(epoch, ids', log', key, e.(participants := ps, execution := Some(y)))
  {
    ResultsKept(log, log', e, e.(participants := ps, execution := Some(y)));
  }

  /** The common case: same participants, same log, one execution moves. */
  lemma ExecutionMoves(epoch: nat, ids: Ids, log: Log, key: nat, e: Ensemble, y: Execution)
    requires EnsInv(epoch, ids, log, key, e) && e.execution.Some?
    requires ExecutionAdvances(e.execution.value, y) && y.result == e.execution.value.result
    requires ExecInv(e.spec, ids.candidate, log.actions, log.accepted, y)
    ensures EnsInv(epoch, ids, log, key, e.(execution := Some(y)))
  {
    ExecutionKept(epoch, ids, ids, log, log, key, e, e.participants, y);
    assert e.(execution := Some(y)) == e.(participants := e.participants, execution := Some(y));
  }

  lemma MembersMove(epoch: nat, ids: Ids, log: Log, key: nat, e: Ensemble, ps: seq<Participant>)
    requires EnsInv(epoch, ids, log, key, e) && ParticipantsInv(e.spec, epoch, ps)
    ensures EnsInv(epoch, ids, log, key, e.(participants := ps))
  {
    var f := e.(participants := ps);
    forall i | 0 <= i < |log.prepared| ensures PreparedInv(log.accepted, f, log.prepared[i]) {
      assert PreparedInv(log.accepted, e, log.prepared[i]);
    }
    forall i | 0 <= i < |log.committed| ensures CommittedInv(f, log.committed[i]) {
      assert CommittedInv(e, log.committed[i]);
    }
  }

  // ---- Slots that stop being in flight together ------------------------------------------------------

  lemma InterruptKeeps(spec: RuntimeSpec, next: nat, acts: seq<Action>, acc: seq<Acceptance>, x: Execution,
                       state: CandidateState, stale: bool, failure: Option<Error>)
    requires ExecInv(spec, next, acts, acc, x) && state in {Superseded, Cancelled}
    ensures var cs := InterruptAll(x.candidates, state, stale, failure);
            CandidatesAdvance(x.candidates, cs) && ExecInv(spec, next, acts, acc, x.(candidates := cs))
  {
    var cs := InterruptAll(x.candidates, state, stale, failure);
    var y := x.(candidates := cs);
    assert CandidatesAdvance(x.candidates, cs);
    EvidenceAdvances(spec.evidence.mandatoryCriteria, x.candidates, cs, x.evaluations, x.pending);
    forall i | 0 <= i < |cs| ensures BudgetInv(spec.retry.maxAttempts, acts, cs[i]) && ContentInv(acc, cs[i]) {
      assert BudgetInv(spec.retry.maxAttempts, acts, x.candidates[i]) && ContentInv(acc, x.candidates[i]);
    }
    assert Plan(spec, y) == Plan(spec, x);
    assert BarrierInv(Plan(spec, y), y.stageIndex, cs);
  }

  lemma StatusKeeps(spec: RuntimeSpec, next: nat, acts: seq<Action>, acc: seq<Acceptance>, x: Execution,
                    status: ExecutionStatus, requested: bool)
    requires ExecInv(spec, next, acts, acc, x) && status != ExecOpen
    ensures ExecInv(spec, next, acts, acc, x.(status := status, cancellationRequested := requested))
  {
    assert Plan(spec, x.(status := status, cancellationRequested := requested)) == Plan(spec, x);
  }

  // ---- Registration, failure, invalidation --------------------------------------------------------------

  lemma RegistrationKeeps(epoch: nat, ids: Ids, log: Log, key: nat, e: Ensemble, j: nat, r: Registration)
    requires EnsInv(epoch, ids, log, key, e) && j < |e.participants| && r.Complete() && r.epoch == epoch
    ensures EnsInv(epoch, ids, log, key, e.(participants := e.participants[j := Registered(e.participants[j], r)]))
  {
    var ps := e.participants[j := Registered(e.participants[j], r)];
    assert ParticipantsInv(e.spec, epoch, ps);
    MembersMove(epoch, ids, log, key, e, ps);
  }

  lemma FailureKeeps(epoch: nat, ids: Ids, log: Log, key: nat, e: Ensemble, j: nat, kind: FailureKind)
    requires EnsInv(epoch, ids, log, key, e) && j < |e.participants|
    ensures EnsInv(epoch, ids, log, key, AfterFailure(e, j, kind))
  {
    var p := FailedParticipant(e.participants[j], kind);
    var ps := e.participants[j := p];
    assert ParticipantsInv(e.spec, epoch, ps);
    if HasOpenExecution(e) {
      var x := e.execution.value;
      var y := ReleaseFrom(e.spec, p, FailureOf(kind), x, 0);
      ReleaseKeeps(e.spec, ids.candidate, log.actions, log.accepted, x, p, FailureOf(kind), 0);
      ReleaseAdvances(e.spec, p, FailureOf(kind), x, 0);
      var z := if FailureCancels(e, p) then y.(status := ExecFailed) else y;
      FailedStatusAdvances(x, y);
      StatusKeeps(e.spec, ids.candidate, log.actions, log.accepted, y, ExecFailed, y.cancellationRequested);
      ExecutionKept(epoch, ids, ids, log, log, key, e, ps, z);
      assert AfterFailure(e, j, kind) == e.(participants := ps, execution := Some(z));
    } else {
      MembersMove(epoch, ids, log, key, e, ps);
      assert AfterFailure(e, j, kind) == e.(participants := ps);
    }
  }

  lemma WithdrawalKeeps(mandatory: seq<Criterion>, cs: seq<Candidate>, es: seq<Evaluation>, qs: seq<Pending>)
    requires EvaluationsInv(mandatory, cs, es) && PendingInv(mandatory, cs, qs)
    ensures EvaluationsInv(mandatory, cs, WithdrawAll(es)) && PendingInv(mandatory, cs, AbandonAll(qs))
  {
    var fs := WithdrawAll(es);
    forall i, j | 0 <= i < j < |fs| ensures !SameEvidence(fs[i], fs[j]) {
      assert !SameEvidence(es[i], es[j]);
    }
  }

  lemma InvalidateExecutionKeeps(spec: RuntimeSpec, next: nat, acts: seq<Action>, acc: seq<Acceptance>, x: Execution)
    requires ExecInv(spec, next, acts, acc, x)
    ensures ExecInv(spec, next, acts, acc, InvalidateExecution(x))
  {
    var cs := InterruptAll(x.candidates, Superseded, true, Some(RevalidationRequired));
    InterruptKeeps(spec, next, acts, acc, x, Superseded, true, Some(RevalidationRequired));
    WithdrawalKeeps(spec.evidence.mandatoryCriteria, cs, x.evaluations, x.pending);
    assert Plan(spec, InvalidateExecution(x)) == Plan(spec, x.(candidates := cs));
  }

  lemma InvalidationKeeps(epoch: nat, ids: Ids, log: Log, key: nat, e: Ensemble)
    requires EnsInv(epoch, ids, log, key, e)
    ensures EnsInv(epoch, ids, log, key, InvalidateEnsemble(e))
  {
    var ps := InvalidateParticipants(e.participants);
    assert ParticipantsInv(e.spec, epoch, ps);
    if HasOpenExecution(e) {
      var y := InvalidateExecution(e.execution.value);
      InvalidateExecutionKeeps(e.spec, ids.candidate, log.actions, log.accepted, e.execution.value);
      assert ExecutionAdvances(e.execution.value, y);
      ExecutionKept(epoch, ids, ids, log, log, key, e, ps, y);
      assert InvalidateEnsemble(e) == e.(participants := ps, execution := Some(y));
    } else {
      MembersMove(epoch, ids, log, key, e, ps);
    }
  }

  // ---- Definition, supersession, opening, cancellation ------------------------------------------------------

  lemma FirstDefinitionKeeps(epoch: nat, ids: Ids, spec: RuntimeSpec)
    requires WellFormed(spec)
    ensures EnsInv(epoch, ids, EMPTY_LOG, spec.id, Ensemble(spec, FreshParticipants(spec.participants), None, false, []))
  {
    assert LogInv(ids.candidate, [], []);
  }

  lemma RedefinitionKeeps(epoch: nat, ids: Ids, log: Log, key: nat, e: Ensemble, spec: RuntimeSpec, history: seq<Result>)
    requires EnsInv(epoch, ids, log, key, e)
    requires spec.id == key && spec.generation > e.spec.generation && WellFormed(spec)
    ensures EnsInv(epoch, ids, log, key, Ensemble(spec, FreshParticipants(spec.participants), None, false, history))
  {
    var f := Ensemble(spec, FreshParticipants(spec.participants), None, false, history);
    forall i | 0 <= i < |log.prepared| ensures PreparedInv(log.accepted, f, log.prepared[i]) {
      assert PreparedInv(log.accepted, e, log.prepared[i]);
    }
    forall i | 0 <= i < |log.committed| ensures CommittedInv(f, log.committed[i]) {
      assert CommittedInv(e, log.committed[i]);
    }
  }

  lemma ExecutionReplaced(epoch: nat, ids: Ids, log: Log, key: nat, e: Ensemble)
    requires EnsInv(epoch, ids, log, key, e)
    ensures EnsInv(epoch, ids, log, key, e.(execution := Some(NextExecution(e, epoch))))
  {
    var f := e.(execution := Some(NextExecution(e, epoch)));
    forall i | 0 <= i < |log.prepared| ensures PreparedInv(log.accepted, f, log.prepared[i]) {
      assert PreparedInv(log.accepted, e, log.prepared[i]);
    }
    forall i | 0 <= i < |log.committed| ensures CommittedInv(f, log.committed[i]) {
      assert CommittedInv(e, log.committed[i]);
    }
  }

  lemma SupersedeFlagKeeps(epoch: nat, ids: Ids, log: Log, key: nat, e: Ensemble)
    requires EnsInv(epoch, ids, log, key, e)
    ensures EnsInv(epoch, ids, log, key, e.(superseded := true))
  {
    var f := e.(superseded := true);
    forall i | 0 <= i < |log.prepared| ensures PreparedInv(log.accepted, f, log.prepared[i]) {
      assert PreparedInv(log.accepted, e, log.prepared[i]);
    }
    forall i | 0 <= i < |log.committed| ensures CommittedInv(f, log.committed[i]) {
      assert CommittedInv(e, log.committed[i]);
    }
  }

  /** An open execution ends without a result and with nothing in flight. */
  lemma InterruptionKeeps(epoch: nat, ids: Ids, log: Log, key: nat, e: Ensemble, stale: bool)
    requires EnsInv(epoch, ids, log, key, e) && HasOpenExecution(e)
    ensures var x := e.execution.value;
            EnsInv(epoch, ids, log, key,
                   e.(execution := Some(x.(status := ExecSuperseded, candidates := InterruptAll(x.candidates, Superseded, stale, None)))))
  {
    var x := e.execution.value;
    var y := x.(candidates := InterruptAll(x.candidates, Superseded, stale, None));
    InterruptKeeps(e.spec, ids.candidate, log.actions, log.accepted, x, Superseded, stale, None);
    StatusKeeps(e.spec, ids.candidate, log.actions, log.accepted, y, ExecSuperseded, y.cancellationRequested);
    var z := x.(status := ExecSuperseded, candidates := InterruptAll(x.candidates, Superseded, stale, None));
    assert z == y.(status := ExecSuperseded, cancellationRequested := y.cancellationRequested);
    assert ExecutionAdvances(x, z);
    ExecutionMoves(epoch, ids, log, key, e, z);
  }

  lemma SupersessionKeeps(epoch: nat, ids: Ids, log: Log, key: nat, e: Ensemble)
    requires EnsInv(epoch, ids, log, key, e)
    ensures EnsInv(epoch, ids, log, key, SupersededEnsemble(e))
  {
    var f := e.(superseded := true);
    SupersedeFlagKeeps(epoch, ids, log, key, e);
    if HasOpenExecution(e) {
      InterruptionKeeps(epoch, ids, log, key, f, false);
    } else {
      assert SupersededEnsemble(e) == f;
    }
  }

  lemma CancellationKeeps(epoch: nat, ids: Ids, log: Log, key: nat, e: Ensemble)
    requires EnsInv(epoch, ids, log, key, e) && e.execution.Some? && e.execution.value.result.None?
    ensures EnsInv(epoch, ids, log, key,
                   e.(execution := Some(e.execution.value.(cancellationRequested := true, status := ExecCancelled))))
  {
    var x := e.execution.value;
    StatusKeeps(e.spec, ids.candidate, log.actions, log.accepted, x, ExecCancelled, true);
    var y := x.(cancellationRequested := true, status := ExecCancelled);
    assert y == x.(status := ExecCancelled, cancellationRequested := true);
    assert ExecutionAdvances(x, y);
    ExecutionMoves(epoch, ids, log, key, e, y);
  }

  // ---- Submissions ---------------------------------------------------------------------------------------------

  lemma ContentSeesOthers(acc: seq<Acceptance>, a: Acceptance, c: Candidate)
    requires ContentInv(acc, c) && a.candidate != c.id
    ensures ContentInv(acc + [a], c)
  {
    forall g ensures AcceptancesAt(acc + [a], c.id, g) == AcceptancesAt(acc, c.id, g) {
      AcceptancesAtSnoc(acc, a, c.id, g);
    }
  }

  lemma AcceptanceKeepsLog(next: nat, acts: seq<Action>, acc: seq<Acceptance>, a: Acceptance)
    requires LogInv(next, acts, acc) && a.candidate < next && AcceptancesAt(acc, a.candidate, a.generation) == 0
    ensures LogInv(next, acts, acc + [a])
  {
    forall id, g ensures AcceptancesAt(acc + [a], id, g) <= 1 {
      AcceptancesAtSnoc(acc, a, id, g);
    }
  }

  /** A dispatched slot that is completed: by content, by its end, or by a rewind to the next generation. */
  ghost predicate Completes(c: Candidate, d: Candidate, a: Acceptance) {
    && c.state == Dispatched && a.candidate == c.id && a.generation == c.generation
    && CandidateAdvances(c, d)
    && d.state != Dispatched && d.state != Eligible && d.state != OutputReceived && d.state != Retired
    && (InFlight(d.state) ==> d.generation > c.generation)
    && (Answerable(d.state) ==> d.generation == c.generation && d.payload != [] && a.payload == Some(d.payload))
  }

  lemma CompletionHasContent(acc: seq<Acceptance>, a: Acceptance, c: Candidate, d: Candidate)
    requires ContentInv(acc, c) && Completes(c, d, a)
    ensures ContentInv(acc + [a], d)
  {
    forall g ensures AcceptancesAt(acc + [a], c.id, g) == AcceptancesAt(acc, c.id, g) + if g == c.generation then 1 else 0 {
      AcceptancesAtSnoc(acc, a, c.id, g);
    }
    assert a in acc + [a];
  }

  lemma CompletionKeepsSlots(max: nat, next: nat, acts: seq<Action>, acc: seq<Acceptance>, cs: seq<Candidate>, k: nat,
                             d: Candidate, a: Acceptance)
    requires SlotsInv(max, next, acts, acc, cs) && k < |cs| && Completes(cs[k], d, a) && BudgetInv(max, acts, d)
    ensures SlotsInv(max, next, acts, acc + [a], cs[k := d])
  {
    var ds := cs[k := d];
    forall i | 0 <= i < |ds| ensures ContentInv(acc + [a], ds[i]) {
      assert ContentInv(acc, cs[i]);
      if i == k {
        CompletionHasContent(acc, a, cs[k], d);
      } else {
        assert cs[i].id != cs[k].id;
        ContentSeesOthers(acc, a, cs[i]);
      }
    }
    forall i | 0 <= i < |ds| ensures BudgetInv(max, acts, ds[i]) {
      assert BudgetInv(max, acts, cs[i]);
    }
  }

  lemma CompletionKeepsExecution(spec: RuntimeSpec, next: nat, acts: seq<Action>, acc: seq<Acceptance>, x: Execution, k: nat,
                                 d: Candidate, a: Acceptance)
    requires ExecInv(spec, next, acts, acc, x) && LogInv(next, acts, acc)
    requires k < |x.candidates| && Completes(x.candidates[k], d, a) && BudgetInv(spec.retry.maxAttempts, acts, d)
    ensures ExecInv(spec, next, acts, acc + [a], x.(candidates := x.candidates[k := d]))
    ensures LogInv(next, acts, acc + [a])
    ensures ExecutionAdvances(x, x.(candidates := x.candidates[k := d]))
  {
    var y := x.(candidates := x.candidates[k := d]);
    CompletionKeepsSlots(spec.retry.maxAttempts, next, acts, acc, x.candidates, k, d, a);
    assert ContentInv(acc, x.candidates[k]);
    AcceptanceKeepsLog(next, acts, acc, a);
    UpdateAdvances(x, k, d);
    BarrierKeptBySlot(Plan(spec, x), x.stageIndex, x.candidates, k, d);
    EvidenceAdvances(spec.evidence.mandatoryCriteria, x.candidates, y.candidates, x.evaluations, x.pending);
    assert Plan(spec, y) == Plan(spec, x);
  }

  /** Accepting one completion of a dispatched slot. */
  lemma CompletionKeeps(epoch: nat, ids: Ids, log: Log, key: nat, e: Ensemble, k: nat, d: Candidate, a: Acceptance)
    requires EnsInv(epoch, ids, log, key, e) && e.execution.Some? && k < |e.execution.value.candidates|
    requires Completes(e.execution.value.candidates[k], d, a)
    requires BudgetInv(e.spec.retry.maxAttempts, log.actions, d)
    ensures var x := e.execution.value;
            EnsInv(epoch, ids, log.(accepted := log.accepted + [a]), key,
                   e.(execution := Some(x.(candidates := x.candidates[k := d]))))
  {
    var x := e.execution.value;
    var y := x.(candidates := x.candidates[k := d]);
    var log' := log.(accepted := log.accepted + [a]);
    CompletionKeepsExecution(e.spec, ids.candidate, log.actions, log.accepted, x, k, d, a);
    ExecutionKept(epoch, ids, ids, log, log', key, e, e.participants, y);
    assert e.(execution := Some(y)) == e.(participants := e.participants, execution := Some(y));
  }

  /** What a failure report does to the slot it names. */
  function AfterFailureReport(spec: RuntimeSpec, c: Candidate, failure: Error): Candidate {
    if RetryAuthorized(spec, c, failure) then RewoundCandidate(c) else FailedCandidate(c, failure)
  }

  lemma FailureReportIsUpdate(spec: RuntimeSpec, next: nat, acts: seq<Action>, acc: seq<Acceptance>, x: Execution, k: nat, failure: Error)
    requires ExecInv(spec, next, acts, acc, x) && k < |x.candidates| && InFlight(x.candidates[k].state)
    ensures (if RetryAuthorized(spec, x.candidates[k], failure) then RewindAt(x, k) else FailAt(x, k, failure))
            == x.(candidates := x.candidates[k := AfterFailureReport(spec, x.candidates[k], failure)])
  {
    if RetryAuthorized(spec, x.candidates[k], failure) {
      RewindIsSlotStep(spec, next, acts, acc, x, k);
    } else {
      FailureIsSlotStep(spec, next, acts, acc, x, k, failure);
    }
  }

  lemma FailureReportCompletes(spec: RuntimeSpec, acts: seq<Action>, c: Candidate, failure: Error)
    requires BudgetInv(spec.retry.maxAttempts, acts, c) && c.state == Dispatched
    ensures Completes(c, AfterFailureReport(spec, c, failure), Acceptance(c.id, c.generation, None))
    ensures BudgetInv(spec.retry.maxAttempts, acts, AfterFailureReport(spec, c, failure))
  {
  }

  /** A failure submission completes its slot as well: the generation it names is over either way. */
  lemma FailureCompletionKeeps(epoch: nat, ids: Ids, log: Log, key: nat, e: Ensemble, k: nat, failure: Error)
    requires EnsInv(epoch, ids, log, key, e) && e.execution.Some? && k < |e.execution.value.candidates|
    requires e.execution.value.candidates[k].state == Dispatched
    ensures var x := e.execution.value;
            var y := if RetryAuthorized(e.spec, x.candidates[k], failure) then RewindAt(x, k) else FailAt(x, k, failure);
            var a := Acceptance(x.candidates[k].id, x.candidates[k].generation, None);
            EnsInv(epoch, ids, log.(accepted := log.accepted + [a]), key, e.(execution := Some(y)))
  {
    var x := e.execution.value;
    var c := x.candidates[k];
    assert BudgetInv(e.spec.retry.maxAttempts, log.actions, c);
    FailureReportIsUpdate(e.spec, ids.candidate, log.actions, log.accepted, x, k, failure);
    FailureReportCompletes(e.spec, log.actions, c, failure);
    CompletionKeeps(epoch, ids, log, key, e, k, AfterFailureReport(e.spec, c, failure), Acceptance(c.id, c.generation, None));
  }

  // ---- Evaluations -----------------------------------------------------------------------------------------------

  lemma NewEvaluationKeeps(mandatory: seq<Criterion>, cs: seq<Candidate>, es: seq<Evaluation>, f: Evaluation)
    requires EvaluationsInv(mandatory, cs, es) && Supported(cs, f.candidate, f.candidateGeneration)
    requires f.kind == HardPredicate ==> f.criterion in mandatory
    requires forall e :: e in es ==> !SameEvidence(e, f)
    ensures EvaluationsInv(mandatory, cs, es + [f])
  {
    var fs := es + [f];
    forall i, j | 0 <= i < j < |fs| ensures !SameEvidence(fs[i], fs[j]) {
      if j == |es| { assert es[i] in es; }
    }
  }

  lemma AnswerKeepsPending(mandatory: seq<Criterion>, cs: seq<Candidate>, qs: seq<Pending>, j: nat)
    requires PendingInv(mandatory, cs, qs) && j < |qs|
    ensures PendingInv(mandatory, cs, qs[j := qs[j].(answered := true)])
  {
  }

  lemma AnswerKeeps(epoch: nat, ids: Ids, log: Log, key: nat, e: Ensemble, j: nat, f: Evaluation)
    requires EnsInv(epoch, ids, log, key, e) && e.execution.Some? && j < |e.execution.value.pending|
    requires Supported(e.execution.value.candidates, f.candidate, f.candidateGeneration)
    requires f.kind == e.execution.value.pending[j].kind && f.criterion == e.execution.value.pending[j].criterion
    requires forall g :: g in e.execution.value.evaluations ==> !SameEvidence(g, f)
    ensures var x := e.execution.value;
            EnsInv(epoch, ids, log, key,
                   e.(execution := Some(x.(evaluations := x.evaluations + [f], pending := x.pending[j := x.pending[j].(answered := true)]))))
  {
    var x := e.execution.value;
    var y := x.(evaluations := x.evaluations + [f], pending := x.pending[j := x.pending[j].(answered := true)]);
    NewEvaluationKeeps(e.spec.evidence.mandatoryCriteria, x.candidates, x.evaluations, f);
    AnswerKeepsPending(e.spec.evidence.mandatoryCriteria, x.candidates, x.pending, j);
    assert Plan(e.spec, y) == Plan(e.spec, x);
    assert ExecutionAdvances(x, y);
    ExecutionMoves(epoch, ids, log, key, e, y);
  }
}
