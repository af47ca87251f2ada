/** The promises of the runtime, over every run of interleaved operations and finalizers. */
module Safety {
  import opened Base
  import opened Spec
  import opened Records
  import opened Lifecycle
  import opened Attempts
  import opened Participants
  import opened Definition
  import opened Ingest
  import opened Progress
  import opened Finalization
  import opened Monotone
  import opened Invariants
  import opened Advancing
  import opened Ledger
  import opened Publishing
  import opened System
  import opened Runs
  import Reports
  import Quorum
  import Consensus
  import Arbitration

  // ---- Exactly-once commit ------------------------------------------------------------------------------

  /** The present execution of an ensemble, as a key. */
  ghost predicate IsCurrent(s: State, key: ExecutionKey, x: Execution) {
    && key.ensemble in s.ensembles
    && s.ensembles[key.ensemble].spec.generation == key.generation
    && s.ensembles[key.ensemble].execution == Some(x) && x.id == key.execution
  }

  lemma LogOfReachable(sys: System, id: nat)
    requires SysInv(sys) && id in sys.logs
    ensures id in sys.fabric.ensembles && ResultsInv(sys.logs[id], sys.fabric.ensembles[id])
  {
    At(sys, id);
  }

  /**
   Exactly-once commit: however check, preparation and commit of any number of finalizers and
   direct commits interleave with every other operation, no execution of any ensemble generation
   is ever published twice, and every published result is the stored form of a result that was
   prepared for that same generation, execution and epoch.
   */
  lemma CommittedAtMostOnce(trace: seq<System>, ops: seq<Op>, n: nat, id: nat)
    requires IsRun(trace, ops) && n < |trace| && id in trace[n].logs
    ensures var log := trace[n].logs[id];
            && (forall i, j :: 0 <= i < j < |log.committed| ==> !SameExecution(log.committed[i], log.committed[j]))
            && (forall i :: 0 <= i < |log.committed| ==> WasPrepared(log.prepared, log.committed[i]))
  {
    ReachableIsGood(trace, ops, n);
    LogOfReachable(trace[n], id);
  }

  /** The result of the current execution, if any, is a logged publication. */
  lemma CurrentResultWasCommitted(trace: seq<System>, ops: seq<Op>, n: nat, key: ExecutionKey, x: Execution)
    requires IsRun(trace, ops) && n < |trace| && IsCurrent(trace[n].fabric, key, x) && x.result.Some?
    ensures key.ensemble in trace[n].logs && x.result.value in trace[n].logs[key.ensemble].committed
  {
    ReachableIsGood(trace, ops, n);
    At(trace[n], key.ensemble);
  }

  lemma SameExecutionAdvances(s: State, t: State, key: ExecutionKey, x: Execution, y: Execution)
    requires Advances(s, t) && IsCurrent(s, key, x) && IsCurrent(t, key, y)
    ensures ExecutionAdvances(x, y)
    ensures s.ensembles[key.ensemble].superseded && x.result.None? ==> y.result.None?
  {
    assert EnsembleAdvances(s.ensembles[key.ensemble], t.ensembles[key.ensemble]);
  }

  /**
   While an execution stays current its result never changes and its status never returns to
   open; once it is cancelled, superseded or requires revalidation without a result, it never
   gets one.
   */
  lemma ResultsAreFinal(trace: seq<System>, ops: seq<Op>, i: nat, j: nat, key: ExecutionKey, x: Execution, y: Execution)
    requires IsRun(trace, ops) && i <= j < |trace|
    requires IsCurrent(trace[i].fabric, key, x) && IsCurrent(trace[j].fabric, key, y)
    ensures x.result.Some? ==> y.result == x.result
    ensures x.status != ExecOpen ==> y.status != ExecOpen
    ensures Blocked(x) ==> y.result.None?
    ensures trace[i].fabric.ensembles[key.ensemble].superseded && x.result.None? ==> y.result.None?
  {
    RunsAdvance(trace, ops, i, j);
    SameExecutionAdvances(trace[i].fabric, trace[j].fabric, key, x, y);
  }

  /** Committing what is already committed changes nothing but counters, and answers with the stored result or a conflict. */
  lemma RecommitIsIdempotent(s: State, r: Result)
    requires r.ensemble in s.ensembles && ValidateResult(r, s.ensembles[r.ensemble].spec, s.epoch).None?
    requires s.ensembles[r.ensemble].execution.Some? && s.ensembles[r.ensemble].execution.value.id == r.execution
    requires s.ensembles[r.ensemble].execution.value.result.Some?
    ensures var v := Commit(s, r);
            var stored := s.ensembles[r.ensemble].execution.value.result.value;
            && !v.published && v.state == s.(counters := v.state.counters)
            && v.outcome == (if stored.fingerprint == r.fingerprint then Ok(stored) else Err(ConflictingResultCommit))
  {
  }

  /** A finalizer that lost the race against another one with the same decision is told the stored result. */
  lemma SameDecisionSameFingerprint(config: Config, p: Result, q: Result, id: nat, sequence: nat)
    requires ContentOf(p) == ContentOf(q) && p.fingerprint == config.commitHash(ContentOf(p))
    ensures Stored(config, q, id, sequence).fingerprint == p.fingerprint
  {
    assert ContentOf(q.(id := id, generation := 1, commitSequence := sequence)) == ContentOf(q);
  }

  // ---- Commit soundness -----------------------------------------------------------------------------------

  /**
   Every published COMMITTED decision, in every run, rests on a reached quorum, on a resolved
   consensus or a tie under a deciding tie-break, and carries exactly the non-empty bytes that
   were accepted for the selected candidate generation; no other payload was ever accepted for it.
   */
  lemma CommittedPayloadWasAccepted(trace: seq<System>, ops: seq<Op>, n: nat, id: nat, r: Result)
    requires IsRun(trace, ops) && n < |trace| && id in trace[n].logs && r in trace[n].logs[id].committed
    requires r.decision == DecisionCommitted
    ensures var acc := trace[n].logs[id].accepted;
            && r.payload != []
            && Acceptance(r.selectedCandidate, r.selectedCandidateGeneration, Some(r.payload)) in acc
            && AcceptancesAt(acc, r.selectedCandidate, r.selectedCandidateGeneration) == 1
    ensures r.quorum.state == Quorum.QuorumReached
    ensures Consensus.Resolved(r.consensus.state) || (r.consensus.state == Consensus.Tie && r.arbitration.tieBreak != ReportTie)
  {
    var t := trace[n];
    ReachableIsGood(trace, ops, n);
    At(t, id);
    var log := t.logs[id];
    var i :| 0 <= i < |log.committed| && log.committed[i] == r;
    assert WasPrepared(log.prepared, log.committed[i]);
    var k :| 0 <= k < |log.prepared| && StoredFrom(r, log.prepared[k]);
    assert PreparedInv(log.accepted, t.fabric.ensembles[id], log.prepared[k]);
    AcceptedIsCounted(log.accepted, Acceptance(r.selectedCandidate, r.selectedCandidateGeneration, Some(r.payload)));
  }

  lemma {:induction false} AcceptedIsCounted(acc: seq<Acceptance>, a: Acceptance)
    requires a in acc
    ensures AcceptancesAt(acc, a.candidate, a.generation) >= 1
  {
    if acc[|acc| - 1] != a {
      assert a in acc[..|acc| - 1];
      AcceptedIsCounted(acc[..|acc| - 1], a);
    }
  }

  lemma ConcludedCandidateIsEligible(config: Config, spec: RuntimeSpec, superseded: bool, ps: seq<Participant>, x: Execution,
                                     y: Execution, r: Result)
    requires IncreasingIds(x.candidates) && y == Reports.ComputeReports(spec, superseded, ps, x)
    requires Conclusion(config, spec, y) == Ok(r) && r.decision == DecisionCommitted
    ensures var k := FindCandidate(x.candidates, r.selectedCandidate);
            && k.Some?
            && Arbitration.IsEligible(Reports.InputOf(spec, ps, y, x.candidates[k.value]), FinalArbitration(spec, superseded, ps, x))
  {
    CommittedDecisionHasSelection(config, spec, y, r);
    SelectionPassedEveryGate(spec, superseded, ps, x);
  }

  /** The result an undisturbed `finalize` of an undecided execution ends with is the one it concluded. */
  lemma FinalizeConcludes(s: State, id: nat, generation: nat)
    requires FinalizeCheck(s, id, generation).Ok? && s.ensembles[id].execution.value.result.None?
    requires FinalizeAlone(s, id, generation).1.Ok? && s.ensembles[id].spec.id == id
    ensures var e := s.ensembles[id];
            var x := e.execution.value;
            var y := Reports.WithReports(x, s.config.kernel(e.spec, e.superseded, e.participants, x));
            && Conclusion(s.config, e.spec, y).Ok?
            && StoredFrom(FinalizeAlone(s, id, generation).1.value, Conclusion(s.config, e.spec, y).value)
    ensures FinalizeAlone(s, id, generation).1.value.decision == DecisionCommitted
  {
    PrepareCases(s, id, generation);
    var prepared := Prepare(s, id, generation);
    CommitCases(prepared.0, prepared.1.value);
    assert FinalizeAlone(s, id, generation).1 == FinalAnswer(Commit(prepared.0, prepared.1.value).outcome);
  }

  /**
   Finalize without interference: if the three sections run back to back and answer a result, its
   decision is COMMITTED and its candidate passed every hard gate on the evidence of that moment.
   */
  lemma UndisturbedFinalizeIsSound(sys: System, id: nat, generation: nat, y: Execution)
    requires Good(sys) && FinalizeCheck(sys.fabric, id, generation).Ok?
    requires sys.fabric.ensembles[id].execution.value.result.None?
    requires var e := sys.fabric.ensembles[id];
             y == Reports.ComputeReports(e.spec, e.superseded, e.participants, e.execution.value)
    requires FinalizeAlone(sys.fabric, id, generation).1.Ok?
    ensures FinalizeAlone(sys.fabric, id, generation).1.value.decision == DecisionCommitted
    ensures var e, r := sys.fabric.ensembles[id], FinalizeAlone(sys.fabric, id, generation).1.value;
            var k := FindCandidate(e.execution.value.candidates, r.selectedCandidate);
            && k.Some?
            && Arbitration.IsEligible(Reports.InputOf(e.spec, e.participants, y, e.execution.value.candidates[k.value]),
                                      FinalArbitration(e.spec, e.superseded, e.participants, e.execution.value))
  {
    var s := sys.fabric;
    var e := s.ensembles[id];
    CandidatesAreOrdered(sys, id);
    KernelReports(sys, e, e.execution.value);
    FinalizeConcludes(s, id, generation);
    var r := Conclusion(s.config, e.spec, y).value;
    assert FinalizeAlone(s, id, generation).1.value.selectedCandidate == r.selectedCandidate;
    ConcludedCandidateIsEligible(s.config, e.spec, e.superseded, e.participants, e.execution.value, y, r);
  }

  lemma CandidatesAreOrdered(sys: System, id: nat)
    requires SysInv(sys) && id in sys.fabric.ensembles && sys.fabric.ensembles[id].execution.Some?
    ensures IncreasingIds(sys.fabric.ensembles[id].execution.value.candidates) && sys.fabric.ensembles[id].spec.id == id
  {
    At(sys, id);
  }

  lemma CommittedDecisionHasSelection(config: Config, spec: RuntimeSpec, y: Execution, r: Result)
    requires Conclusion(config, spec, y) == Ok(r) && r.decision == DecisionCommitted
    ensures HasSelection(spec, y) && FindCandidate(y.candidates, y.reports.arbitration.selected).Some?
    ensures r.selectedCandidate == y.reports.arbitration.selected
  {
    DecisionNeedsSelection(y.reports.consensus.state, HasSelection(spec, y));
  }

  // ---- Stage barrier -----------------------------------------------------------------------------------------

  /** A declared stage with the identity of the synthesized fallback stage would make stages ambiguous. */
  predicate NoReservedStage(spec: RuntimeSpec) {
    forall st :: st in spec.stages ==> st.id != FALLBACK_STAGE_BASE + 1
  }

  lemma PlanHasDistinctStages(spec: RuntimeSpec, x: Execution)
    requires WellFormed(spec) && NoReservedStage(spec) && FallbackInv(spec, x)
    ensures var plan := Plan(spec, x);
            forall i, j :: 0 <= i < j < |plan| ==> plan[i].id != plan[j].id
  {
  }

  /** What the barrier says of one execution. */
  ghost predicate BehindBarrier(spec: RuntimeSpec, x: Execution) {
    var plan := Plan(spec, x);
    && (forall c :: c in x.candidates && InFlight(c.state) ==> AtStage(plan, x.stageIndex, c))
    && (x.stageIndex >= |plan| ==> forall c :: c in x.candidates ==> !InFlight(c.state))
    && (NoReservedStage(spec) ==>
          forall c, k :: c in x.candidates && x.stageIndex < k < |plan| ==> c.stage != plan[k].id)
    && (InSequence(plan, x.stageIndex) ==>
          forall c, d :: c in x.candidates && d in x.candidates && c.state == Dispatched && d.stage == c.stage && d.id < c.id ==>
            !InFlight(d.state))
    && (InSequence(plan, x.stageIndex) ==>
          forall c, d :: c in x.candidates && d in x.candidates && c.state == Dispatched && d.state == Dispatched ==> c.id == d.id)
  }

  lemma NoLaterStage(plan: seq<Stage>, index: nat, stage: nat, k: nat)
    requires StageReached(plan, index, stage) && index < k < |plan|
    requires forall i, j :: 0 <= i < j < |plan| ==> plan[i].id != plan[j].id
    ensures stage != plan[k].id
  {
  }

  lemma EarlierIsResolved(plan: seq<Stage>, index: nat, cs: seq<Candidate>, c: Candidate, d: Candidate)
    requires BarrierInv(plan, index, cs) && InSequence(plan, index) && IncreasingIds(cs)
    requires c in cs && d in cs && c.state == Dispatched && d.stage == c.stage && d.id < c.id
    ensures !InFlight(d.state)
  {
    var j :| 0 <= j < |cs| && cs[j] == c;
    var i :| 0 <= i < |cs| && cs[i] == d;
    assert i < j;
  }

  lemma OneInSequence(plan: seq<Stage>, index: nat, cs: seq<Candidate>, c: Candidate, d: Candidate)
    requires BarrierInv(plan, index, cs) && InSequence(plan, index) && IncreasingIds(cs)
    requires c in cs && d in cs && c.state == Dispatched && d.state == Dispatched
    ensures c.id == d.id
  {
    assert AtStage(plan, index, c) && AtStage(plan, index, d);
    if d.id < c.id {
      EarlierIsResolved(plan, index, cs, c, d);
      assert false;
    } else if c.id < d.id {
      EarlierIsResolved(plan, index, cs, d, c);
      assert false;
    }
  }

  lemma BarrierHolds(spec: RuntimeSpec, next: nat, acts: seq<Action>, acc: seq<Acceptance>, x: Execution)
    requires ExecInv(spec, next, acts, acc, x) && WellFormed(spec)
    ensures BehindBarrier(spec, x)
  {
    var plan := Plan(spec, x);
    if NoReservedStage(spec) {
      PlanHasDistinctStages(spec, x);
      forall c, k | c in x.candidates && x.stageIndex < k < |plan| ensures c.stage != plan[k].id {
        NoLaterStage(plan, x.stageIndex, c.stage, k);
      }
    }
    if InSequence(plan, x.stageIndex) {
      forall c, d | c in x.candidates && d in x.candidates && c.state == Dispatched && d.stage == c.stage && d.id < c.id
        ensures !InFlight(d.state)
      {
        EarlierIsResolved(plan, x.stageIndex, x.candidates, c, d);
      }
      forall c, d | c in x.candidates && d in x.candidates && c.state == Dispatched && d.state == Dispatched ensures c.id == d.id {
        OneInSequence(plan, x.stageIndex, x.candidates, c, d);
      }
    }
  }

  /**
   The stage barrier, in every reachable state: whatever is in flight belongs to the current stage
   and was listed by it, later stages have no candidates, a consumed plan leaves nothing in flight,
   and a sequential stage has at most one dispatched candidate with everything before it resolved.
   */
  lemma StageBarrier(trace: seq<System>, ops: seq<Op>, n: nat, key: ExecutionKey, x: Execution)
    requires IsRun(trace, ops) && n < |trace| && IsCurrent(trace[n].fabric, key, x)
    ensures BehindBarrier(trace[n].fabric.ensembles[key.ensemble].spec, x)
  {
    ReachableIsGood(trace, ops, n);
    At(trace[n], key.ensemble);
    var log := trace[n].logs[key.ensemble];
    BarrierHolds(trace[n].fabric.ensembles[key.ensemble].spec, trace[n].fabric.ids.candidate, log.actions, log.accepted, x);
  }

  /** An open execution that counts as settled has nothing in flight at all, capable participants or not. */
  lemma SettledHasNothingInFlight(trace: seq<System>, ops: seq<Op>, n: nat, key: ExecutionKey, x: Execution)
    requires IsRun(trace, ops) && n < |trace| && IsCurrent(trace[n].fabric, key, x) && x.status == ExecOpen
    requires ExecutionSettled(trace[n].fabric.ensembles[key.ensemble])
    ensures forall c :: c in x.candidates ==> !InFlight(c.state)
  {
    StageBarrier(trace, ops, n, key, x);
  }

  // ---- Retry budget ------------------------------------------------------------------------------------------------

  /**
   The retry budget, in every reachable state: a slot has used exactly as many attempts as it was
   dispatched, never more than the policy allows, and a declared slot has one left; over the whole
   log, no attempt generation was dispatched twice or accepted two completions.
   */
  lemma RetryBudget(trace: seq<System>, ops: seq<Op>, n: nat, key: ExecutionKey, x: Execution, c: Candidate)
    requires IsRun(trace, ops) && n < |trace| && IsCurrent(trace[n].fabric, key, x) && c in x.candidates
    ensures key.ensemble in trace[n].logs
    ensures var max := trace[n].fabric.ensembles[key.ensemble].spec.retry.maxAttempts;
            && c.attemptsUsed == Dispatches(trace[n].logs[key.ensemble].actions, c.id) <= max
            && (c.state == Declared ==> c.attemptsUsed < max)
            && c.attempt == c.generation >= 1
    ensures forall id, g :: DispatchesAt(trace[n].logs[key.ensemble].actions, id, g) <= 1
    ensures forall id, g :: AcceptancesAt(trace[n].logs[key.ensemble].accepted, id, g) <= 1
  {
    ReachableIsGood(trace, ops, n);
    At(trace[n], key.ensemble);
    var i :| 0 <= i < |x.candidates| && x.candidates[i] == c;
    assert BudgetInv(trace[n].fabric.ensembles[key.ensemble].spec.retry.maxAttempts, trace[n].logs[key.ensemble].actions, x.candidates[i]);
  }

  // ---- Evidence is current ---------------------------------------------------------------------------------------------

  /**
   In every reachable state each stored evaluation names the present generation of a candidate
   that holds accepted content, no evaluator generation answered a criterion about a candidate
   twice, and hard-predicate evidence is about mandatory criteria only.
   */
  lemma EvidenceIsCurrent(trace: seq<System>, ops: seq<Op>, n: nat, key: ExecutionKey, x: Execution)
    requires IsRun(trace, ops) && n < |trace| && IsCurrent(trace[n].fabric, key, x)
    ensures EvaluationsInv(trace[n].fabric.ensembles[key.ensemble].spec.evidence.mandatoryCriteria, x.candidates, x.evaluations)
  {
    ReachableIsGood(trace, ops, n);
    At(trace[n], key.ensemble);
  }

  // ---- Fallback at most once ---------------------------------------------------------------------------------------------

  /** In every reachable state the fallback depth is the number of synthesized stages, and at most one. */
  lemma FallbackAtMostOnce(trace: seq<System>, ops: seq<Op>, n: nat, key: ExecutionKey, x: Execution)
    requires IsRun(trace, ops) && n < |trace| && IsCurrent(trace[n].fabric, key, x)
    ensures x.fallbackDepth == |x.extraStages| <= 1
    ensures x.fallbackActivated <==> x.fallbackDepth == 1
  {
    ReachableIsGood(trace, ops, n);
    At(trace[n], key.ensemble);
  }
}
