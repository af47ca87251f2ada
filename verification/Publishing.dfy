/** Soundness of prepared results, and what publishing one does to the ensemble's invariant. */
module Publishing {
  import opened Base
  import opened Spec
  import opened Lifecycle
  import opened Records
  import opened Attempts
  import opened Participants
  import opened Definition
  import opened Reports
  import opened Progress
  import opened Finalization
  import opened Monotone
  import opened Invariants
  import opened Ledger
  import Quorum
  import Consensus
  import Arbitration

  // ---- What the reports guarantee ---------------------------------------------------------------------

  /** No vote arithmetic without a quorum. */
  lemma CountedVotesHaveQuorum(inputs: Consensus.ConsensusInputs)
    requires Consensus.Resolved(Consensus.ConsensusOf(inputs).state) || Consensus.ConsensusOf(inputs).state == Consensus.Tie
    ensures inputs.quorum.state == Quorum.QuorumReached
    ensures !inputs.cancelled && !inputs.superseded && !inputs.revalidationRequired && !inputs.fallbackRequired
    ensures !(inputs.requiredParticipantFailed && inputs.requireAllRequired)
  {
    Consensus.ResolvedExactlyWhen(inputs);
    Consensus.TieExactlyWhen(inputs);
  }

  function QuorumStage(spec: RuntimeSpec, ps: seq<Participant>, x: Execution): ReportSet {
    var r0 := x.reports.(generation := x.reports.generation + 1);
    r0.(quorum := QuorumStep(spec, ps, WithReports(x, r0)))
  }

  /** The consensus inputs a recomputation ends up using. */
  function FinalInputs(spec: RuntimeSpec, superseded: bool, ps: seq<Participant>, x: Execution): Consensus.ConsensusInputs {
    var y := WithReports(x, QuorumStage(spec, ps, x));
    ConsensusInputsOf(spec, superseded, ps, y, FallbackDemanded(spec, ps, y))
  }

  lemma ReportsUnfold(spec: RuntimeSpec, superseded: bool, ps: seq<Participant>, x: Execution)
    ensures var rs := ReportsOf(spec, superseded, ps, x);
            && rs.quorum == QuorumStage(spec, ps, x).quorum
            && rs.consensus == Consensus.ConsensusOf(FinalInputs(spec, superseded, ps, x))
            && FinalInputs(spec, superseded, ps, x).quorum == rs.quorum
            && rs.arbitration == Arbitration.ArbitrationOf(
                 ArbitrationInputs(spec, ps, WithReports(x, rs), rs.quorum.state == Quorum.QuorumReached))
  {
    var rs := ReportsOf(spec, superseded, ps, x);
    var r1 := QuorumStage(spec, ps, x);
    var r2 := r1.(consensus := rs.consensus);
    InputsIgnoreReports(spec, ps, x, r2, rs);
  }

  lemma InputsIgnoreReports(spec: RuntimeSpec, ps: seq<Participant>, x: Execution, a: ReportSet, b: ReportSet)
    ensures InputsOf(spec, ps, WithReports(x, a)) == InputsOf(spec, ps, WithReports(x, b))
  {
  }

  lemma TieBreakIsReported(inputs: Arbitration.Inputs)
    ensures Arbitration.ArbitrationOf(inputs).tieBreak == inputs.policy.tieBreak
  {
  }

  /** A selection exists only over a reached quorum and a consensus that is resolved or a tie the policy may break. */
  lemma SelectionRestsOnQuorum(spec: RuntimeSpec, superseded: bool, ps: seq<Participant>, x: Execution)
    requires HasSelection(spec, ComputeReports(spec, superseded, ps, x))
    ensures var rs := ReportsOf(spec, superseded, ps, x);
            && rs.quorum.state == Quorum.QuorumReached
            && (Consensus.Resolved(rs.consensus.state) || (rs.consensus.state == Consensus.Tie && rs.arbitration.tieBreak != ReportTie))
            && !superseded && x.status != ExecCancelled && x.status != ExecSuperseded && x.status != ExecRevalidation
  {
    var rs := ReportsOf(spec, superseded, ps, x);
    ReportsUnfold(spec, superseded, ps, x);
    CountedVotesHaveQuorum(FinalInputs(spec, superseded, ps, x));
    TieBreakIsReported(ArbitrationInputs(spec, ps, WithReports(x, rs), rs.quorum.state == Quorum.QuorumReached));
  }

  // ---- The selected candidate passed every hard gate ------------------------------------------------------

  lemma ChosenInput(inputs: Arbitration.Inputs) returns (k: nat)
    requires Arbitration.ArbitrationOf(inputs).selected != 0
    ensures k < |inputs.candidates| && inputs.candidates[k].candidate == Arbitration.ArbitrationOf(inputs).selected
    ensures Arbitration.IsEligible(inputs.candidates[k], inputs)
  {
    Arbitration.SelectionIsEligible(inputs);
    var c := Arbitration.Choose(inputs.policy, Arbitration.Order(inputs)).input;
    k :| 0 <= k < |inputs.candidates| && inputs.candidates[k] == c;
  }

  lemma InputNamesItsCandidate(spec: RuntimeSpec, ps: seq<Participant>, x: Execution, k: nat)
    requires k < |x.candidates|
    ensures InputsOf(spec, ps, x)[k] == InputOf(spec, ps, x, x.candidates[k])
    ensures InputOf(spec, ps, x, x.candidates[k]).candidate == x.candidates[k].id
  {
  }

  /** The arbitration inputs of the final reports. */
  function FinalArbitration(spec: RuntimeSpec, superseded: bool, ps: seq<Participant>, x: Execution): Arbitration.Inputs {
    var rs := ReportsOf(spec, superseded, ps, x);
    ArbitrationInputs(spec, ps, WithReports(x, rs), rs.quorum.state == Quorum.QuorumReached)
  }

  /**
   Commit soundness at the moment of decision: the candidate a preparation would publish is the one
   arbitration selected, it holds content, and its input passed every hard gate.
   */
  lemma SelectionPassedEveryGate(spec: RuntimeSpec, superseded: bool, ps: seq<Participant>, x: Execution)
    requires IncreasingIds(x.candidates)
    requires HasSelection(spec, ComputeReports(spec, superseded, ps, x))
    ensures var y := ComputeReports(spec, superseded, ps, x);
            var inputs := FinalArbitration(spec, superseded, ps, x);
            var found := FindCandidate(y.candidates, y.reports.arbitration.selected);
            && found.Some?
            && Arbitration.IsEligible(InputOf(spec, ps, y, y.candidates[found.value]), inputs)
            && IsContent(y.candidates[found.value].state)
  {
    var y := ComputeReports(spec, superseded, ps, x);
    var inputs := FinalArbitration(spec, superseded, ps, x);
    ReportsUnfold(spec, superseded, ps, x);
    var k := ChosenInput(inputs);
    InputNamesItsCandidate(spec, ps, y, k);
    FindsTheOnly(y.candidates, k);
    EligibleHoldsContent(InputOf(spec, ps, y, y.candidates[k]), inputs);
    InputState(spec, ps, y, y.candidates[k]);
  }

  lemma {:induction false} FindsTheOnly(cs: seq<Candidate>, k: nat)
    requires IncreasingIds(cs) && k < |cs|
    ensures FindCandidate(cs, cs[k].id) == Some(k)
  {
    if k > 0 {
      FindsTheOnly(cs[1..], k - 1);
    }
  }

  lemma InputState(spec: RuntimeSpec, ps: seq<Participant>, x: Execution, c: Candidate)
    ensures InputOf(spec, ps, x, c).state == c.state
  {
  }

  lemma EligibleHoldsContent(c: Arbitration.Input, inputs: Arbitration.Inputs)
    requires Arbitration.IsEligible(c, inputs)
    ensures IsContent(c.state)
  {
  }

  // ---- Preparation ---------------------------------------------------------------------------------------------

  lemma DecisionNeedsSelection(state: Consensus.ConsensusState, hasSelection: bool)
    requires DecisionFor(state, hasSelection) == DecisionCommitted
    ensures hasSelection
  {
  }

  /** A concluded result is sound: its bytes were accepted, its quorum reached, its consensus settled. */
  lemma ConclusionIsSound(config: Config, spec: RuntimeSpec, superseded: bool, ps: seq<Participant>, x: Execution,
                          next: nat, acts: seq<Action>, acc: seq<Acceptance>)
    requires ExecInv(spec, next, acts, acc, x)
    requires Conclusion(config, spec, ComputeReports(spec, superseded, ps, x)).Ok?
    ensures var y := ComputeReports(spec, superseded, ps, x);
            var r := Conclusion(config, spec, y).value;
            && ResultSound(acc, r)
            && r.ensemble == spec.id && r.ensembleGeneration == spec.generation && r.execution == x.id && r.epoch == x.epoch
            && (r.hasSelected ==> Supported(x.candidates, r.selectedCandidate, r.selectedCandidateGeneration))
  {
    var y := ComputeReports(spec, superseded, ps, x);
    if HasSelection(spec, y) {
      SelectionRestsOnQuorum(spec, superseded, ps, x);
      var found := FindCandidate(y.candidates, y.reports.arbitration.selected);
      if found.Some? && IsContent(y.candidates[found.value].state) {
        assert ContentInv(acc, x.candidates[found.value]);
        ConclusionOfSelected(config, spec, y, found.value, acc);
      }
    } else {
      ConclusionWithoutSelection(config, spec, y, acc);
    }
  }

  lemma ConclusionOfSelected(config: Config, spec: RuntimeSpec, y: Execution, k: nat, acc: seq<Acceptance>)
    requires HasSelection(spec, y) && FindCandidate(y.candidates, y.reports.arbitration.selected) == Some(k)
    requires k < |y.candidates| && ContentInv(acc, y.candidates[k]) && IsContent(y.candidates[k].state)
    requires y.reports.quorum.state == Quorum.QuorumReached
    requires Consensus.Resolved(y.reports.consensus.state)
             || (y.reports.consensus.state == Consensus.Tie && y.reports.arbitration.tieBreak != ReportTie)
    ensures Conclusion(config, spec, y).Ok?
    ensures var r := Conclusion(config, spec, y).value;
            && ResultSound(acc, r)
            && r.ensemble == spec.id && r.ensembleGeneration == spec.generation && r.execution == y.id && r.epoch == y.epoch
            && r.hasSelected && Supported(y.candidates, r.selectedCandidate, r.selectedCandidateGeneration)
  {
  }

  lemma ConclusionWithoutSelection(config: Config, spec: RuntimeSpec, y: Execution, acc: seq<Acceptance>)
    requires !HasSelection(spec, y)
    ensures Conclusion(config, spec, y).Ok?
    ensures var r := Conclusion(config, spec, y).value;
            && ResultSound(acc, r) && !r.hasSelected
            && r.ensemble == spec.id && r.ensembleGeneration == spec.generation && r.execution == y.id && r.epoch == y.epoch
  {
  }

  lemma ReportsKeep(spec: RuntimeSpec, next: nat, acts: seq<Action>, acc: seq<Acceptance>, x: Execution, reports: ReportSet)
    requires ExecInv(spec, next, acts, acc, x)
    ensures ExecInv(spec, next, acts, acc, WithReports(x, reports)) && ExecutionAdvances(x, WithReports(x, reports))
  {
    assert Plan(spec, WithReports(x, reports)) == Plan(spec, x);
  }

  /** One more prepared result about the present execution. */
  lemma PreparationKeeps(epoch: nat, ids: Ids, log: Log, key: nat, e: Ensemble, reports: ReportSet, r: Result)
    requires EnsInv(epoch, ids, log, key, e) && e.execution.Some? && ResultSound(log.accepted, r)
    requires r.ensemble == e.spec.id && r.ensembleGeneration == e.spec.generation
    requires r.execution == e.execution.value.id && r.epoch == e.execution.value.epoch
    requires r.hasSelected ==> Supported(e.execution.value.candidates, r.selectedCandidate, r.selectedCandidateGeneration)
    ensures EnsInv(epoch, ids, log.(prepared := log.prepared + [r]), key, e.(execution := Some(WithReports(e.execution.value, reports))))
  {
    var x := e.execution.value;
    var f := e.(execution := Some(WithReports(x, reports)));
    ReportsKeep(e.spec, ids.candidate, log.actions, log.accepted, x, reports);
    ExecutionMoves(epoch, ids, log, key, e, WithReports(x, reports));
    PreparedLogKeeps(epoch, ids, log, key, f, r);
  }

  lemma PreparedLogKeeps(epoch: nat, ids: Ids, log: Log, key: nat, e: Ensemble, r: Result)
    requires EnsInv(epoch, ids, log, key, e) && PreparedInv(log.accepted, e, r) && r.epoch <= epoch
    ensures EnsInv(epoch, ids, log.(prepared := log.prepared + [r]), key, e)
  {
    var log' := log.(prepared := log.prepared + [r]);
    forall i | 0 <= i < |log.committed| ensures WasPrepared(log'.prepared, log.committed[i]) {
      assert WasPrepared(log.prepared, log.committed[i]);
      var j :| 0 <= j < |log.prepared| && StoredFrom(log.committed[i], log.prepared[j]);
      assert log'.prepared[j] == log.prepared[j];
    }
  }

  // ---- Publication -----------------------------------------------------------------------------------------------

  /** Marking the winner and the losers touches content only. */
  lemma MarkKeepsSlots(max: nat, next: nat, acts: seq<Action>, acc: seq<Acceptance>, cs: seq<Candidate>, selected: nat, g: nat)
    requires SlotsInv(max, next, acts, acc, cs) && Supported(cs, selected, g)
    ensures SlotsInv(max, next, acts, acc, MarkAll(cs, selected)) && CandidatesAdvance(cs, MarkAll(cs, selected))
    ensures forall i :: 0 <= i < |cs| ==> (InFlight(MarkAll(cs, selected)[i].state) ==> MarkAll(cs, selected)[i] == cs[i])
  {
    var ds := MarkAll(cs, selected);
    var w :| 0 <= w < |cs| && cs[w].id == selected && cs[w].generation == g && Answerable(cs[w].state);
    forall i | 0 <= i < |cs|
      ensures BudgetInv(max, acts, ds[i]) && ContentInv(acc, ds[i]) && CandidateAdvances(cs[i], ds[i])
      ensures InFlight(ds[i].state) ==> ds[i] == cs[i]
    {
      assert BudgetInv(max, acts, cs[i]) && ContentInv(acc, cs[i]);
      assert cs[i].id == selected ==> i == w;
    }
  }

  lemma MarkKeepsBarrier(plan: seq<Stage>, index: nat, cs: seq<Candidate>, ds: seq<Candidate>)
    requires BarrierInv(plan, index, cs) && |ds| == |cs| && CandidatesAdvance(cs, ds)
    requires forall i :: 0 <= i < |cs| ==> (InFlight(ds[i].state) ==> ds[i] == cs[i])
    ensures BarrierInv(plan, index, ds)
  {
    forall i | 0 <= i < |ds| ensures StageReached(plan, index, ds[i].stage) {
      assert CandidateAdvances(cs[i], ds[i]) && StageReached(plan, index, cs[i].stage);
    }
    forall i, j | 0 <= i < j < |ds| && InSequence(plan, index) && ds[j].state == Dispatched && ds[i].stage == ds[j].stage
      ensures !InFlight(ds[i].state)
    {
      assert CandidateAdvances(cs[i], ds[i]) && ds[j] == cs[j];
    }
  }

  lemma PublishedKeepsExecution(spec: RuntimeSpec, next: nat, acts: seq<Action>, acc: seq<Acceptance>, x: Execution, stored: Result)
    requires ExecInv(spec, next, acts, acc, x)
    requires stored.decision == DecisionCommitted ==>
               exists g :: Supported(x.candidates, stored.selectedCandidate, g)
    ensures ExecInv(spec, next, acts, acc, Published(x, stored))
  {
    var y := Published(x, stored);
    assert Plan(spec, y) == Plan(spec, x);
    if stored.decision == DecisionCommitted {
      var g :| Supported(x.candidates, stored.selectedCandidate, g);
      MarkKeepsSlots(spec.retry.maxAttempts, next, acts, acc, x.candidates, stored.selectedCandidate, g);
      MarkKeepsBarrier(Plan(spec, x), x.stageIndex, x.candidates, y.candidates);
      EvidenceAdvances(spec.evidence.mandatoryCriteria, x.candidates, y.candidates, x.evaluations, x.pending);
    }
  }

  lemma StoredIsSound(config: Config, acc: seq<Acceptance>, e: Ensemble, r: Result, id: nat, sequence: nat)
    requires PreparedInv(acc, e, r)
    ensures PreparedInv(acc, e, Stored(config, r, id, sequence)) && StoredFrom(Stored(config, r, id, sequence), r)
  {
  }

  /** The commit that publishes: it is the first of its execution, and its result is one that was prepared. */
  lemma PublicationKeeps(config: Config, epoch: nat, ids: Ids, log: Log, key: nat, e: Ensemble, k: nat, id: nat, sequence: nat)
    requires EnsInv(epoch, ids, log, key, e) && k < |log.prepared|
    requires e.execution.Some? && e.execution.value.result.None? && PublicationFault(e, e.execution.value).None?
    requires log.prepared[k].ensembleGeneration == e.spec.generation && log.prepared[k].execution == e.execution.value.id
    ensures var stored := Stored(config, log.prepared[k], id, sequence);
            EnsInv(epoch, ids, log.(committed := log.committed + [stored]), key,
                   e.(execution := Some(Published(e.execution.value, stored))))
  {
    var r := log.prepared[k];
    var stored := Stored(config, r, id, sequence);
    var x := e.execution.value;
    var y := Published(x, stored);
    StoredIsSound(config, log.accepted, e, r, id, sequence);
    if stored.decision == DecisionCommitted {
      assert Supported(x.candidates, stored.selectedCandidate, stored.selectedCandidateGeneration);
    }
    PublishedKeepsExecution(e.spec, ids.candidate, log.actions, log.accepted, x, stored);
    PublishedAdvances(e, x, stored);
    PublishedKeepsResults(log, e, y, k, stored);
  }

  lemma PublishedKeepsResults(log: Log, e: Ensemble, y: Execution, k: nat, stored: Result)
    requires ResultsInv(log, e) && k < |log.prepared| && e.execution.Some? && e.execution.value.result.None?
    requires ExecutionAdvances(e.execution.value, y) && y.result == Some(stored)
    requires PreparedInv(log.accepted, e, stored) && StoredFrom(stored, log.prepared[k])
    requires stored.ensembleGeneration == e.spec.generation && stored.execution == e.execution.value.id
    ensures ResultsInv(log.(committed := log.committed + [stored]), e.(execution := Some(y)))
  {
    var f := e.(execution := Some(y));
    var log' := log.(committed := log.committed + [stored]);
    forall i | 0 <= i < |log.prepared| ensures PreparedInv(log.accepted, f, log.prepared[i]) {
      PreparedKept(log.accepted, log.accepted, e, f, log.prepared[i]);
    }
    PreparedKept(log.accepted, log.accepted, e, f, stored);
    forall i | 0 <= i < |log.committed| ensures CommittedInv(f, log.committed[i]) && !SameExecution(log.committed[i], stored) {
      assert CommittedInv(e, log.committed[i]);
    }
    assert WasPrepared(log.prepared, stored);
    forall i | 0 <= i < |log'.committed| ensures WasPrepared(log.prepared, log'.committed[i]) {
      assert i < |log.committed| ==> WasPrepared(log.prepared, log.committed[i]);
    }
  }
}
