/** What loading a state file does to the allocators and to the invariant of an ensemble. */
module Restoration {
  import opened Base
  import opened Spec
  import opened Records
  import opened Participants
  import opened Progress
  import opened Monotone
  import opened Invariants
  import opened Ledger
  import opened Publishing
  import opened Snapshots
  import opened Reports

  // ---- Allocators ------------------------------------------------------------------------------------------

  lemma {:induction false} CandidatesArePassed(ids: Ids, cs: seq<Candidate>)
    ensures IdsAdvance(ids, ObserveCandidates(ids, cs))
    ensures forall c :: c in cs ==> c.id < ObserveCandidates(ids, cs).candidate || c.id >= U64_MAX
  {
    if cs != [] {
      var n := |cs| - 1;
      CandidatesArePassed(ids, cs[..n]);
      assert forall c :: c in cs ==> c in cs[..n] || c == cs[n];
    }
  }

  lemma {:induction false} EvaluationsArePassed(ids: Ids, es: seq<Evaluation>)
    ensures IdsAdvance(ids, ObserveEvaluations(ids, es))
    ensures forall e :: e in es ==> e.id < ObserveEvaluations(ids, es).evaluation || e.id >= U64_MAX
  {
    if es != [] {
      var n := |es| - 1;
      EvaluationsArePassed(ids, es[..n]);
      assert forall e :: e in es ==> e in es[..n] || e == es[n];
    }
  }

  /** Every identity recorded in an ensemble lies behind the allocators. */
  ghost predicate Passed(ids: Ids, e: Ensemble) {
    && (e.spec.id < ids.ensemble || e.spec.id >= U64_MAX)
    && (e.execution.Some? ==>
          && (forall c :: c in e.execution.value.candidates ==> c.id < ids.candidate || c.id >= U64_MAX)
          && (forall v :: v in e.execution.value.evaluations ==> v.id < ids.evaluation || v.id >= U64_MAX)
          && (e.execution.value.result.Some? ==>
                e.execution.value.result.value.id < ids.result || e.execution.value.result.value.id >= U64_MAX))
  }

  lemma EnsembleIsPassed(ids: Ids, e: Ensemble)
    ensures IdsAdvance(ids, ObserveEnsemble(ids, e)) && Passed(ObserveEnsemble(ids, e), e)
  {
    if e.execution.Some? {
      var x := e.execution.value;
      var named := ids.(ensemble := Observe(ids.ensemble, e.spec.id));
      CandidatesArePassed(named, x.candidates);
      EvaluationsArePassed(ObserveCandidates(named, x.candidates), x.evaluations);
    }
  }

  lemma PassedLater(a: Ids, b: Ids, e: Ensemble)
    requires Passed(a, e) && IdsAdvance(a, b)
    ensures Passed(b, e)
  {
  }

  lemma {:induction false} AllArePassed(ids: Ids, list: seq<Ensemble>, e: Ensemble)
    requires e in list
    ensures Passed(ObserveAll(ids, list), e)
  {
    var n := |list| - 1;
    EnsembleIsPassed(ObserveAll(ids, list[..n]), list[n]);
    if e != list[n] {
      assert e in list[..n];
      AllArePassed(ids, list[..n], e);
      PassedLater(ObserveAll(ids, list[..n]), ObserveAll(ids, list), e);
    }
  }

  lemma {:induction false} ObserveAllAdvances(ids: Ids, list: seq<Ensemble>)
    ensures IdsAdvance(ids, ObserveAll(ids, list))
  {
    if list != [] {
      ObserveAllAdvances(ids, list[..|list| - 1]);
      EnsembleIsPassed(ObserveAll(ids, list[..|list| - 1]), list[|list| - 1]);
    }
  }

  lemma RaisedReaches(next: nat, watermark: nat)
    requires next >= 1 && watermark <= U64_MAX
    ensures Raise(next, watermark) == (if watermark > next then watermark else next)
  {
  }

  /** A file written with its allocators as watermarks never sets one back. */
  lemma LoadedIdsReach(s: State, saved: Saved)
    requires WrittenBy(s, saved) && InRange(s.ids)
    ensures IdsAdvance(s.ids, RecoveredIds(FIRST_IDS, saved))
  {
    RaisedReaches(1, s.ids.ensemble);
    RaisedReaches(1, s.ids.candidate);
    RaisedReaches(1, s.ids.evaluation);
    RaisedReaches(1, s.ids.result);
    RaisedReaches(1, s.ids.sequence);
    ObserveAllAdvances(RaiseAll(FIRST_IDS, saved.watermarks), Kept(saved.ensembles));
  }

  // ---- Ensembles ---------------------------------------------------------------------------------------------

  lemma PersistedExecutionKeeps(spec: RuntimeSpec, next: nat, acts: seq<Action>, acc: seq<Acceptance>, x: Execution)
    requires ExecInv(spec, next, acts, acc, x)
    ensures ExecInv(spec, next, acts, acc, PersistedExecution(x)) && ExecutionAdvances(x, PersistedExecution(x))
  {
    assert Plan(spec, PersistedExecution(x)) == Plan(spec, x);
  }

  /** An ensemble as it is loaded: persisted, and its reports derived again. */
  function Reloaded(kernel: Kernel, e: Ensemble): Ensemble {
    Refreshed(kernel, Persisted(e))
  }

  lemma ReloadingKeeps(epoch: nat, ids: Ids, log: Log, key: nat, e: Ensemble, kernel: Kernel)
    requires EnsInv(epoch, ids, log, key, e)
    ensures EnsInv(epoch, ids, log, key, Reloaded(kernel, e)) && EnsembleAdvances(e, Reloaded(kernel, e))
  {
    if e.execution.Some? {
      var x := e.execution.value;
      var y := PersistedExecution(x);
      var reports := kernel(e.spec, e.superseded, e.participants, y);
      PersistedExecutionKeeps(e.spec, ids.candidate, log.actions, log.accepted, x);
      ReportsKeep(e.spec, ids.candidate, log.actions, log.accepted, y, reports);
      ExecutionAdvancesTransitive(x, y, WithReports(y, reports));
      ExecutionMoves(epoch, ids, log, key, e, WithReports(y, reports));
      assert Reloaded(kernel, e) == e.(execution := Some(WithReports(y, reports)));
      ReloadedAdvances(e, WithReports(y, reports));
    } else {
      assert Reloaded(kernel, e) == e;
      EnsembleAdvancesReflexive(e);
    }
  }

  lemma ReloadedAdvances(e: Ensemble, y: Execution)
    requires e.execution.Some? && ExecutionAdvances(e.execution.value, y) && y.result == e.execution.value.result
    ensures EnsembleAdvances(e, e.(execution := Some(y)))
  {
  }
}
