/** Whole runs: the invariant holds in every reachable state, and every state only moves forward. */
module Runs {
  import opened Base
  import opened Records
  import opened Attempts
  import opened Participants
  import opened Definition
  import opened Ingest
  import opened Progress
  import opened Finalization
  import opened Monotone
  import opened Invariants
  import opened Advancing
  import opened Ledger
  import opened System
  import opened Snapshots
  import opened Identities
  import Reports

  // ---- Steps move forward -----------------------------------------------------------------------------

  lemma AdvanceAdvances(sys: System, id: nat, generation: nat)
    requires SysInv(sys)
    ensures Advances(sys.fabric, Advance(sys.fabric, id, generation).state)
  {
    var s := sys.fabric;
    var v := Advance(s, id, generation);
    var kind := AdvanceCases(s, id, generation);
    match kind {
      case Nothing =>
        AdvancesReflexive(s);
      case Superseding =>
        var x := s.ensembles[id].execution.value;
        assert ExecutionAdvances(x, SupersedeOpen(x));
        WithExecutionAdvances(s, id, SupersedeOpen(x), s.ids);
      case Running(r) =>
        At(sys, id);
        var e := s.ensembles[id];
        AdvanceRunKeeps(s, sys.logs[id], id, e, r);
        OnlyMarkedAdvances(e.participants, r.participants);
        SameGenerationAdvances(e, r.participants, r.x);
        PutAdvances(s, id, e.(participants := r.participants, execution := Some(r.x)), r.ids, v.state.counters);
    }
  }

  lemma ManagingAdvances(sys: System, op: Op)
    requires Managing(op)
    ensures Advances(sys.fabric, Step(sys, op).fabric)
  {
    var s := sys.fabric;
    if op.OpDefine? {
      DefineAdvances(s, op.asked, op.digest);
    } else if op.OpSupersede? {
      SupersedeAdvances(s, op.ensemble, op.generation);
    } else if op.OpOpen? {
      OpenAdvances(s, op.ensemble, op.generation);
    } else if op.OpCancel? {
      CancelAdvances(s, op.ensemble, op.generation);
    } else if op.OpRegister? {
      RegisterAdvances(s, op.registration);
    } else if op.OpReportFailure? {
      ReportFailureAdvances(s, op.authority, op.kind);
    } else {
      InvalidateAdvances(s);
    }
  }

  lemma WorkingAdvances(sys: System, op: Op)
    requires SysInv(sys) && Working(op)
    ensures Advances(sys.fabric, Step(sys, op).fabric)
  {
    var s := sys.fabric;
    if op.OpAdvance? {
      AdvanceAdvances(sys, op.ensemble, op.generation);
    } else if op.OpSubmitCandidate? {
      SubmitCandidateAdvances(s, op.candidate, op.payload);
    } else if op.OpSubmitFailure? {
      SubmitFailureAdvances(s, op.candidate, op.rawKind);
    } else if op.OpSubmitAbstention? {
      SubmitAbstentionAdvances(s, op.candidate);
    } else {
      SubmitEvaluationAdvances(s, op.submission);
    }
  }

  lemma ConcludingAdvances(sys: System, op: Op)
    requires Concluding(op)
    ensures Advances(sys.fabric, Step(sys, op).fabric)
  {
    var s := sys.fabric;
    AdvancesReflexive(s);
    if op.OpPrepare? {
      PrepareAdvances(s, op.ensemble, op.generation);
    } else if op.OpCommit? {
      if op.index < |LogOf(sys, op.key).prepared| { CommitAdvances(s, LogOf(sys, op.key).prepared[op.index]); }
    } else if op.OpFinalizePrepare? {
      var f := FinalizerOf(sys, op.thread);
      if f.Checked? { PrepareAdvances(s, f.ensemble, f.generation); }
    } else if op.OpFinalizeCommit? {
      var f := FinalizerOf(sys, op.thread);
      if f.Ready? { CommitAdvances(s, f.result); }
    }
  }

  /** Every step moves the runtime forward, loading a state file included. */
  lemma StepAdvances(sys: System, op: Op)
    requires SysInv(sys) && InRange(sys.fabric.ids)
    ensures Advances(sys.fabric, Step(sys, op).fabric)
  {
    if Managing(op) {
      ManagingAdvances(sys, op);
    } else if Working(op) {
      WorkingAdvances(sys, op);
    } else if Restarting(op) {
      RestartingKeeps(sys, op);
    } else {
      ConcludingAdvances(sys, op);
    }
  }

  // ---- Runs -----------------------------------------------------------------------------------------------

  ghost predicate Good(sys: System) {
    SysInv(sys) && Configured(sys) && Identified(sys.fabric)
  }

  lemma StepIsGood(sys: System, op: Op)
    requires Good(sys)
    ensures Good(Step(sys, op)) && Advances(sys.fabric, Step(sys, op).fabric)
  {
    StepKeeps(sys, op);
    StepIdentifies(sys, op);
    StepAdvances(sys, op);
  }

  /** Every reachable state satisfies the invariant. */
  lemma {:induction false} ReachableIsGood(trace: seq<System>, ops: seq<Op>, i: nat)
    requires IsRun(trace, ops) && i < |trace|
    ensures Good(trace[i])
  {
    if i == 0 {
      InitialHolds(trace[0]);
    } else {
      ReachableIsGood(trace, ops, i - 1);
      StepIsGood(trace[i - 1], ops[i - 1]);
      assert StepTo(trace, ops, i - 1);
    }
  }

  /** Along every run, later states have only moved forward. */
  lemma {:induction false} RunsAdvance(trace: seq<System>, ops: seq<Op>, i: nat, j: nat)
    requires IsRun(trace, ops) && i <= j < |trace|
    ensures Advances(trace[i].fabric, trace[j].fabric)
  {
    if i == j {
      AdvancesReflexive(trace[i].fabric);
    } else {
      RunsAdvance(trace, ops, i, j - 1);
      ReachableIsGood(trace, ops, j - 1);
      StepIsGood(trace[j - 1], ops[j - 1]);
      assert StepTo(trace, ops, j - 1);
      AdvancesTransitive(trace[i].fabric, trace[j - 1].fabric, trace[j].fabric);
    }
  }
}
