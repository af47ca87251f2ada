/** A second successful `advance` with no step in between returns no actions. */
module Idempotence {
  import opened Base
  import opened Spec
  import opened Records
  import opened Lifecycle
  import opened Participants
  import opened Definition
  import opened Reports
  import opened Progress
  import opened Monotone
  import opened Invariants
  import opened Advancing
  import opened Ledger
  import opened System
  import opened Runs
  import opened Settling

  /** What a successful advance of an open execution stores. */
  lemma OpenAdvance(s: State, id: nat, generation: nat)
    requires GenerationFault(s, id, generation).None? && HasOpenExecution(s.ensembles[id]) && !s.ensembles[id].superseded
    ensures var e, v := s.ensembles[id], Advance(s, id, generation);
            var w := AdvanceOpen(ContextOf(s, e), StartOf(s, e));
            && v.performed == w.run.actions
            && v.outcome == (if w.Proceed? then Ok(w.run.actions) else Err(w.error))
            && v.state == Store(s, id, w.run).(counters := v.state.counters)
  {
  }

  lemma AgainFrom(s: State, id: nat, e: Ensemble, t: State, r: Run)
    requires id in s.ensembles && e == s.ensembles[id] && e.execution.Some?
    requires t == Store(s, id, r).(counters := t.counters)
    ensures StartOf(t, t.ensembles[id]) == r.(actions := [], progress := false)
    ensures ContextOf(t, t.ensembles[id]) == ContextOf(s, e)
    ensures t.ensembles[id] == e.(participants := r.participants, execution := Some(r.x))
  {
  }

  lemma OpenAdvanceIsSilent(sys: System, id: nat, generation: nat)
    requires Good(sys) && GenerationFault(sys.fabric, id, generation).None?
    requires HasOpenExecution(sys.fabric.ensembles[id]) && !sys.fabric.ensembles[id].superseded
    requires Advance(sys.fabric, id, generation).outcome.Ok?
    ensures var t := Advance(sys.fabric, id, generation).state;
            Advance(t, id, generation).outcome == Ok([]) && Advance(t, id, generation).performed == []
  {
    var s := sys.fabric;
    var e := s.ensembles[id];
    var ctx, start := ContextOf(s, e), StartOf(s, e);
    var t := Advance(s, id, generation).state;
    OpenAdvance(s, id, generation);
    var r := AdvanceOpen(ctx, start).run;
    AgainFrom(s, id, e, t, r);
    OpenAdvanceTwice(sys, id, e, r, StartOf(t, t.ensembles[id]));
    OpenAdvance(t, id, generation);
  }

  lemma OpenAdvanceTwice(sys: System, id: nat, e: Ensemble, r: Run, again: Run)
    requires Good(sys) && id in sys.fabric.ensembles && e == sys.fabric.ensembles[id] && e.execution.Some?
    requires AdvanceOpen(ContextOf(sys.fabric, e), StartOf(sys.fabric, e)) == Proceed(r) && again == r.(actions := [], progress := false)
    ensures var w := AdvanceOpen(ContextOf(sys.fabric, e), again);
            w.Proceed? && w.run.actions == []
    ensures r.x.status == e.execution.value.status
  {
    var s := sys.fabric;
    var ctx, start := ContextOf(s, e), StartOf(s, e);
    At(sys, id);
    StartHolds(s, sys.logs[id], id, e);
    AdvanceOpenKeeps(ctx, sys.logs[id].actions, sys.logs[id].accepted, start);
    AdvanceTwice(ctx, sys.logs[id].actions, sys.logs[id].accepted, start, again);
  }

  lemma ClosedAdvanceIsSilent(s: State, id: nat, generation: nat)
    requires Advance(s, id, generation).outcome.Ok?
    requires id in s.ensembles && HasOpenExecution(s.ensembles[id]) ==> s.ensembles[id].superseded
    ensures var t := Advance(s, id, generation).state;
            Advance(t, id, generation).outcome == Ok([]) && Advance(t, id, generation).performed == []
  {
    var kind := AdvanceCases(s, id, generation);
    if kind.Running? {
      CancellationKeepsFlags(ContextOf(s, s.ensembles[id]), StartOf(s, s.ensembles[id]));
    }
  }

  lemma {:induction false} CancelFromKeepsFlags(key: ExecutionKey, r: Run, k: nat)
    ensures var w := CancelFrom(key, r, k);
            w.x.status == r.x.status && w.x.cancellationEmitted == r.x.cancellationEmitted
    decreases |r.x.candidates| - k
  {
    if k < |r.x.candidates| {
      if InFlight(r.x.candidates[k].state) {
        CancelFromKeepsFlags(key, CancelledAt(key, r, k), k + 1);
      } else {
        CancelFromKeepsFlags(key, r, k + 1);
      }
    }
  }

  lemma CancellationKeepsFlags(ctx: Context, r: Run)
    ensures EmitCancellation(ctx, r).x.status == r.x.status && EmitCancellation(ctx, r).x.cancellationEmitted
  {
    CancelFromKeepsFlags(KeyOf(ctx, r.x), r.(x := r.x.(cancellationEmitted := true)), 0);
  }

  /**
   In every reachable state, whatever the execution is going through: if an advance succeeds, the
   same advance repeated at once succeeds with no actions at all.
   */
  lemma SecondAdvanceIsSilent(trace: seq<System>, ops: seq<Op>, n: nat, id: nat, generation: nat)
    requires IsRun(trace, ops) && n < |trace| && Advance(trace[n].fabric, id, generation).outcome.Ok?
    ensures var t := Advance(trace[n].fabric, id, generation).state;
            Advance(t, id, generation).outcome == Ok([]) && Advance(t, id, generation).performed == []
  {
    var s := trace[n].fabric;
    if id in s.ensembles && HasOpenExecution(s.ensembles[id]) && !s.ensembles[id].superseded {
      ReachableIsGood(trace, ops, n);
      OpenAdvanceIsSilent(trace[n], id, generation);
    } else {
      ClosedAdvanceIsSilent(s, id, generation);
    }
  }
}
