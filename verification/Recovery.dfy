/**
 Restart and recovery: what an old epoch can still do afterwards (nothing), what survives (results),
 and which identities stay apart.
 */
module Recovery {
  import opened Base
  import opened Spec
  import opened Records
  import opened Lifecycle
  import opened Attempts
  import opened Participants
  import opened Definition
  import opened Reports
  import opened Progress
  import opened Finalization
  import opened Monotone
  import opened Invariants
  import opened Ledger
  import opened System
  import opened Runs
  import opened Safety
  import opened Snapshots
  import opened Restoration
  import opened Identities

  // ---- Nobody is authoritative --------------------------------------------------------------------------------

  ghost predicate NobodyAuthoritative(s: State) {
    forall k, p :: k in s.ensembles && p in s.ensembles[k].participants ==> !p.Authoritative(s.epoch)
  }

  lemma InvalidationLeavesNobody(s: State)
    ensures NobodyAuthoritative(Invalidate(s))
    ensures forall k :: k in Invalidate(s).ensembles ==> !HasOpenExecution(Invalidate(s).ensembles[k])
  {
  }

  /** Even before the invalidation runs, participants of an older epoch hold no authority. */
  lemma LoadLeavesNobody(s: State, saved: Saved)
    requires forall e, p :: e in saved.ensembles && p in e.participants ==> p.epoch <= saved.epoch
    ensures NobodyAuthoritative(Load(s, saved))
  {
    var loaded := Index(Kept(saved.ensembles));
    forall k, p | k in loaded && p in loaded[k].participants ensures p.epoch <= saved.epoch {
      assert loaded[k] in Kept(saved.ensembles);
    }
  }

  /** The steps that begin a new epoch: the second section of a restart, and loading the state file. */
  predicate BeginsEpoch(s: State, op: Op) {
    s.epoch != U64_MAX && (op.OpNextEpoch? || (op.OpLoad? && WrittenBy(s, op.saved)))
  }

  lemma EpochBegins(sys: System, op: Op)
    requires SysInv(sys) && BeginsEpoch(sys.fabric, op)
    ensures Step(sys, op).fabric.epoch == sys.fabric.epoch + 1
    ensures Step(sys, op).fabric.ensembles.Keys == sys.fabric.ensembles.Keys
    ensures forall k :: k in sys.fabric.ensembles ==>
              Step(sys, op).fabric.ensembles[k].participants == sys.fabric.ensembles[k].participants
  {
    if op.OpLoad? {
      LoadedEnsembles(sys, op.saved);
      assert Step(sys, op).fabric == Load(Blank(sys.fabric.config), op.saved);
    } else {
      assert Step(sys, op).fabric == sys.fabric.(epoch := sys.fabric.epoch + 1);
    }
  }

  /** Whoever registered before the new epoch began, at whatever moment, is left behind. */
  lemma NewEpochLeavesNobody(trace: seq<System>, ops: seq<Op>, n: nat)
    requires IsRun(trace, ops) && n < |ops| && BeginsEpoch(trace[n].fabric, ops[n])
    ensures NobodyAuthoritative(trace[n + 1].fabric)
  {
    ReachableIsGood(trace, ops, n);
    assert StepTo(trace, ops, n);
    var s := trace[n].fabric;
    EpochBegins(trace[n], ops[n]);
    forall k, p | k in s.ensembles && p in s.ensembles[k].participants ensures p.epoch <= s.epoch {
      At(trace[n], k);
      var i :| 0 <= i < |s.ensembles[k].participants| && s.ensembles[k].participants[i] == p;
    }
  }

  // ---- Nothing prepared under an older epoch commits -----------------------------------------------------------

  /** A result of an older epoch is refused by every later state, whatever it contains. */
  lemma OlderEpochNeverCommits(s: State, u: State, r: Result)
    requires Advances(s, u) && r.epoch < s.epoch
    ensures !Commit(u, r).published && Commit(u, r).outcome.Err?
  {
  }

  /** A new epoch, by restart or by recovery, fences every result prepared so far, in every continuation of the run. */
  lemma NewEpochFencesPreparedResults(trace: seq<System>, ops: seq<Op>, n: nat, m: nat, id: nat, r: Result)
    requires IsRun(trace, ops) && n < |ops| && BeginsEpoch(trace[n].fabric, ops[n]) && n < m < |trace|
    requires id in trace[n].logs && r in trace[n].logs[id].prepared
    ensures !Commit(trace[m].fabric, r).published && Commit(trace[m].fabric, r).outcome.Err?
  {
    ReachableIsGood(trace, ops, n);
    PreparedUnderPastEpoch(trace[n], id, r);
    assert StepTo(trace, ops, n);
    EpochBegins(trace[n], ops[n]);
    RunsAdvance(trace, ops, n + 1, m);
    OlderEpochNeverCommits(trace[n + 1].fabric, trace[m].fabric, r);
  }

  lemma PreparedUnderPastEpoch(sys: System, id: nat, r: Result)
    requires SysInv(sys) && id in sys.logs && r in sys.logs[id].prepared
    ensures r.epoch <= sys.fabric.epoch
  {
    At(sys, id);
    var i :| 0 <= i < |sys.logs[id].prepared| && sys.logs[id].prepared[i] == r;
  }

  /**
   Recovery is two steps of a run: loading the file the runtime left, then the invalidation.  Together
   they are `recover_state` on a fresh process, and the run goes on under the same invariant.
   */
  lemma RecoveryContinuesTheRun(trace: seq<System>, ops: seq<Op>, n: nat, saved: Saved)
    requires IsRun(trace, ops) && n + 1 < |ops| && ops[n] == OpLoad(saved) && ops[n + 1] == OpInvalidate
    requires WrittenBy(trace[n].fabric, saved) && saved.epoch != U64_MAX
    ensures var s, t := trace[n].fabric, trace[n + 2].fabric;
            && Recover(Blank(s.config), saved) == (t, Ok(s.epoch + 1))
            && trace[n + 2].logs == trace[n].logs
            && Good(trace[n + 2]) && Advances(s, t)
  {
    ReachableIsGood(trace, ops, n + 2);
    RunsAdvance(trace, ops, n, n + 2);
    LoadedThenInvalidated(trace, ops, n, saved);
  }

  lemma LoadedThenInvalidated(trace: seq<System>, ops: seq<Op>, n: nat, saved: Saved)
    requires IsRun(trace, ops) && n + 1 < |ops| && ops[n] == OpLoad(saved) && ops[n + 1] == OpInvalidate
    requires WrittenBy(trace[n].fabric, saved) && saved.epoch != U64_MAX
    ensures trace[n + 2].fabric == Invalidate(Load(Blank(trace[n].fabric.config), saved)) && trace[n + 2].logs == trace[n].logs
  {
    assert StepTo(trace, ops, n) && StepTo(trace, ops, n + 1);
    assert trace[n + 1] == System(Load(Blank(trace[n].fabric.config), saved), trace[n].logs, map[]);
    assert trace[n + 2] == trace[n + 1].(fabric := Invalidate(trace[n + 1].fabric));
  }

  // ---- Committed results survive ------------------------------------------------------------------------------------

  /** What survives a recovery of one ensemble: everything but live authority and the derived reports. */
  ghost predicate Survived(e: Ensemble, f: Ensemble) {
    && f.spec == e.spec && f.superseded == e.superseded && f.history == e.history
    && f.execution.Some? == e.execution.Some?
    && (e.execution.Some? ==>
          && f.execution.value.id == e.execution.value.id && f.execution.value.result == e.execution.value.result
          && f.execution.value.status == (if e.execution.value.status == ExecOpen then ExecRevalidation else e.execution.value.status))
  }

  lemma EnsembleSurvives(kernel: Kernel, e: Ensemble)
    ensures Survived(e, InvalidateEnsemble(Refreshed(kernel, e)))
  {
  }

  lemma RecoveredEnsemble(s: State, saved: Saved, k: nat)
    requires Recover(s, saved).1.Ok? && k in Recover(s, saved).0.ensembles
    ensures k in Index(Kept(saved.ensembles))
    ensures Recover(s, saved).0.ensembles[k] == InvalidateEnsemble(Refreshed(s.config.kernel, Index(Kept(saved.ensembles))[k]))
  {
  }

  /** Recovery restores committed results and history verbatim, and closes every open execution. */
  lemma RecoveryKeepsResults(s: State, saved: Saved, k: nat)
    requires Recover(s, saved).1.Ok? && k in Recover(s, saved).0.ensembles
    ensures k in Index(Kept(saved.ensembles))
    ensures Survived(Index(Kept(saved.ensembles))[k], Recover(s, saved).0.ensembles[k])
  {
    RecoveredEnsemble(s, saved, k);
    EnsembleSurvives(s.config.kernel, Index(Kept(saved.ensembles))[k]);
  }

  // ---- Identities are fresh ---------------------------------------------------------------------------------------------

  /** An allocator at `next` will never hand out `id`, however much it is used. */
  ghost predicate NeverAllocated(next: nat, id: nat) {
    forall later: nat :: later >= next && Allocate(later).Some? ==> Allocate(later).value.0 != id
  }

  lemma NeverAllocatedExactlyWhen(next: nat, id: nat)
    ensures NeverAllocated(next, id) <==> id < next || id >= U64_MAX
  {
    if id >= next && id < U64_MAX {
      assert Allocate(id) == Some((id, id + 1));
    }
  }

  /** Whatever file is recovered, no allocator ever hands out an identity that recovery observes in it. */
  lemma RecoveredIdentitiesStayFresh(s: State, saved: Saved, k: nat, u: State)
    requires Recover(s, saved).1.Ok? && Advances(Recover(s, saved).0, u) && k in Index(Kept(saved.ensembles))
    ensures var e := Index(Kept(saved.ensembles))[k];
            && NeverAllocated(u.ids.ensemble, e.spec.id)
            && (e.execution.Some? ==>
                  && (forall c :: c in e.execution.value.candidates ==> NeverAllocated(u.ids.candidate, c.id))
                  && (forall v :: v in e.execution.value.evaluations ==> NeverAllocated(u.ids.evaluation, v.id))
                  && (e.execution.value.result.Some? ==> NeverAllocated(u.ids.result, e.execution.value.result.value.id)))
  {
    var e := Index(Kept(saved.ensembles))[k];
    AllArePassed(RaiseAll(s.ids, saved.watermarks), Kept(saved.ensembles), e);
    PassedLater(RecoveredIds(s.ids, saved), u.ids, e);
    NeverAllocatedExactlyWhen(u.ids.ensemble, e.spec.id);
    if e.execution.Some? {
      forall c | c in e.execution.value.candidates ensures NeverAllocated(u.ids.candidate, c.id) {
        NeverAllocatedExactlyWhen(u.ids.candidate, c.id);
      }
      forall v | v in e.execution.value.evaluations ensures NeverAllocated(u.ids.evaluation, v.id) {
        NeverAllocatedExactlyWhen(u.ids.evaluation, v.id);
      }
      if e.execution.value.result.Some? {
        NeverAllocatedExactlyWhen(u.ids.result, e.execution.value.result.value.id);
      }
    }
  }

  /**
   No identity is ever handed out twice in a run, however often it goes through restarts and
   recoveries: whatever a state records (ensembles, candidates, planned and accepted evaluations,
   the current result and the retained ones) is out of reach of the allocators from then on.
   */
  lemma IdentitiesAreNeverReused(trace: seq<System>, ops: seq<Op>, n: nat, m: nat, k: nat)
    requires IsRun(trace, ops) && n <= m < |trace| && k in trace[n].fabric.ensembles
    ensures var e, ids := trace[n].fabric.ensembles[k], trace[m].fabric.ids;
            && NeverAllocated(ids.ensemble, e.spec.id)
            && (forall r :: r in e.history ==> NeverAllocated(ids.result, r.id))
            && (e.execution.Some? ==>
                  && (forall c :: c in e.execution.value.candidates ==> NeverAllocated(ids.candidate, c.id))
                  && (forall v :: v in e.execution.value.evaluations ==> NeverAllocated(ids.evaluation, v.id))
                  && (forall q :: q in e.execution.value.pending ==> NeverAllocated(ids.evaluation, q.id))
                  && (e.execution.value.result.Some? ==> NeverAllocated(ids.result, e.execution.value.result.value.id)))
  {
    var s := trace[n].fabric;
    ReachableIsGood(trace, ops, n);
    RunsAdvance(trace, ops, n, m);
    At(trace[n], k);
    assert RecordedAt(s, k);
    var e := s.ensembles[k];
    RecordedIsNeverAllocated(s.ids, trace[m].fabric.ids, trace[n].logs[k].actions, trace[n].logs[k].accepted, e);
  }

  lemma RecordedIsNeverAllocated(ids: Ids, later: Ids, acts: seq<Action>, acc: seq<Acceptance>, e: Ensemble)
    requires Recorded(ids, e) && IdsAdvance(ids, later)
    requires e.execution.Some? ==> SlotsInv(e.spec.retry.maxAttempts, ids.candidate, acts, acc, e.execution.value.candidates)
    ensures NeverAllocated(later.ensemble, e.spec.id)
    ensures forall r :: r in e.history ==> NeverAllocated(later.result, r.id)
    ensures e.execution.Some? ==>
              && (forall c :: c in e.execution.value.candidates ==> NeverAllocated(later.candidate, c.id))
              && (forall v :: v in e.execution.value.evaluations ==> NeverAllocated(later.evaluation, v.id))
              && (forall q :: q in e.execution.value.pending ==> NeverAllocated(later.evaluation, q.id))
              && (e.execution.value.result.Some? ==> NeverAllocated(later.result, e.execution.value.result.value.id))
  {
    NeverAllocatedExactlyWhen(later.ensemble, e.spec.id);
    forall id: nat ensures NeverAllocated(later.result, id) <==> id < later.result || id >= U64_MAX {
      NeverAllocatedExactlyWhen(later.result, id);
    }
    forall id: nat ensures NeverAllocated(later.candidate, id) <==> id < later.candidate || id >= U64_MAX {
      NeverAllocatedExactlyWhen(later.candidate, id);
    }
    forall id: nat ensures NeverAllocated(later.evaluation, id) <==> id < later.evaluation || id >= U64_MAX {
      NeverAllocatedExactlyWhen(later.evaluation, id);
    }
  }

  // ---- Files that understate their watermarks ------------------------------------------------------------------------------

  lemma {:induction false} CandidatesObserveNoOther(ids: Ids, cs: seq<Candidate>)
    ensures ObserveCandidates(ids, cs).evaluation == ids.evaluation && ObserveCandidates(ids, cs).result == ids.result
  {
    if cs != [] {
      CandidatesObserveNoOther(ids, cs[..|cs| - 1]);
    }
  }

  lemma {:induction false} EvaluationsObserved(ids: Ids, es: seq<Evaluation>, id: nat)
    ensures ObserveEvaluations(ids, es).result == ids.result
    ensures id < ObserveEvaluations(ids, es).evaluation <==> id < ids.evaluation || exists v :: v in es && id <= v.id < U64_MAX
  {
    if es != [] {
      var n := |es| - 1;
      EvaluationsObserved(ids, es[..n], id);
      assert forall v :: v in es <==> v in es[..n] || v == es[n];
    }
  }

  /** The ensemble stores an evaluation at or above `id`. */
  ghost predicate StoresEvaluation(e: Ensemble, id: nat) {
    e.execution.Some? && exists v :: v in e.execution.value.evaluations && id <= v.id < U64_MAX
  }

  /** The current result of the ensemble is at or above `id`; its history does not count. */
  predicate StoresResult(e: Ensemble, id: nat) {
    e.execution.Some? && e.execution.value.result.Some? && id <= e.execution.value.result.value.id < U64_MAX
  }

  lemma EnsembleObserved(ids: Ids, e: Ensemble, id: nat)
    ensures id < ObserveEnsemble(ids, e).evaluation <==> id < ids.evaluation || StoresEvaluation(e, id)
    ensures id < ObserveEnsemble(ids, e).result <==> id < ids.result || StoresResult(e, id)
  {
    if e.execution.Some? {
      var x := e.execution.value;
      var named := ids.(ensemble := Observe(ids.ensemble, e.spec.id));
      CandidatesObserveNoOther(named, x.candidates);
      EvaluationsObserved(ObserveCandidates(named, x.candidates), x.evaluations, id);
    }
  }

  lemma {:induction false} ListObserved(ids: Ids, list: seq<Ensemble>, id: nat)
    ensures id < ObserveAll(ids, list).evaluation <==> id < ids.evaluation || exists e :: e in list && StoresEvaluation(e, id)
    ensures id < ObserveAll(ids, list).result <==> id < ids.result || exists e :: e in list && StoresResult(e, id)
  {
    if list != [] {
      var n := |list| - 1;
      ListObserved(ids, list[..n], id);
      EnsembleObserved(ObserveAll(ids, list[..n]), list[n], id);
      assert forall e :: e in list <==> e in list[..n] || e == list[n];
    }
  }

  /** The allocators of the new process have passed the evaluation identity `id`. */
  ghost predicate EvaluationBehind(ids: Ids, saved: Saved, id: nat) {
    || id >= U64_MAX || id < ids.evaluation || id < saved.watermarks.evaluation
    || exists e :: e in Kept(saved.ensembles) && StoresEvaluation(e, id)
  }

  ghost predicate ResultBehind(ids: Ids, saved: Saved, id: nat) {
    || id >= U64_MAX || id < ids.result || id < saved.watermarks.result
    || exists e :: e in Kept(saved.ensembles) && StoresResult(e, id)
  }

  ghost predicate EvaluationNeverReissued(s: State, id: nat) {
    forall u {:trigger Advances(s, u)} :: Advances(s, u) ==> NeverAllocated(u.ids.evaluation, id)
  }

  ghost predicate ResultNeverReissued(s: State, id: nat) {
    forall u {:trigger Advances(s, u)} :: Advances(s, u) ==> NeverAllocated(u.ids.result, id)
  }

  lemma ReissueDependsOnAllocators(s: State, id: nat)
    ensures EvaluationNeverReissued(s, id) <==> id < s.ids.evaluation || id >= U64_MAX
    ensures ResultNeverReissued(s, id) <==> id < s.ids.result || id >= U64_MAX
  {
    AdvancesReflexive(s);
    NeverAllocatedExactlyWhen(s.ids.evaluation, id);
    NeverAllocatedExactlyWhen(s.ids.result, id);
    forall u | Advances(s, u)
      ensures NeverAllocated(u.ids.evaluation, id) <==> id < u.ids.evaluation || id >= U64_MAX
      ensures NeverAllocated(u.ids.result, id) <==> id < u.ids.result || id >= U64_MAX
    {
      NeverAllocatedExactlyWhen(u.ids.evaluation, id);
      NeverAllocatedExactlyWhen(u.ids.result, id);
    }
  }

  /**
   Recovery from any decoded file at all: an evaluation identity, of a lost plan for instance, is
   never handed out again exactly when it lies below the allocator of the recovering process, below
   the watermark of the file, or not above some evaluation the file stores.
   */
  lemma EvaluationIdentityIsFreshExactlyWhen(s: State, saved: Saved, id: nat)
    requires Recover(s, saved).1.Ok? && saved.watermarks.evaluation <= U64_MAX
    ensures EvaluationNeverReissued(Recover(s, saved).0, id) <==> EvaluationBehind(s.ids, saved, id)
  {
    ReissueDependsOnAllocators(Recover(s, saved).0, id);
    ListObserved(RaiseAll(s.ids, saved.watermarks), Kept(saved.ensembles), id);
  }

  /** The same for result identities: the retained results in the histories play no part. */
  lemma ResultIdentityIsFreshExactlyWhen(s: State, saved: Saved, id: nat)
    requires Recover(s, saved).1.Ok? && saved.watermarks.result <= U64_MAX
    ensures ResultNeverReissued(Recover(s, saved).0, id) <==> ResultBehind(s.ids, saved, id)
  {
    ReissueDependsOnAllocators(Recover(s, saved).0, id);
    ListObserved(RaiseAll(s.ids, saved.watermarks), Kept(saved.ensembles), id);
  }

  /** A file that understates its watermarks: identity 1, whoever bore it, is the next one handed out. */
  lemma LostPlanIsReissued(config: Config)
    ensures var t := Recover(Blank(config), Saved(1, FIRST_IDS, NO_COUNTERS, [])).0;
            Allocate(t.ids.evaluation) == Some((1, 2)) && !EvaluationNeverReissued(t, 1)
  {
    var saved := Saved(1, FIRST_IDS, NO_COUNTERS, []);
    assert Kept([]) == [];
    EvaluationIdentityIsFreshExactlyWhen(Blank(config), saved, 1);
  }

  /** The same for a retained result: it is recovered, and its identity handed out again. */
  lemma RetainedResultIsReissued(config: Config, e: Ensemble, r: Result)
    requires e.execution.None? && e.history == [r] && r.id == 1
    ensures var t := Recover(Blank(config), Saved(1, FIRST_IDS, NO_COUNTERS, [e])).0;
            && e.spec.id in t.ensembles && t.ensembles[e.spec.id].history == [r]
            && Allocate(t.ids.result) == Some((r.id, 2)) && !ResultNeverReissued(t, r.id)
  {
    var saved := Saved(1, FIRST_IDS, NO_COUNTERS, [e]);
    assert [e][..0] == [];
    assert Kept([e]) == [e];
    assert Index([e]) == map[e.spec.id := e];
    ResultIdentityIsFreshExactlyWhen(Blank(config), saved, 1);
    ListObserved(RaiseAll(FIRST_IDS, FIRST_IDS), [e], 1);
    ListObserved(RaiseAll(FIRST_IDS, FIRST_IDS), [e], 0);
  }
}
