/** State files: what the runtime writes, and how recovery rebuilds a runtime from a decoded one. */
module Snapshots {
  import opened Base
  import opened Spec
  import opened Records
  import opened Participants
  import opened Reports

  /** A decoded state file: allocator watermarks, counters and the ensembles in file order. */
  datatype Saved = Saved(epoch: nat, watermarks: Ids, counters: Counters, ensembles: seq<Ensemble>)

  // ---- What a state file holds ---------------------------------------------------------------------------

  /** An execution as it is written: neither its plan nor its derived reports, only their number. */
  function PersistedExecution(x: Execution): Execution {
    x.(pending := [], reports := NO_REPORTS.(generation := x.reports.generation))
  }

  function Persisted(e: Ensemble): Ensemble {
    match e.execution
    case None => e
    case Some(x) => e.(execution := Some(PersistedExecution(x)))
  }

  /** The state file the runtime writes in state `s`. */
  predicate WrittenBy(s: State, saved: Saved) {
    && saved.epoch == s.epoch && saved.watermarks == s.ids && saved.counters == s.counters
    && (forall k :: k in s.ensembles ==> Persisted(s.ensembles[k]) in saved.ensembles)
    && (forall e :: e in saved.ensembles ==> e.spec.id in s.ensembles && e == Persisted(s.ensembles[e.spec.id]))
  }

  // ---- Which ensembles are loaded ------------------------------------------------------------------------

  /** The first ensemble of each identity is the one that is loaded. */
  function Kept(list: seq<Ensemble>): (kept: seq<Ensemble>)
    ensures forall e :: e in kept ==> e in list
  {
    if list == [] then []
    else
      var n := |list| - 1;
      var front := Kept(list[..n]);
      if exists e :: e in front && e.spec.id == list[n].spec.id then front else front + [list[n]]
  }

  function Index(list: seq<Ensemble>): (m: map<nat, Ensemble>)
    ensures forall k :: k in m ==> m[k] in list && m[k].spec.id == k
    ensures forall e :: e in list ==> e.spec.id in m
  {
    if list == [] then map[]
    else Index(list[..|list| - 1])[list[|list| - 1].spec.id := list[|list| - 1]]
  }

  /** Every identity in the file is loaded. */
  lemma {:induction false} KeptCovers(list: seq<Ensemble>, e: Ensemble)
    requires e in list
    ensures exists f :: f in Kept(list) && f.spec.id == e.spec.id
  {
    var n := |list| - 1;
    var front := Kept(list[..n]);
    if e in list[..n] {
      KeptCovers(list[..n], e);
      var f :| f in front && f.spec.id == e.spec.id;
      assert f in Kept(list);
    } else if exists f :: f in front && f.spec.id == list[n].spec.id {
      assert e == list[n];
    } else {
      assert list[n] in front + [list[n]];
    }
  }

  // ---- Identities ---------------------------------------------------------------------------------------

  function ObserveCandidates(ids: Ids, cs: seq<Candidate>): Ids {
    if cs == [] then ids
    else
      var n := |cs| - 1;
      var before := ObserveCandidates(ids, cs[..n]);
      before.(candidate := Observe(before.candidate, cs[n].id),
              sequence := Observe(Observe(before.sequence, cs[n].trace.receivedSequence), cs[n].trace.dispatchSequence))
  }

  function ObserveEvaluations(ids: Ids, es: seq<Evaluation>): Ids {
    if es == [] then ids
    else
      var n := |es| - 1;
      var before := ObserveEvaluations(ids, es[..n]);
      before.(evaluation := Observe(before.evaluation, es[n].id), sequence := Observe(before.sequence, es[n].receivedSequence))
  }

  function ObserveResult(ids: Ids, result: Option<Result>): Ids {
    match result
    case None => ids
    case Some(r) => ids.(result := Observe(ids.result, r.id), sequence := Observe(ids.sequence, r.commitSequence))
  }

  function ObserveEnsemble(ids: Ids, e: Ensemble): Ids {
    var named := ids.(ensemble := Observe(ids.ensemble, e.spec.id));
    match e.execution
    case None => named
    case Some(x) => ObserveResult(ObserveEvaluations(ObserveCandidates(named, x.candidates), x.evaluations), x.result)
  }

  function ObserveAll(ids: Ids, list: seq<Ensemble>): Ids {
    if list == [] then ids else ObserveEnsemble(ObserveAll(ids, list[..|list| - 1]), list[|list| - 1])
  }

  function Raise(next: nat, watermark: nat): nat {
    if watermark != 0 then Observe(next, watermark - 1) else next
  }

  function RaiseAll(ids: Ids, w: Ids): Ids {
    Ids(Raise(ids.ensemble, w.ensemble), Raise(ids.candidate, w.candidate), Raise(ids.evaluation, w.evaluation),
        Raise(ids.result, w.result), Raise(ids.sequence, w.sequence))
  }

  function RecoveredIds(ids: Ids, saved: Saved): Ids {
    ObserveAll(RaiseAll(ids, saved.watermarks), Kept(saved.ensembles))
  }

  // ---- Recovery ---------------------------------------------------------------------------------------------

  /** Reports are derived again from the recovered evidence; the committed result is restored verbatim. */
  function Refreshed(kernel: Kernel, e: Ensemble): Ensemble {
    match e.execution
    case None => e
    case Some(x) => e.(execution := Some(WithReports(x, kernel(e.spec, e.superseded, e.participants, x))))
  }

  /** The first locked section of recovery: everything but the invalidation. */
  function Load(s: State, saved: Saved): State {
    var loaded := Index(Kept(saved.ensembles));
    State(s.config, saved.epoch + 1, RecoveredIds(s.ids, saved), saved.counters,
          map k | k in loaded :: Refreshed(s.config.kernel, loaded[k]))
  }

  function Recover(s: State, saved: Saved): (State, Outcome<nat>) {
    if saved.epoch == U64_MAX then (s, Err(ResourceLimitExceeded))
    else (Invalidate(Load(s, saved)), Ok(saved.epoch + 1))
  }

  method ObserveIdentities(ids0: Ids, list: seq<Ensemble>) returns (ids: Ids)
    ensures ids == ObserveAll(ids0, list)
  {
    ids := ids0;
    for i := 0 to |list|
      invariant ids == ObserveAll(ids0, list[..i])
    {
      assert list[..i + 1][..i] == list[..i];
      ids := ids.(ensemble := Observe(ids.ensemble, list[i].spec.id));
      if list[i].execution.Some? {
        var x := list[i].execution.value;
        ids := ObserveResult(ObserveEvaluations(ObserveCandidates(ids, x.candidates), x.evaluations), x.result);
      }
    }
    assert list[..|list|] == list;
  }

  // ---- A process starts over ---------------------------------------------------------------------------------

  const FIRST_IDS: Ids := Ids(1, 1, 1, 1, 1)

  /** A process that has just started. */
  function Blank(config: Config): State {
    State(config, 1, FIRST_IDS, NO_COUNTERS, map[])
  }

  /** The second locked section of a restart; the last epoch is never left. */
  function NextEpoch(s: State): (State, Outcome<nat>) {
    if s.epoch == U64_MAX then (s, Err(ResourceLimitExceeded)) else (s.(epoch := s.epoch + 1), Ok(s.epoch + 1))
  }

  /** A restart with nothing between its sections: refused at the last epoch before anything changes. */
  function Restart(s: State): (State, Outcome<nat>) {
    if s.epoch == U64_MAX then (s, Err(ResourceLimitExceeded)) else NextEpoch(Invalidate(s))
  }

  // ---- Reading back what was written ---------------------------------------------------------------------

  /** Loading a file the runtime wrote restores every ensemble as it was persisted. */
  lemma WrittenIsLoaded(s: State, saved: Saved)
    requires WrittenBy(s, saved) && forall k :: k in s.ensembles ==> s.ensembles[k].spec.id == k
    ensures Index(Kept(saved.ensembles)) == map k | k in s.ensembles :: Persisted(s.ensembles[k])
  {
    var loaded := Index(Kept(saved.ensembles));
    forall k | k in s.ensembles ensures k in loaded {
      KeptCovers(saved.ensembles, Persisted(s.ensembles[k]));
      var f :| f in Kept(saved.ensembles) && f.spec.id == k;
    }
    forall k | k in loaded ensures k in s.ensembles && loaded[k] == Persisted(s.ensembles[k]) {
      assert loaded[k] in Kept(saved.ensembles);
    }
  }
}
