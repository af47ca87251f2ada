/**
 What every operation keeps: a preorder on runtime states.  Generations, execution identities,
 epochs and candidate slots only move forward; results, terminal states and content never change.
 */
module Monotone {
  import opened Base
  import opened Spec
  import opened Lifecycle
  import opened Records
  import opened Attempts
  import opened Participants
  import opened Definition
  import opened Ingest
  import opened Reports
  import opened Progress
  import opened Finalization

  /** Content that was accepted: it can still be selected or rejected, but never withdrawn. */
  predicate Answerable(s: CandidateState) {
    s == Valid || s == Selected || s == Rejected
  }

  predicate Live(p: Participant) {
    p.registered && p.status == StatusCurrent
  }

  /** Within one generation the incarnation is fixed, and lost standing does not come back. */
  ghost predicate ParticipantAdvances(p: Participant, q: Participant) {
    && q.id == p.id && q.declaration == p.declaration
    && p.generation <= q.generation
    && (p.workerBoot != 0 ==> q.workerBoot != 0)
    && (p.workerBoot != 0 && q.generation == p.generation ==>
          && q.worker == p.worker && q.workerBoot == p.workerBoot && q.epoch == p.epoch
          && (Live(q) ==> Live(p)))
  }

  ghost predicate CandidateAdvances(c: Candidate, d: Candidate) {
    && d.id == c.id && d.participant == c.participant && d.stage == c.stage && d.role == c.role && d.fallback == c.fallback
    && c.generation <= d.generation
    && c.attemptsUsed <= d.attemptsUsed
    && (!InFlight(c.state) ==> !InFlight(d.state) && d.generation == c.generation)
    && (Answerable(c.state) ==> Answerable(d.state) && d.payload == c.payload)
  }

  ghost predicate CandidatesAdvance(cs: seq<Candidate>, ds: seq<Candidate>) {
    |cs| <= |ds| && forall i :: 0 <= i < |cs| ==> CandidateAdvances(cs[i], ds[i])
  }

  /** Accepted evaluations stay; at most their currency is withdrawn. */
  ghost predicate EvaluationsAdvance(es: seq<Evaluation>, fs: seq<Evaluation>) {
    |es| <= |fs| && forall i :: 0 <= i < |es| ==> fs[i] == es[i] || fs[i] == es[i].(current := false)
  }

  /** No result, and a status that forbids one. */
  predicate Blocked(x: Execution) {
    x.result.None?
    && (x.cancellationRequested || x.status == ExecCancelled || x.status == ExecSuperseded || x.status == ExecRevalidation)
  }

  ghost predicate ExecutionAdvances(x: Execution, y: Execution) {
    && y.id == x.id && y.epoch == x.epoch && y.attemptGeneration == x.attemptGeneration
    && CandidatesAdvance(x.candidates, y.candidates)
    && EvaluationsAdvance(x.evaluations, y.evaluations)
    && (x.result.Some? ==> y.result == x.result)
    && (x.status != ExecOpen ==> y.status != ExecOpen)
    && (Blocked(x) ==> Blocked(y))
  }

  ghost predicate ParticipantsAdvance(ps: seq<Participant>, qs: seq<Participant>) {
    |qs| == |ps| && forall i :: 0 <= i < |ps| ==> ParticipantAdvances(ps[i], qs[i])
  }

  /** Either a later generation, or the same one with participants and execution moved forward. */
  ghost predicate EnsembleAdvances(e: Ensemble, f: Ensemble) {
    || e.spec.generation < f.spec.generation
    || (&& f.spec == e.spec
        && ParticipantsAdvance(e.participants, f.participants)
        && (e.superseded ==> f.superseded)
        && (e.execution.Some? ==>
              && f.execution.Some?
              && (|| (e.execution.value.id < f.execution.value.id && !e.superseded)
                  || (&& ExecutionAdvances(e.execution.value, f.execution.value)
                      && (e.superseded && e.execution.value.result.None? ==> f.execution.value.result.None?)))))
  }

  ghost predicate IdsAdvance(a: Ids, b: Ids) {
    a.ensemble <= b.ensemble && a.candidate <= b.candidate && a.evaluation <= b.evaluation && a.result <= b.result
    && a.sequence <= b.sequence
  }

  ghost predicate Advances(s: State, t: State) {
    && t.config == s.config
    && s.epoch <= t.epoch
    && IdsAdvance(s.ids, t.ids)
    && forall k :: k in s.ensembles ==> k in t.ensembles && EnsembleAdvances(s.ensembles[k], t.ensembles[k])
  }

  // ---- It is a preorder -----------------------------------------------------------------------

  lemma CandidatesAdvanceTransitive(a: seq<Candidate>, b: seq<Candidate>, c: seq<Candidate>)
    requires CandidatesAdvance(a, b) && CandidatesAdvance(b, c)
    ensures CandidatesAdvance(a, c)
  {
    forall i | 0 <= i < |a| ensures CandidateAdvances(a[i], c[i]) {
      assert CandidateAdvances(a[i], b[i]) && CandidateAdvances(b[i], c[i]);
    }
  }

  lemma ExecutionAdvancesTransitive(x: Execution, y: Execution, z: Execution)
    requires ExecutionAdvances(x, y) && ExecutionAdvances(y, z)
    ensures ExecutionAdvances(x, z)
  {
    CandidatesAdvanceTransitive(x.candidates, y.candidates, z.candidates);
  }

  lemma ParticipantsAdvanceTransitive(a: seq<Participant>, b: seq<Participant>, c: seq<Participant>)
    requires ParticipantsAdvance(a, b) && ParticipantsAdvance(b, c)
    ensures ParticipantsAdvance(a, c)
  {
    forall i | 0 <= i < |a| ensures ParticipantAdvances(a[i], c[i]) {
      assert ParticipantAdvances(a[i], b[i]) && ParticipantAdvances(b[i], c[i]);
    }
  }

  lemma EnsembleAdvancesTransitive(e: Ensemble, f: Ensemble, g: Ensemble)
    requires EnsembleAdvances(e, f) && EnsembleAdvances(f, g)
    ensures EnsembleAdvances(e, g)
  {
    if e.spec.generation == f.spec.generation == g.spec.generation {
      ParticipantsAdvanceTransitive(e.participants, f.participants, g.participants);
      if e.execution.Some? && e.execution.value.id == f.execution.value.id == g.execution.value.id {
        ExecutionAdvancesTransitive(e.execution.value, f.execution.value, g.execution.value);
      }
    }
  }

  lemma AdvancesTransitive(s: State, t: State, u: State)
    requires Advances(s, t) && Advances(t, u)
    ensures Advances(s, u)
  {
    forall k | k in s.ensembles ensures k in u.ensembles && EnsembleAdvances(s.ensembles[k], u.ensembles[k]) {
      EnsembleAdvancesTransitive(s.ensembles[k], t.ensembles[k], u.ensembles[k]);
    }
  }

  lemma EnsembleAdvancesReflexive(e: Ensemble)
    ensures EnsembleAdvances(e, e)
  {
  }

  lemma AdvancesReflexive(s: State)
    ensures Advances(s, s)
  {
    forall k | k in s.ensembles ensures EnsembleAdvances(s.ensembles[k], s.ensembles[k]) {
      EnsembleAdvancesReflexive(s.ensembles[k]);
    }
  }

  /** An operation that rewrites one ensemble moves the state forward when it moves that ensemble forward. */
  lemma PutAdvances(s: State, id: nat, e: Ensemble, ids: Ids, counters: Counters)
    requires id in s.ensembles ==> EnsembleAdvances(s.ensembles[id], e)
    requires IdsAdvance(s.ids, ids)
    ensures Advances(s, Put(s, id, e).(ids := ids, counters := counters))
  {
    forall k | k in s.ensembles ensures EnsembleAdvances(s.ensembles[k], s.ensembles[id := e][k]) {
      EnsembleAdvancesReflexive(s.ensembles[k]);
    }
  }

  // ---- Slots ----------------------------------------------------------------------------------

  lemma UpdateAdvances(x: Execution, k: nat, c: Candidate)
    requires k < |x.candidates| && CandidateAdvances(x.candidates[k], c)
    ensures ExecutionAdvances(x, x.(candidates := x.candidates[k := c]))
  {
  }

  lemma SupersedeEvidenceAdvances(x: Execution, id: nat)
    ensures ExecutionAdvances(x, SupersedeEvidence(x, id))
  {
  }

  lemma FailAtAdvances(x: Execution, k: nat, failure: Error)
    requires k < |x.candidates| && InFlight(x.candidates[k].state)
    ensures ExecutionAdvances(x, FailAt(x, k, failure))
  {
    var y := x.(candidates := x.candidates[k := FailedCandidate(x.candidates[k], failure)]);
    UpdateAdvances(x, k, FailedCandidate(x.candidates[k], failure));
    SupersedeEvidenceAdvances(y, x.candidates[k].id);
    ExecutionAdvancesTransitive(x, y, FailAt(x, k, failure));
  }

  lemma RewindAtAdvances(x: Execution, k: nat)
    requires k < |x.candidates| && InFlight(x.candidates[k].state)
    ensures ExecutionAdvances(x, RewindAt(x, k))
  {
    var y := x.(candidates := x.candidates[k := RewoundCandidate(x.candidates[k])]);
    UpdateAdvances(x, k, RewoundCandidate(x.candidates[k]));
    SupersedeEvidenceAdvances(y, x.candidates[k].id);
    ExecutionAdvancesTransitive(x, y, RewindAt(x, k));
  }

  lemma ReleaseAtAdvances(spec: RuntimeSpec, p: Participant, failure: Error, x: Execution, k: nat)
    requires k < |x.candidates|
    ensures ExecutionAdvances(x, ReleaseAt(spec, p, failure, x, k))
  {
    var c := x.candidates[k];
    if ServedBy(c, p) {
      if RetryAuthorized(spec, c, failure) {
        var d := Reassigned(c, p);
        UpdateAdvances(x, k, d);
        var y := ReassignAt(x, k, p);
        RewindAtAdvances(y, k);
        ExecutionAdvancesTransitive(x, y, RewindAt(y, k));
      } else {
        FailAtAdvances(x, k, failure);
      }
    }
  }

  lemma {:induction false} ReleaseAdvances(spec: RuntimeSpec, p: Participant, failure: Error, x: Execution, k: nat)
    ensures ExecutionAdvances(x, ReleaseFrom(spec, p, failure, x, k))
    decreases |x.candidates| - k
  {
    if k < |x.candidates| {
      var y := ReleaseAt(spec, p, failure, x, k);
      ReleaseAtAdvances(spec, p, failure, x, k);
      ReleaseAdvances(spec, p, failure, y, k + 1);
      ExecutionAdvancesTransitive(x, y, ReleaseFrom(spec, p, failure, y, k + 1));
    }
  }

  // ---- Registration, failure, invalidation ------------------------------------------------------

  lemma RegisterAdvances(s: State, r: Registration)
    ensures Advances(s, Register(s, r).0)
  {
    if RegistrationFault(s, r).None? {
      var e := s.ensembles[r.ensemble];
      var j := FindParticipant(e.participants, r.participant).value;
      var p := Registered(e.participants[j], r);
      var e' := e.(participants := e.participants[j := p]);
      assert ParticipantAdvances(e.participants[j], p);
      PutAdvances(s, r.ensemble, e', s.ids, s.counters);
    }
  }

  lemma ParticipantUpdateAdvances(ps: seq<Participant>, j: nat, p: Participant)
    requires j < |ps| && ParticipantAdvances(ps[j], p)
    ensures ParticipantsAdvance(ps, ps[j := p])
  {
  }

  /** Participants and execution may move forward together, as long as no result appears. */
  lemma SameGenerationAdvances(e: Ensemble, ps: seq<Participant>, x: Execution)
    requires ParticipantsAdvance(e.participants, ps)
    requires e.execution.Some? && ExecutionAdvances(e.execution.value, x) && x.result == e.execution.value.result
    ensures EnsembleAdvances(e, e.(participants := ps, execution := Some(x)))
  {
  }

  lemma FailedStatusAdvances(x: Execution, y: Execution)
    requires ExecutionAdvances(x, y) && x.status == ExecOpen && y.status == ExecOpen
    ensures ExecutionAdvances(x, y.(status := ExecFailed))
  {
  }

  lemma AfterFailureAdvances(e: Ensemble, j: nat, kind: FailureKind)
    requires j < |e.participants|
    ensures EnsembleAdvances(e, AfterFailure(e, j, kind))
  {
    var p := FailedParticipant(e.participants[j], kind);
    ParticipantUpdateAdvances(e.participants, j, p);
    var ps := e.participants[j := p];
    if HasOpenExecution(e) {
      var x := ReleaseFrom(e.spec, p, FailureOf(kind), e.execution.value, 0);
      ReleaseAdvances(e.spec, p, FailureOf(kind), e.execution.value, 0);
      FailedStatusAdvances(e.execution.value, x);
      var y := if FailureCancels(e, p) then x.(status := ExecFailed) else x;
      SameGenerationAdvances(e, ps, y);
      assert AfterFailure(e, j, kind) == e.(participants := ps, execution := Some(y));
    } else {
      assert AfterFailure(e, j, kind) == e.(participants := ps);
      KeepsExecution(e, ps);
    }
  }

  lemma KeepsExecution(e: Ensemble, ps: seq<Participant>)
    requires ParticipantsAdvance(e.participants, ps)
    ensures EnsembleAdvances(e, e.(participants := ps))
  {
  }

  lemma ReportFailureAdvances(s: State, a: ParticipantAuthority, kind: FailureKind)
    ensures Advances(s, ReportFailure(s, a, kind).0)
  {
    if ReportFault(s, a).None? {
      var e := s.ensembles[a.ensemble];
      var j := FindParticipant(e.participants, a.participant).value;
      AfterFailureAdvances(e, j, kind);
      PutAdvances(s, a.ensemble, AfterFailure(e, j, kind), s.ids, s.counters);
    }
  }

  lemma InvalidateEnsembleAdvances(e: Ensemble)
    ensures EnsembleAdvances(e, InvalidateEnsemble(e))
  {
    assert ParticipantsAdvance(e.participants, InvalidateParticipants(e.participants));
    if HasOpenExecution(e) {
      assert ExecutionAdvances(e.execution.value, InvalidateExecution(e.execution.value));
    }
  }

  lemma InvalidateAdvances(s: State)
    ensures Advances(s, Invalidate(s))
  {
    forall k | k in s.ensembles ensures EnsembleAdvances(s.ensembles[k], Invalidate(s).ensembles[k]) {
      InvalidateEnsembleAdvances(s.ensembles[k]);
    }
  }

  // ---- Definition, supersession, opening, cancellation --------------------------------------------

  lemma DefineAdvances(s: State, asked: RuntimeSpec, digest: Digest)
    ensures Advances(s, Define(s, asked, digest).0)
  {
    var found := DefinedIdentity(s, asked);
    if found.Some? {
      var id, next := found.value.0, found.value.1;
      var s1 := s.(ids := s.ids.(ensemble := next));
      var generation := NextGeneration(s1, id, asked.generation);
      if generation.Ok? {
        var spec := asked.(id := id, generation := generation.value);
        if SpecFault(spec, s.config.limits).None? {
          var sealed := spec.(fingerprint := digest(spec));
          RedefineAdvances(s1, sealed);
          AdvancesTransitive(s, s1, Redefine(s1, sealed));
        }
      }
    }
  }

  lemma RedefineAdvances(s: State, spec: RuntimeSpec)
    requires spec.id in s.ensembles ==> s.ensembles[spec.id].spec.generation < spec.generation
    ensures Advances(s, Redefine(s, spec))
  {
    var t := Redefine(s, spec);
    PutAdvances(s, spec.id, t.ensembles[spec.id], s.ids, t.counters);
  }

  lemma SupersedeAdvances(s: State, id: nat, generation: nat)
    ensures Advances(s, Supersede(s, id, generation).0)
  {
    if GenerationFault(s, id, generation).None? {
      var e := s.ensembles[id];
      assert EnsembleAdvances(e, SupersededEnsemble(e));
      PutAdvances(s, id, SupersededEnsemble(e), s.ids, Supersede(s, id, generation).0.counters);
    }
  }

  lemma OpenAdvances(s: State, id: nat, generation: nat)
    ensures Advances(s, Open(s, id, generation).0)
  {
    if OpenFault(s, id, generation).None? {
      PutAdvances(s, id, Open(s, id, generation).0.ensembles[id], s.ids, s.counters);
    }
  }

  lemma CancelAdvances(s: State, id: nat, generation: nat)
    ensures Advances(s, Cancel(s, id, generation).0)
  {
    var t := Cancel(s, id, generation).0;
    if CancelFault(s, id, generation).None? && s.ensembles[id].execution.value.status != ExecCancelled {
      assert ExecutionAdvances(s.ensembles[id].execution.value, t.ensembles[id].execution.value);
      PutAdvances(s, id, t.ensembles[id], t.ids, s.counters);
    }
  }

  // ---- Submissions --------------------------------------------------------------------------------

  lemma WithExecutionAdvances(s: State, id: nat, x: Execution, ids: Ids)
    requires id in s.ensembles && s.ensembles[id].execution.Some?
    requires ExecutionAdvances(s.ensembles[id].execution.value, x) && x.result == s.ensembles[id].execution.value.result
    requires IdsAdvance(s.ids, ids)
    ensures Advances(s, WithExecution(s, id, x).(ids := ids))
  {
    PutAdvances(s, id, s.ensembles[id].(execution := Some(x)), ids, s.counters);
  }

  /** The slot an admissible submission is about. */
  lemma SubmissionTarget(s: State, a: CandidateAuthority) returns (x: Execution, k: nat)
    requires SubmissionFault(s, a).None?
    ensures a.participant.ensemble in s.ensembles && s.ensembles[a.participant.ensemble].execution == Some(x)
    ensures FindCandidate(x.candidates, a.candidate) == Some(k)
    ensures k < |x.candidates| && x.candidates[k].state == Dispatched
    ensures x.candidates[k].id == a.candidate && x.candidates[k].generation == a.candidateGeneration
  {
    x := s.ensembles[a.participant.ensemble].execution.value;
    k := FindCandidate(x.candidates, a.candidate).value;
  }

  lemma CountersAdvance(s: State, t: State)
    requires t == s.(counters := t.counters)
    ensures Advances(s, t)
  {
    forall k | k in s.ensembles ensures EnsembleAdvances(s.ensembles[k], s.ensembles[k]) {
      EnsembleAdvancesReflexive(s.ensembles[k]);
    }
  }

  /** What an output submission does: count a rejection, or fill the slot it names. */
  lemma SubmitCandidateCases(s: State, a: CandidateAuthority, payload: seq<byte>) returns (x: Execution, k: nat, c: Candidate)
    ensures var v := SubmitCandidate(s, a, payload);
            if v.1.Err? then v.0 == s.(counters := v.0.counters)
            else
              && a.participant.ensemble in s.ensembles && s.ensembles[a.participant.ensemble].execution == Some(x)
              && k < |x.candidates| && x.candidates[k].state == Dispatched && CandidateAdvances(x.candidates[k], c)
              && v.0 == WithExecution(s, a.participant.ensemble, x.(candidates := x.candidates[k := c])).(ids := AfterSequence(s.ids))
  {
    if SubmitCandidate(s, a, payload).1.Ok? {
      x, k := SubmissionTarget(s, a);
      var e := s.ensembles[a.participant.ensemble];
      var p := e.participants[FindParticipant(e.participants, a.participant.participant).value];
      c := Received(x.candidates[k], payload, SequenceValue(s.ids), p.declaration.executionBudgetUnits,
                    e.spec.evidence.minCandidatePayloadBytes);
    } else {
      x, k, c := FreshExecution(0, 0), 0, Candidate(0, 0, 0, 0, CandidateRole, 0, Declared, 0, 0, [], None, false, false, NO_TRACE);
    }
  }

  lemma SubmitCandidateAdvances(s: State, a: CandidateAuthority, payload: seq<byte>)
    ensures Advances(s, SubmitCandidate(s, a, payload).0)
  {
    var x, k, c := SubmitCandidateCases(s, a, payload);
    var v := SubmitCandidate(s, a, payload);
    if v.1.Ok? {
      UpdateAdvances(x, k, c);
      WithExecutionAdvances(s, a.participant.ensemble, x.(candidates := x.candidates[k := c]), AfterSequence(s.ids));
    } else {
      CountersAdvance(s, v.0);
    }
  }

  lemma SubmitFailureAdvances(s: State, a: CandidateAuthority, rawKind: nat)
    ensures Advances(s, SubmitFailure(s, a, rawKind).0)
  {
    var t := SubmitFailure(s, a, rawKind).0;
    if SubmissionFault(s, a).None? && KindOf(rawKind).Some? {
      var x, k := SubmissionTarget(s, a);
      FailAtAdvances(x, k, FailureOf(KindOf(rawKind).value));
      RewindAtAdvances(x, k);
      WithExecutionAdvances(s, a.participant.ensemble, t.ensembles[a.participant.ensemble].execution.value, s.ids);
    }
  }

  lemma SubmitAbstentionAdvances(s: State, a: CandidateAuthority)
    ensures Advances(s, SubmitAbstention(s, a).0)
  {
    var t := SubmitAbstention(s, a).0;
    if SubmissionFault(s, a).None? {
      var x, k := SubmissionTarget(s, a);
      UpdateAdvances(x, k, AbstainedCandidate(x.candidates[k], SequenceValue(s.ids)));
      WithExecutionAdvances(s, a.participant.ensemble, t.ensembles[a.participant.ensemble].execution.value, t.ids);
    }
  }

  lemma AnswerAdvances(x: Execution, f: Evaluation, pending: seq<Pending>)
    ensures ExecutionAdvances(x, x.(evaluations := x.evaluations + [f], pending := pending))
  {
  }

  lemma SubmitEvaluationAdvances(s: State, sub: EvaluationSubmission)
    ensures Advances(s, SubmitEvaluation(s, sub).0)
  {
    var t := SubmitEvaluation(s, sub).0;
    if EvaluationFaultOf(s, sub).None? {
      var id := sub.authority.evaluator.ensemble;
      var x, y := s.ensembles[id].execution.value, t.ensembles[id].execution.value;
      assert t == WithExecution(s, id, y).(ids := AfterSequence(s.ids));
      AnswerAdvances(x, y.evaluations[|x.evaluations|], y.pending);
      WithExecutionAdvances(s, id, y, AfterSequence(s.ids));
    } else {
      CountersAdvance(s, t);
    }
  }

  // ---- Preparation and commit -----------------------------------------------------------------------

  lemma PrepareAdvances(s: State, id: nat, generation: nat)
    ensures Advances(s, Prepare(s, id, generation).0)
  {
    var t := Prepare(s, id, generation).0;
    if GenerationFault(s, id, generation).None? && s.ensembles[id].execution.Some? && s.ensembles[id].execution.value.result.None? {
      WithExecutionAdvances(s, id, t.ensembles[id].execution.value, s.ids);
    }
  }

  lemma PublishedAdvances(e: Ensemble, x: Execution, stored: Result)
    requires x.result.None? && PublicationFault(e, x).None?
    ensures ExecutionAdvances(x, Published(x, stored))
  {
  }

  lemma CommitCurrentAdvances(s: State, r: Result, e: Ensemble, x: Execution)
    requires r.ensemble in s.ensembles && s.ensembles[r.ensemble] == e && e.execution == Some(x)
    ensures Advances(s, CommitCurrent(s, r, e, x).state)
  {
    var t := CommitCurrent(s, r, e, x).state;
    if CommitCurrent(s, r, e, x).published {
      var stored := Stored(s.config, r, s.ids.result, SequenceValue(s.ids));
      PublishedAdvances(e, x, stored);
      PutAdvances(s, r.ensemble, e.(execution := Some(Published(x, stored))), t.ids, t.counters);
    }
  }

  lemma CommitAdvances(s: State, r: Result)
    ensures Advances(s, Commit(s, r).state)
  {
    if r.ensemble in s.ensembles && ValidateResult(r, s.ensembles[r.ensemble].spec, s.epoch).None? {
      var e := s.ensembles[r.ensemble];
      if e.execution.Some? && e.execution.value.id == r.execution {
        CommitCurrentAdvances(s, r, e, e.execution.value);
      }
    }
  }
}
