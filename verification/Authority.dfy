/** Stale-state fencing: an authority that was accepted and then rejected stays rejected. */
module Authority {
  import opened Base
  import opened Records
  import opened Lifecycle
  import opened Participants
  import opened Ingest
  import opened Monotone
  import opened System
  import opened Runs

  lemma {:induction false} ParticipantKeepsItsPlace(ps: seq<Participant>, qs: seq<Participant>, id: nat)
    requires ParticipantsAdvance(ps, qs)
    ensures FindParticipant(qs, id) == FindParticipant(ps, id)
  {
    if ps != [] {
      assert ParticipantAdvances(ps[0], qs[0]);
      assert ParticipantsAdvance(ps[1..], qs[1..]);
      ParticipantKeepsItsPlace(ps[1..], qs[1..], id);
    }
  }

  lemma {:induction false} CandidateKeepsItsPlace(cs: seq<Candidate>, ds: seq<Candidate>, id: nat)
    requires CandidatesAdvance(cs, ds) && FindCandidate(cs, id).Some?
    ensures FindCandidate(ds, id) == FindCandidate(cs, id)
  {
    assert CandidateAdvances(cs[0], ds[0]);
    if cs[0].id != id {
      assert CandidatesAdvance(cs[1..], ds[1..]);
      CandidateKeepsItsPlace(cs[1..], ds[1..], id);
    }
  }

  /** The records an accepted authority names. */
  lemma Names(s: State, a: CandidateAuthority) returns (e: Ensemble, x: Execution, j: nat, k: nat)
    requires Accepts(s, a)
    ensures a.Complete() && a.participant.epoch == s.epoch
    ensures a.participant.ensemble in s.ensembles && e == s.ensembles[a.participant.ensemble]
    ensures e.spec.generation == a.participant.ensembleGeneration
    ensures e.execution == Some(x) && x.id == a.execution && x.attemptGeneration == a.attemptGeneration
    ensures FindParticipant(e.participants, a.participant.participant) == Some(j) && j < |e.participants|
    ensures var p := e.participants[j];
            p.generation == a.participant.participantGeneration && p.worker == a.participant.worker
            && p.workerBoot == a.participant.workerBoot && p.Authoritative(s.epoch)
    ensures FindCandidate(x.candidates, a.candidate) == Some(k) && k < |x.candidates|
    ensures x.candidates[k].generation == a.candidateGeneration && x.candidates[k].participant == a.participant.participant
  {
    e := s.ensembles[a.participant.ensemble];
    x := e.execution.value;
    j := FindParticipant(e.participants, a.participant.participant).value;
    k := FindCandidate(x.candidates, a.candidate).value;
  }

  /** Between two states that accept an authority, the ensemble, the execution and their records stood still. */
  lemma Between(e: Ensemble, f: Ensemble, g: Ensemble, j: nat, k: nat)
    requires EnsembleAdvances(e, f) && EnsembleAdvances(f, g) && e.spec.generation == g.spec.generation
    requires e.execution.Some? && g.execution.Some? && e.execution.value.id == g.execution.value.id
    requires j < |e.participants| && j < |g.participants|
    requires e.participants[j].generation == g.participants[j].generation
    requires e.participants[j].workerBoot != 0 && Live(g.participants[j])
    requires k < |e.execution.value.candidates| && k < |g.execution.value.candidates|
    requires e.execution.value.candidates[k].generation == g.execution.value.candidates[k].generation
    ensures f.spec.generation == e.spec.generation && ParticipantsAdvance(e.participants, f.participants)
    ensures f.execution.Some? && f.execution.value.id == e.execution.value.id
    ensures f.execution.value.attemptGeneration == e.execution.value.attemptGeneration
    ensures CandidatesAdvance(e.execution.value.candidates, f.execution.value.candidates)
    ensures j < |f.participants|
    ensures var p, q := e.participants[j], f.participants[j];
            q.generation == p.generation && q.worker == p.worker && q.workerBoot == p.workerBoot && q.epoch == p.epoch && Live(q)
    ensures k < |f.execution.value.candidates|
    ensures var c, d := e.execution.value.candidates[k], f.execution.value.candidates[k];
            d.generation == c.generation && d.participant == c.participant
  {
    assert ParticipantAdvances(e.participants[j], f.participants[j]);
    assert ParticipantAdvances(f.participants[j], g.participants[j]);
    assert CandidateAdvances(e.execution.value.candidates[k], f.execution.value.candidates[k]);
    assert CandidateAdvances(f.execution.value.candidates[k], g.execution.value.candidates[k]);
  }

  lemma AcceptedFromParts(s: State, a: CandidateAuthority, e: Ensemble, x: Execution, j: nat, k: nat)
    requires a.Complete() && a.participant.epoch == s.epoch
    requires a.participant.ensemble in s.ensembles && e == s.ensembles[a.participant.ensemble]
    requires e.spec.generation == a.participant.ensembleGeneration
    requires e.execution == Some(x) && x.id == a.execution && x.attemptGeneration == a.attemptGeneration
    requires FindParticipant(e.participants, a.participant.participant) == Some(j) && j < |e.participants|
    requires var p := e.participants[j];
             p.generation == a.participant.participantGeneration && p.worker == a.participant.worker
             && p.workerBoot == a.participant.workerBoot && p.Authoritative(s.epoch)
    requires FindCandidate(x.candidates, a.candidate) == Some(k) && k < |x.candidates|
    requires x.candidates[k].generation == a.candidateGeneration && x.candidates[k].participant == a.participant.participant
    ensures Accepts(s, a)
  {
  }

  /** Acceptance is an interval: a state between two accepting ones accepts as well. */
  lemma AcceptanceIsConvex(s: State, t: State, u: State, a: CandidateAuthority)
    requires Advances(s, t) && Advances(t, u)
    requires Accepts(s, a) && Accepts(u, a)
    ensures Accepts(t, a)
  {
    var id := a.participant.ensemble;
    var e, x, j, k := Names(s, a);
    var g, z, j', k' := Names(u, a);
    assert EnsembleAdvances(e, t.ensembles[id]) && EnsembleAdvances(t.ensembles[id], g);
    EnsembleAdvancesTransitive(e, t.ensembles[id], g);
    ParticipantKeepsItsPlace(e.participants, g.participants, a.participant.participant);
    CandidateKeepsItsPlace(x.candidates, z.candidates, a.candidate);
    var f := t.ensembles[id];
    Between(e, f, g, j, k);
    ParticipantKeepsItsPlace(e.participants, f.participants, a.participant.participant);
    CandidateKeepsItsPlace(x.candidates, f.execution.value.candidates, a.candidate);
    AcceptedFromParts(t, a, f, f.execution.value, j, k);
  }

  /**
   Authority is never resurrected: in every run, an authority that was accepted at step `i` and
   rejected at a later step `j` is rejected at every step after `j`.
   */
  lemma AuthorityIsNeverResurrected(trace: seq<System>, ops: seq<Op>, i: nat, j: nat, k: nat, a: CandidateAuthority)
    requires IsRun(trace, ops) && i <= j <= k < |trace|
    requires Accepts(trace[i].fabric, a) && !Accepts(trace[j].fabric, a)
    ensures !Accepts(trace[k].fabric, a)
  {
    RunsAdvance(trace, ops, i, j);
    RunsAdvance(trace, ops, j, k);
    if Accepts(trace[k].fabric, a) {
      AcceptanceIsConvex(trace[i].fabric, trace[j].fabric, trace[k].fabric, a);
      assert false;
    }
  }

  // ---- Evaluators -------------------------------------------------------------------------------------------

  /** The evaluator is the live incarnation it claims to be, and its target the present generation of a candidate. */
  predicate AcceptsEvaluator(s: State, a: EvaluationAuthority) {
    && a.Complete() && IncarnationFault(s, a.evaluator, a.execution, a.attemptGeneration).None?
    && var cs := s.ensembles[a.evaluator.ensemble].execution.value.candidates;
       var k := FindCandidate(cs, a.candidate);
       k.Some? && cs[k.value].generation == a.candidateGeneration
  }

  /** The records an accepted evaluator names. */
  lemma EvaluatorNames(s: State, a: EvaluationAuthority) returns (e: Ensemble, x: Execution, j: nat, k: nat)
    requires AcceptsEvaluator(s, a)
    ensures a.evaluator.epoch == s.epoch && a.evaluator.workerBoot != 0
    ensures a.evaluator.ensemble in s.ensembles && e == s.ensembles[a.evaluator.ensemble]
    ensures e.spec.generation == a.evaluator.ensembleGeneration
    ensures e.execution == Some(x) && x.id == a.execution && x.attemptGeneration == a.attemptGeneration
    ensures FindParticipant(e.participants, a.evaluator.participant) == Some(j) && j < |e.participants|
    ensures var p := e.participants[j];
            p.generation == a.evaluator.participantGeneration && p.worker == a.evaluator.worker
            && p.workerBoot == a.evaluator.workerBoot && p.Authoritative(s.epoch)
    ensures FindCandidate(x.candidates, a.candidate) == Some(k) && k < |x.candidates|
    ensures x.candidates[k].generation == a.candidateGeneration
  {
    e := s.ensembles[a.evaluator.ensemble];
    x := e.execution.value;
    j := FindParticipant(e.participants, a.evaluator.participant).value;
    k := FindCandidate(x.candidates, a.candidate).value;
  }

  lemma EvaluatorFromParts(s: State, a: EvaluationAuthority, e: Ensemble, x: Execution, j: nat, k: nat)
    requires a.Complete() && a.evaluator.epoch == s.epoch
    requires a.evaluator.ensemble in s.ensembles && e == s.ensembles[a.evaluator.ensemble]
    requires e.spec.generation == a.evaluator.ensembleGeneration
    requires e.execution == Some(x) && x.id == a.execution && x.attemptGeneration == a.attemptGeneration
    requires FindParticipant(e.participants, a.evaluator.participant) == Some(j) && j < |e.participants|
    requires var p := e.participants[j];
             p.generation == a.evaluator.participantGeneration && p.worker == a.evaluator.worker
             && p.workerBoot == a.evaluator.workerBoot && p.Authoritative(s.epoch)
    requires FindCandidate(x.candidates, a.candidate) == Some(k) && k < |x.candidates|
    requires x.candidates[k].generation == a.candidateGeneration
    ensures AcceptsEvaluator(s, a)
  {
  }

  lemma EvaluatorAcceptanceIsConvex(s: State, t: State, u: State, a: EvaluationAuthority)
    requires Advances(s, t) && Advances(t, u)
    requires AcceptsEvaluator(s, a) && AcceptsEvaluator(u, a)
    ensures AcceptsEvaluator(t, a)
  {
    var id := a.evaluator.ensemble;
    var e, x, j, k := EvaluatorNames(s, a);
    var g, z, j', k' := EvaluatorNames(u, a);
    assert EnsembleAdvances(e, t.ensembles[id]) && EnsembleAdvances(t.ensembles[id], g);
    EnsembleAdvancesTransitive(e, t.ensembles[id], g);
    ParticipantKeepsItsPlace(e.participants, g.participants, a.evaluator.participant);
    CandidateKeepsItsPlace(x.candidates, z.candidates, a.candidate);
    var f := t.ensembles[id];
    Between(e, f, g, j, k);
    ParticipantKeepsItsPlace(e.participants, f.participants, a.evaluator.participant);
    CandidateKeepsItsPlace(x.candidates, f.execution.value.candidates, a.candidate);
    EvaluatorFromParts(t, a, f, f.execution.value, j, k);
  }

  /**
   The same for evaluators: once the tokens of an evaluation submission were accepted and later
   rejected, they are rejected at every step after that.
   */
  lemma EvaluatorIsNeverResurrected(trace: seq<System>, ops: seq<Op>, i: nat, j: nat, k: nat, a: EvaluationAuthority)
    requires IsRun(trace, ops) && i <= j <= k < |trace|
    requires AcceptsEvaluator(trace[i].fabric, a) && !AcceptsEvaluator(trace[j].fabric, a)
    ensures !AcceptsEvaluator(trace[k].fabric, a)
  {
    RunsAdvance(trace, ops, i, j);
    RunsAdvance(trace, ops, j, k);
    if AcceptsEvaluator(trace[k].fabric, a) {
      EvaluatorAcceptanceIsConvex(trace[i].fabric, trace[j].fabric, trace[k].fabric, a);
      assert false;
    }
  }

  /** Every evaluation that is taken was submitted under accepted tokens. */
  lemma TakenEvaluationWasAuthorized(s: State, sub: EvaluationSubmission)
    requires SubmitEvaluation(s, sub).1.Ok?
    ensures AcceptsEvaluator(s, sub.authority)
  {
  }

  // ---- Failure reports ----------------------------------------------------------------------------------------

  predicate AcceptsReport(s: State, a: ParticipantAuthority) {
    ReportFault(s, a).None?
  }

  lemma ReportBetween(e: Ensemble, f: Ensemble, g: Ensemble, j: nat)
    requires EnsembleAdvances(e, f) && EnsembleAdvances(f, g) && e.spec.generation == g.spec.generation
    requires j < |e.participants| && j < |g.participants| && e.participants[j].workerBoot != 0
    requires e.participants[j].generation == g.participants[j].generation
    ensures f.spec.generation == e.spec.generation && ParticipantsAdvance(e.participants, f.participants) && j < |f.participants|
    ensures var p, q := e.participants[j], f.participants[j];
            q.generation == p.generation && q.worker == p.worker && q.workerBoot == p.workerBoot
  {
    assert ParticipantAdvances(e.participants[j], f.participants[j]);
    assert ParticipantAdvances(f.participants[j], g.participants[j]);
  }

  lemma ReportAcceptanceIsConvex(s: State, t: State, u: State, a: ParticipantAuthority)
    requires Advances(s, t) && Advances(t, u)
    requires AcceptsReport(s, a) && AcceptsReport(u, a)
    ensures AcceptsReport(t, a)
  {
    var e, f, g := s.ensembles[a.ensemble], t.ensembles[a.ensemble], u.ensembles[a.ensemble];
    assert EnsembleAdvances(e, f) && EnsembleAdvances(f, g);
    EnsembleAdvancesTransitive(e, f, g);
    ParticipantKeepsItsPlace(e.participants, g.participants, a.participant);
    var j := FindParticipant(e.participants, a.participant).value;
    ReportBetween(e, f, g, j);
    ParticipantKeepsItsPlace(e.participants, f.participants, a.participant);
  }

  /** And for whoever reports the failure of a participant: a fenced incarnation cannot be failed again. */
  lemma ReporterIsNeverResurrected(trace: seq<System>, ops: seq<Op>, i: nat, j: nat, k: nat, a: ParticipantAuthority)
    requires IsRun(trace, ops) && i <= j <= k < |trace|
    requires AcceptsReport(trace[i].fabric, a) && !AcceptsReport(trace[j].fabric, a)
    ensures !AcceptsReport(trace[k].fabric, a)
  {
    RunsAdvance(trace, ops, i, j);
    RunsAdvance(trace, ops, j, k);
    if AcceptsReport(trace[k].fabric, a) {
      ReportAcceptanceIsConvex(trace[i].fabric, trace[j].fabric, trace[k].fabric, a);
      assert false;
    }
  }

  // ---- Rejections leave no trace but a counter -------------------------------------------------------------

  ghost predicate OnlyCounters(s: State, t: State) {
    t == s.(counters := t.counters)
  }

  /** Whatever is rejected, whoever submits it, only counters change. */
  lemma RejectedCandidateChangesOnlyCounters(s: State, a: CandidateAuthority, payload: seq<byte>, rawKind: nat)
    ensures SubmitCandidate(s, a, payload).1.Err? ==> OnlyCounters(s, SubmitCandidate(s, a, payload).0)
    ensures SubmitFailure(s, a, rawKind).1.Err? ==> OnlyCounters(s, SubmitFailure(s, a, rawKind).0)
    ensures SubmitAbstention(s, a).1.Err? ==> OnlyCounters(s, SubmitAbstention(s, a).0)
    ensures !Accepts(s, a) ==>
              SubmitCandidate(s, a, payload).1.Err? && SubmitFailure(s, a, rawKind).1.Err? && SubmitAbstention(s, a).1.Err?
  {
  }

  lemma RejectedEvaluationChangesOnlyCounters(s: State, sub: EvaluationSubmission)
    ensures SubmitEvaluation(s, sub).1.Err? ==> OnlyCounters(s, SubmitEvaluation(s, sub).0)
  {
  }

  /** A new incarnation never shares a generation with the one it replaces. */
  lemma ReplacementAdvancesGeneration(s: State, r: Registration)
    requires Register(s, r).1.Ok?
    ensures r.ensemble in s.ensembles
    ensures var j := FindParticipant(s.ensembles[r.ensemble].participants, r.participant);
            && j.Some?
            && var p := s.ensembles[r.ensemble].participants[j.value];
               && !Live(p)
               && Register(s, r).1.value == p.generation + (if p.workerBoot != 0 then 1 else 0)
  {
  }
}
