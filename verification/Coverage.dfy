/**
 Mandatory coverage.  Arbitration only counts hard-predicate evidence; this module shows exactly
 when that count forces a PASS on every mandatory criterion.
 */
module Coverage {
  import opened Base
  import opened Spec
  import opened Records
  import opened Lifecycle
  import opened Reports
  import opened Invariants
  import opened Progress
  import opened Monotone
  import opened System
  import opened Runs
  import opened Safety
  import Arbitration

  // ---- What the summary counts ------------------------------------------------------------------------

  /** Current hard-predicate evidence about the present generation of `c`, in arrival order. */
  function HardEvidence(evaluations: seq<Evaluation>, c: Candidate): (h: seq<Evaluation>)
    ensures forall e :: e in h ==> e in evaluations && e.kind == HardPredicate && e.candidate == c.id
  {
    if evaluations == [] then []
    else
      var n := |evaluations| - 1;
      var e := evaluations[n];
      HardEvidence(evaluations[..n], c) + (if Relevant(e, c) && e.kind == HardPredicate then [e] else [])
  }

  lemma {:induction false} SummaryCountsHardEvidence(evaluations: seq<Evaluation>, c: Candidate)
    ensures var s, h := Summarize(evaluations, c), HardEvidence(evaluations, c);
            && s.hardPredicates == |h|
            && (s.hardFailures == 0 <==> forall e :: e in h ==> e.verification != Fail)
            && (s.hardUnknowns == 0 <==> forall e :: e in h ==> e.verification == Pass || e.verification == Fail)
  {
    if evaluations != [] {
      var n := |evaluations| - 1;
      var e := evaluations[n];
      SummaryCountsHardEvidence(evaluations[..n], c);
      HardCounters(Summarize(evaluations[..n], c), e);
      assert forall f :: f in HardEvidence(evaluations, c) <==>
               f in HardEvidence(evaluations[..n], c) || (f == e && Relevant(e, c) && e.kind == HardPredicate);
    }
  }

  lemma HardCounters(s: Arbitration.Summary, e: Evaluation)
    ensures var t := AddEvaluation(s, e);
            && t.hardPredicates == s.hardPredicates + (if e.kind == HardPredicate then 1 else 0)
            && t.hardFailures == s.hardFailures + (if e.kind == HardPredicate && e.verification == Fail then 1 else 0)
            && t.hardUnknowns == s.hardUnknowns + (if e.kind == HardPredicate && e.verification != Pass && e.verification != Fail then 1 else 0)
  {
  }

  // ---- Evidence that the duplicate rule allows ------------------------------------------------------------

  /** An evaluator incarnation. */
  datatype Source = Source(evaluator: nat, generation: nat)

  function SourceOf(e: Evaluation): Source {
    Source(e.evaluator, e.evaluatorGeneration)
  }

  /** Hard evidence about one candidate as ingestion admits it: mandatory criteria, each at most once per source. */
  ghost predicate Admissible(mandatory: seq<Criterion>, sources: set<Source>, candidate: nat, h: seq<Evaluation>) {
    && (forall i :: 0 <= i < |h| ==> h[i].kind == HardPredicate && h[i].candidate == candidate && h[i].criterion in mandatory)
    && (forall i :: 0 <= i < |h| ==> SourceOf(h[i]) in sources)
    && (forall i, j :: 0 <= i < j < |h| ==> !SameEvidence(h[i], h[j]))
  }

  /** The evidence gate of arbitration, on the evidence itself. */
  ghost predicate PassesGate(policy: Evidence, h: seq<Evaluation>) {
    policy.mandatoryCriteria != [] ==>
      && (forall e :: e in h ==> e.verification != Fail)
      && (policy.unknownVerificationIsFailure ==> forall e :: e in h ==> e.verification == Pass || e.verification == Fail)
      && |h| >= |policy.mandatoryCriteria|
  }

  ghost predicate Covered(mandatory: seq<Criterion>, h: seq<Evaluation>) {
    forall m :: m in mandatory ==> exists e :: e in h && e.criterion == m && e.verification == Pass
  }

  lemma GateIsPassed(policy: Evidence, c: Arbitration.Input, evaluations: seq<Evaluation>, candidate: Candidate)
    requires c.evaluation == Summarize(evaluations, candidate) && Arbitration.EvidenceGate(c, policy) == Arbitration.NotEliminated
    ensures PassesGate(policy, HardEvidence(evaluations, candidate))
  {
    SummaryCountsHardEvidence(evaluations, candidate);
  }

  // ---- Pigeonhole -----------------------------------------------------------------------------------------

  function CriteriaOf(h: seq<Evaluation>): set<Criterion> {
    set i | 0 <= i < |h| :: h[i].criterion
  }

  function Members(criteria: seq<Criterion>): set<Criterion> {
    set i | 0 <= i < |criteria| :: criteria[i]
  }

  lemma {:induction false} DistinctMembers(criteria: seq<Criterion>)
    requires Distinct(criteria)
    ensures |Members(criteria)| == |criteria|
  {
    if criteria != [] {
      var n := |criteria| - 1;
      DistinctMembers(criteria[..n]);
      assert Members(criteria) == Members(criteria[..n]) + {criteria[n]};
      assert criteria[n] !in Members(criteria[..n]);
    }
  }

  /** One source never answers a criterion twice, so its answers are as many as its criteria. */
  lemma {:induction false} OneSourceDistinctCriteria(h: seq<Evaluation>, source: Source, candidate: nat)
    requires forall i :: 0 <= i < |h| ==> SourceOf(h[i]) == source && h[i].candidate == candidate
    requires forall i, j :: 0 <= i < j < |h| ==> !SameEvidence(h[i], h[j])
    ensures |CriteriaOf(h)| == |h|
  {
    if h != [] {
      var n := |h| - 1;
      OneSourceDistinctCriteria(h[..n], source, candidate);
      assert CriteriaOf(h) == CriteriaOf(h[..n]) + {h[n].criterion};
      forall i | 0 <= i < n ensures h[i].criterion != h[n].criterion {
        assert !SameEvidence(h[i], h[n]);
      }
      assert h[n].criterion !in CriteriaOf(h[..n]);
    }
  }

  lemma SubsetOfSameSize(a: set<Criterion>, b: set<Criterion>)
    requires a <= b && |a| >= |b|
    ensures a == b
  {
    var rest := b - a;
    assert b == a + rest && |b| == |a| + |rest|;
  }

  lemma OneSourceCovers(policy: Evidence, source: Source, candidate: nat, h: seq<Evaluation>)
    requires Distinct(policy.mandatoryCriteria) && policy.unknownVerificationIsFailure
    requires Admissible(policy.mandatoryCriteria, {source}, candidate, h) && PassesGate(policy, h)
    ensures Covered(policy.mandatoryCriteria, h)
  {
    var mandatory := policy.mandatoryCriteria;
    if mandatory != [] {
      DistinctMembers(mandatory);
      OneSourceDistinctCriteria(h, source, candidate);
      assert CriteriaOf(h) <= Members(mandatory);
      SubsetOfSameSize(CriteriaOf(h), Members(mandatory));
      forall m | m in mandatory ensures exists e :: e in h && e.criterion == m && e.verification == Pass {
        assert m in Members(mandatory);
        var i :| 0 <= i < |h| && h[i].criterion == m;
        assert h[i] in h;
      }
    }
  }

  // ---- Exactly when the count is enough ----------------------------------------------------------------------

  /** Whatever evidence these sources are allowed to produce, passing the gate means coverage. */
  ghost predicate CountForcesCoverage(policy: Evidence, sources: set<Source>, candidate: nat) {
    forall h :: Admissible(policy.mandatoryCriteria, sources, candidate, h) && PassesGate(policy, h) ==>
      Covered(policy.mandatoryCriteria, h)
  }

  function Answer(s: Source, candidate: nat, criterion: Criterion, v: Verification): Evaluation {
    Evaluation(1, 1, s.evaluator, s.generation, VerifierRole, candidate, 1, criterion, HardPredicate, v, UnknownJudgment, false,
               0.0, 1.0, 0, 0, 0, 0, 0, true)
  }

  /** Every criterion answered UNKNOWN: enough in number, a PASS on nothing. */
  function Shrugs(s: Source, candidate: nat, mandatory: seq<Criterion>): seq<Evaluation> {
    seq(|mandatory|, i requires 0 <= i < |mandatory| => Answer(s, candidate, mandatory[i], UnknownVerification))
  }

  lemma ShrugsAreNotCoverage(policy: Evidence, sources: set<Source>, s: Source, candidate: nat)
    requires Distinct(policy.mandatoryCriteria) && policy.mandatoryCriteria != [] && !policy.unknownVerificationIsFailure
    requires s in sources
    ensures !CountForcesCoverage(policy, sources, candidate)
  {
    var h := Shrugs(s, candidate, policy.mandatoryCriteria);
    assert Admissible(policy.mandatoryCriteria, sources, candidate, h);
    assert PassesGate(policy, h);
    assert policy.mandatoryCriteria[0] in policy.mandatoryCriteria;
    assert !Covered(policy.mandatoryCriteria, h);
  }

  /** All criteria but the last from one source, and the first once more from another. */
  function Repeats(s: Source, t: Source, candidate: nat, mandatory: seq<Criterion>): seq<Evaluation>
    requires mandatory != []
  {
    seq(|mandatory| - 1, i requires 0 <= i < |mandatory| - 1 => Answer(s, candidate, mandatory[i], Pass))
    + [Answer(t, candidate, mandatory[0], Pass)]
  }

  lemma RepeatsAreNotCoverage(policy: Evidence, sources: set<Source>, s: Source, t: Source, candidate: nat)
    requires Distinct(policy.mandatoryCriteria) && |policy.mandatoryCriteria| >= 2
    requires s in sources && t in sources && s != t
    ensures !CountForcesCoverage(policy, sources, candidate)
  {
    var mandatory := policy.mandatoryCriteria;
    var n := |mandatory|;
    var h := Repeats(s, t, candidate, mandatory);
    forall i | 0 <= i < |h| ensures h[i].criterion in mandatory {
      assert h[i].criterion == mandatory[if i < n - 1 then i else 0];
    }
    assert Admissible(mandatory, sources, candidate, h);
    assert PassesGate(policy, h);
    assert mandatory[n - 1] in mandatory;
    forall e | e in h ensures e.criterion != mandatory[n - 1] {
      var i :| 0 <= i < |h| && h[i] == e;
    }
    assert !Covered(mandatory, h);
  }

  lemma OneCriterionIsCovered(policy: Evidence, sources: set<Source>, candidate: nat, h: seq<Evaluation>)
    requires |policy.mandatoryCriteria| == 1 && policy.unknownVerificationIsFailure
    requires Admissible(policy.mandatoryCriteria, sources, candidate, h) && PassesGate(policy, h)
    ensures Covered(policy.mandatoryCriteria, h)
  {
    assert h[0] in h && h[0].criterion == policy.mandatoryCriteria[0];
  }

  lemma NobodyPasses(policy: Evidence, candidate: nat, h: seq<Evaluation>)
    requires policy.mandatoryCriteria != [] && Admissible(policy.mandatoryCriteria, {}, candidate, h)
    ensures !PassesGate(policy, h)
  {
    if h != [] {
      EvidenceHasSource(policy.mandatoryCriteria, {}, candidate, h);
      assert false;
    }
  }

  lemma EvidenceHasSource(mandatory: seq<Criterion>, sources: set<Source>, candidate: nat, h: seq<Evaluation>)
    requires Admissible(mandatory, sources, candidate, h) && h != []
    ensures sources != {}
  {
    assert SourceOf(h[0]) in sources;
  }

  lemma TwoSources(sources: set<Source>) returns (s: Source, t: Source)
    requires |sources| >= 2
    ensures s in sources && t in sources && s != t
  {
    s :| s in sources;
    var rest := sources - {s};
    assert |rest| >= 1;
    t :| t in rest;
  }

  /**
   Mandatory coverage, exactly: counting forces a PASS on every mandatory criterion if and only if
   there is nothing to cover, nobody to answer, or UNKNOWN counts as failure and either there is a
   single criterion or all evidence comes from a single verifier generation.
   */
  lemma CountForcesCoverageExactlyWhen(policy: Evidence, sources: set<Source>, candidate: nat)
    requires Distinct(policy.mandatoryCriteria)
    ensures CountForcesCoverage(policy, sources, candidate) <==>
              || policy.mandatoryCriteria == []
              || sources == {}
              || (policy.unknownVerificationIsFailure && (|policy.mandatoryCriteria| == 1 || |sources| == 1))
  {
    var mandatory := policy.mandatoryCriteria;
    if mandatory != [] && sources != {} {
      if !policy.unknownVerificationIsFailure {
        var s :| s in sources;
        ShrugsAreNotCoverage(policy, sources, s, candidate);
      } else if |mandatory| >= 2 && |sources| >= 2 {
        var s, t := TwoSources(sources);
        RepeatsAreNotCoverage(policy, sources, s, t, candidate);
      } else {
        forall h | Admissible(mandatory, sources, candidate, h) && PassesGate(policy, h) ensures Covered(mandatory, h) {
          if |mandatory| == 1 {
            OneCriterionIsCovered(policy, sources, candidate, h);
          } else {
            var s :| s in sources;
            assert |sources - {s}| == 0;
            assert sources == {s};
            OneSourceCovers(policy, s, candidate, h);
          }
        }
      }
    } else if mandatory != [] {
      forall h | Admissible(mandatory, sources, candidate, h) ensures !PassesGate(policy, h) {
        NobodyPasses(policy, candidate, h);
      }
    }
  }

  // ---- What this means for arbitration ---------------------------------------------------------------------------

  lemma {:induction false} HardEvidenceIsAdmissible(mandatory: seq<Criterion>, es: seq<Evaluation>, c: Candidate, sources: set<Source>)
    requires forall i :: 0 <= i < |es| && es[i].kind == HardPredicate ==> es[i].criterion in mandatory
    requires forall i, j :: 0 <= i < j < |es| ==> !SameEvidence(es[i], es[j])
    requires forall e :: e in HardEvidence(es, c) ==> SourceOf(e) in sources
    ensures Admissible(mandatory, sources, c.id, HardEvidence(es, c))
  {
    if es != [] {
      var n := |es| - 1;
      HardEvidenceIsAdmissible(mandatory, es[..n], c, sources);
      var h := HardEvidence(es[..n], c);
      forall i | 0 <= i < |h| ensures !SameEvidence(h[i], es[n]) {
        assert h[i] in h;
        var k :| 0 <= k < n && es[k] == h[i];
      }
    }
  }

  /**
   In every reachable state: if UNKNOWN counts as failure and the current hard-predicate evidence
   about a candidate comes from one verifier generation, an eligible candidate has a PASS on every
   mandatory criterion.
   */
  lemma EligibleIsCovered(trace: seq<System>, ops: seq<Op>, n: nat, key: ExecutionKey, x: Execution, c: Candidate,
                          inputs: Arbitration.Inputs, source: Source)
    requires IsRun(trace, ops) && n < |trace| && IsCurrent(trace[n].fabric, key, x) && c in x.candidates
    requires var e := trace[n].fabric.ensembles[key.ensemble];
             && inputs.evidence == e.spec.evidence && e.spec.evidence.unknownVerificationIsFailure
             && Arbitration.IsEligible(InputOf(e.spec, e.participants, x, c), inputs)
    requires forall e :: e in HardEvidence(x.evaluations, c) ==> SourceOf(e) == source
    ensures Covered(trace[n].fabric.ensembles[key.ensemble].spec.evidence.mandatoryCriteria, HardEvidence(x.evaluations, c))
  {
    var e := trace[n].fabric.ensembles[key.ensemble];
    ReachableIsGood(trace, ops, n);
    At(trace[n], key.ensemble);
    EvidenceIsCurrent(trace, ops, n, key, x);
    HardEvidenceIsAdmissible(e.spec.evidence.mandatoryCriteria, x.evaluations, c, {source});
    EligiblePassesGate(e.spec, e.participants, x, c, inputs);
    OneSourceCovers(e.spec.evidence, source, c.id, HardEvidence(x.evaluations, c));
  }

  lemma EligiblePassesGate(spec: RuntimeSpec, ps: seq<Participant>, x: Execution, c: Candidate, inputs: Arbitration.Inputs)
    requires Arbitration.IsEligible(InputOf(spec, ps, x, c), inputs)
    ensures PassesGate(inputs.evidence, HardEvidence(x.evaluations, c))
  {
    GateIsPassed(inputs.evidence, InputOf(spec, ps, x, c), x.evaluations, c);
  }
}
