/** Deterministic arbitration: hard eligibility, then the configured factors, then the tie-break. */
module Arbitration {
  import opened Base
  import opened Spec
  import opened Lifecycle
  import opened Sorting

  /** Evaluation evidence of one candidate; hard predicates and scores are kept apart. */
  datatype Summary = Summary(
    candidate: nat,
    generation: nat,
    evaluations: nat,
    accepts: nat,
    rejects: nat,
    abstentions: nat,
    unknowns: nat,
    evaluators: seq<nat>,
    hardPredicates: nat,
    hardFailures: nat,
    hardUnknowns: nat,
    verifierPass: nat,
    verifierFail: nat,
    verifierAbstain: nat,
    verifierUnknown: nat,
    scored: bool,
    weightedScoreSum: real,
    weightSum: real,
    minScore: real,
    maxScore: real) {

    function MeanScore(): real {
      if weightSum > 0.0 then weightedScoreSum / weightSum else 0.0
    }

    function AcceptanceRatio(): real {
      if accepts + rejects == 0 then 0.0 else (accepts as real) / ((accepts + rejects) as real)
    }
  }

  datatype Input = Input(
    candidate: nat,
    generation: nat,
    participant: nat,
    participantGeneration: nat,
    role: Role,
    state: CandidateState,
    generationCurrent: bool,
    participantAuthoritative: bool,
    compatible: bool,
    requiredParticipant: bool,
    fallback: bool,
    roleSelectable: bool,
    participantPriority: nat,
    executionCost: nat,
    latency: nat,
    specialistMatches: nat,
    payloadBytes: nat,
    evaluation: Summary)

  datatype Inputs = Inputs(
    candidates: seq<Input>,
    policy: ArbitrationPolicy,
    aggregation: AggregationPolicy<real>,
    evidence: Evidence,
    quorumSatisfied: bool,
    ensembleGeneration: nat,
    epoch: nat,
    sequence: nat)

  datatype Elimination =
    | NotEliminated | NotAContentState | InvalidCandidate | FailedAttempt | AbstainedElimination | StaleGeneration
    | SupersededElimination | CancelledElimination | NotAuthoritative | Incompatible | VerifierFailed
    | HardPredicateFailed | MissingRequiredEvidence | BelowMinimumScore | InsufficientJudgeAcceptance
    | NotSelectableRole

  datatype Ranking = Ranking(
    candidate: nat,
    generation: nat,
    participant: nat,
    participantGeneration: nat,
    role: Role,
    eligible: bool,
    elimination: Elimination,
    factors: seq<(Factor, real)>,
    rank: int,
    selected: bool)

  datatype Report = Report(
    ensembleGeneration: nat,
    epoch: nat,
    sequence: nat,
    tieBreak: TieBreak,
    factorOrder: seq<Factor>,
    ranking: seq<Ranking>,
    selected: nat,
    selectedGeneration: nat,
    selectedParticipant: nat,
    selectedRole: Role,
    tieUnresolved: bool,
    noEligibleCandidate: bool,
    considered: nat,
    eliminated: nat)

  const EMPTY_ARBITRATION: Report :=
    Report(0, 0, 0, LowestCandidateId, [], [], 0, 0, 0, CandidateRole, false, false, 0, 0)

  // ---- Factors ----------------------------------------------------------------------------

  predicate HigherIsBetter(f: Factor) {
    f != ExecutionCost && f != Latency
  }

  function FactorValue(f: Factor, c: Input): real {
    var e := c.evaluation;
    match f
    case JudgeAcceptanceRatio => e.AcceptanceRatio()
    case VerifierState =>
      if e.verifierFail > 0 then 0.0
      else if e.verifierPass > 0 then 2.0
      else if e.verifierAbstain > 0 then 0.5
      else 0.0
    case VoteCount => e.accepts as real
    case WeightedVote => if e.weightedScoreSum > 0.0 then e.weightedScoreSum else 0.0
    case AggregateScore => e.MeanScore()
    case MinScore => if e.evaluations == 0 then 0.0 else e.minScore
    case Confidence => if e.evaluations == 0 then 0.0 else (e.accepts as real) / (e.evaluations as real)
    case ParticipantPriority => c.participantPriority as real
    case SpecialistRelevance => c.specialistMatches as real
    case ExecutionCost => c.executionCost as real
    case Latency => c.latency as real
    case ProvenanceQuality => if c.participantAuthoritative then 1.0 else 0.0
    case FallbackStatus => if c.fallback then 1.0 else 0.0
  }

  predicate FactorPrecedes(f: Factor, a: Input, b: Input) {
    if HigherIsBetter(f) then FactorValue(f, a) > FactorValue(f, b) else FactorValue(f, a) < FactorValue(f, b)
  }

  predicate FactorTies(f: Factor, a: Input, b: Input) {
    FactorValue(f, a) == FactorValue(f, b)
  }

  /** Lexicographic comparison on the factors, then the lower candidate identity. */
  predicate Precedes(factors: seq<Factor>, a: Input, b: Input) {
    if factors == [] then a.candidate < b.candidate
    else if FactorTies(factors[0], a, b) then Precedes(factors[1..], a, b)
    else FactorPrecedes(factors[0], a, b)
  }

  predicate TiesOnAll(factors: seq<Factor>, a: Input, b: Input) {
    forall f :: f in factors ==> FactorTies(f, a, b)
  }

  function RankOrder(factors: seq<Factor>): (Input, Input) -> bool {
    (a: Input, b: Input) => Precedes(factors, a, b)
  }

  // ---- Hard eligibility -------------------------------------------------------------------

  predicate VerifierGating(inputs: Inputs) {
    inputs.aggregation.requireVerificationPass || inputs.aggregation.kind == VerifierGated
  }

  predicate JudgeGating(inputs: Inputs) {
    inputs.aggregation.requireJudgeAcceptance || inputs.aggregation.kind == JudgeArbitration
  }

  function EvidenceGate(c: Input, evidence: Evidence): Elimination {
    var e := c.evaluation;
    if evidence.mandatoryCriteria == [] then NotEliminated
    else if e.hardFailures > 0 then HardPredicateFailed
    else if e.hardUnknowns > 0 && evidence.unknownVerificationIsFailure then HardPredicateFailed
    else if e.hardPredicates < |evidence.mandatoryCriteria| then MissingRequiredEvidence
    else NotEliminated
  }

  function StateGate(c: Input): Elimination {
    match c.state
    case Superseded => SupersededElimination
    case Cancelled => CancelledElimination
    case Failed => FailedAttempt
    case Abstained => AbstainedElimination
    case Invalid => InvalidCandidate
    case _ => if IsContent(c.state) then NotEliminated else NotAContentState
  }

  function ScoreGate(c: Input, inputs: Inputs): Elimination {
    var e := c.evaluation;
    if VerifierGating(inputs) && (e.verifierFail > 0 || e.verifierPass == 0) then VerifierFailed
    else if JudgeGating(inputs)
      && (e.accepts + e.rejects == 0 || e.AcceptanceRatio() < inputs.aggregation.minJudgeAcceptanceRatio)
    then InsufficientJudgeAcceptance
    else if e.evaluations < inputs.evidence.minEvaluationsPerCandidate then MissingRequiredEvidence
    else if inputs.aggregation.minAggregateScore > 0.0 && e.MeanScore() < inputs.aggregation.minAggregateScore
    then BelowMinimumScore
    else NotEliminated
  }

  /** The first hard gate a candidate fails, or `NotEliminated`. */
  function CheckEligibility(c: Input, inputs: Inputs): Elimination {
    if !c.generationCurrent then StaleGeneration
    else if StateGate(c) != NotEliminated then StateGate(c)
    else if !c.participantAuthoritative then NotAuthoritative
    else if !c.compatible then Incompatible
    else if !c.roleSelectable then NotSelectableRole
    else if EvidenceGate(c, inputs.evidence) != NotEliminated then EvidenceGate(c, inputs.evidence)
    else ScoreGate(c, inputs)
  }

  predicate IsEligible(c: Input, inputs: Inputs) {
    CheckEligibility(c, inputs) == NotEliminated
  }

  function EligibleInputs(candidates: seq<Input>, inputs: Inputs): seq<Input> {
    Filter(candidates, (c: Input) => IsEligible(c, inputs))
  }

  // ---- Ranking ----------------------------------------------------------------------------

  function FactorValues(factors: seq<Factor>, c: Input): seq<(Factor, real)> {
    seq(|factors|, i requires 0 <= i < |factors| => (factors[i], FactorValue(factors[i], c)))
  }

  function RankingOf(c: Input, inputs: Inputs): Ranking {
    var eligible := IsEligible(c, inputs);
    Ranking(c.candidate, c.generation, c.participant, c.participantGeneration, c.role, eligible,
            CheckEligibility(c, inputs), if eligible then FactorValues(inputs.policy.factors, c) else [], -1, false)
  }

  function Rankings(candidates: seq<Input>, inputs: Inputs): seq<Ranking> {
    seq(|candidates|, i requires 0 <= i < |candidates| => RankingOf(candidates[i], inputs))
  }

  /** Gives `rank` to the first ranking of `candidate`. */
  function SetRank(ranking: seq<Ranking>, candidate: nat, rank: int): (r: seq<Ranking>)
    ensures |r| == |ranking|
  {
    if ranking == [] then []
    else if ranking[0].candidate == candidate then [ranking[0].(rank := rank)] + ranking[1..]
    else [ranking[0]] + SetRank(ranking[1..], candidate, rank)
  }

  function AssignRanks(order: seq<Input>, k: nat, ranking: seq<Ranking>): (r: seq<Ranking>)
    ensures |r| == |ranking|
    decreases |order| - k
  {
    if k >= |order| then ranking else AssignRanks(order, k + 1, SetRank(ranking, order[k].candidate, k + 1))
  }

  /** The first eligible ranking of `candidate`, as a list of at most one. */
  function PickEligible(ranking: seq<Ranking>, candidate: nat): seq<Ranking> {
    if ranking == [] then []
    else if ranking[0].candidate == candidate && ranking[0].eligible then [ranking[0]]
    else PickEligible(ranking[1..], candidate)
  }

  function Ordered(order: seq<Input>, k: nat, ranking: seq<Ranking>): seq<Ranking>
    decreases |order| - k
  {
    if k >= |order| then [] else PickEligible(ranking, order[k].candidate) + Ordered(order, k + 1, ranking)
  }

  function Ineligible(ranking: seq<Ranking>): seq<Ranking> {
    Filter(ranking, (r: Ranking) => !r.eligible)
  }

  // ---- Selection --------------------------------------------------------------------------

  datatype Choice = Unresolved | Chosen(input: Input)

  /** What the tie-break policy decides once the first two are indistinguishable. */
  function BreakTie(policy: TieBreak, first: Input, second: Input): Choice {
    match policy
    case ReportTie => Unresolved
    case LowestCandidateId => Chosen(first)
    case HighestScoreThenId =>
      if second.evaluation.MeanScore() > first.evaluation.MeanScore() then Chosen(second) else Chosen(first)
    case PreferRequiredParticipant =>
      if !first.requiredParticipant && second.requiredParticipant then Chosen(second) else Chosen(first)
  }

  function Choose(policy: ArbitrationPolicy, order: seq<Input>): Choice
    requires order != []
  {
    if |order| >= 2 && TiesOnAll(policy.factors, order[0], order[1])
    then BreakTie(policy.tieBreak, order[0], order[1])
    else Chosen(order[0])
  }

  function MarkSelected(ranking: seq<Ranking>, candidate: nat): (r: seq<Ranking>)
    ensures |r| == |ranking|
  {
    if ranking == [] then []
    else if ranking[0].candidate == candidate && ranking[0].eligible
    then [ranking[0].(selected := true)] + ranking[1..]
    else [ranking[0]] + MarkSelected(ranking[1..], candidate)
  }

  function Conclude(base: Report, policy: ArbitrationPolicy, order: seq<Input>, ranking: seq<Ranking>): Report {
    if order == [] then base.(ranking := ranking, noEligibleCandidate := true)
    else
      var ranked := AssignRanks(order, 0, ranking);
      var listed := Ordered(order, 0, ranked) + Ineligible(ranked);
      match Choose(policy, order)
      case Unresolved => base.(ranking := listed, tieUnresolved := true)
      case Chosen(c) => base.(
        ranking := MarkSelected(listed, c.candidate),
        selected := c.candidate,
        selectedGeneration := c.generation,
        selectedParticipant := c.participant,
        selectedRole := c.role)
  }

  function BaseReport(inputs: Inputs): Report {
    EMPTY_ARBITRATION.(
      ensembleGeneration := inputs.ensembleGeneration,
      epoch := inputs.epoch,
      sequence := inputs.sequence,
      tieBreak := inputs.policy.tieBreak,
      factorOrder := inputs.policy.factors,
      considered := |inputs.candidates|,
      eliminated := CountIf(inputs.candidates, (c: Input) => !IsEligible(c, inputs)))
  }

  /** Eligible candidates in rank order. */
  function Order(inputs: Inputs): seq<Input> {
    Sort(RankOrder(inputs.policy.factors), EligibleInputs(inputs.candidates, inputs))
  }

  function ArbitrationOf(inputs: Inputs): Report {
    Conclude(BaseReport(inputs), inputs.policy, Order(inputs), Rankings(inputs.candidates, inputs))
  }

  // ---- The comparator is a strict total order ----------------------------------------------

  ghost predicate DistinctIds(candidates: seq<Input>) {
    forall i, j :: 0 <= i < j < |candidates| ==> candidates[i].candidate != candidates[j].candidate
  }

  lemma {:induction false} PrecedesIrreflexive(factors: seq<Factor>, a: Input)
    ensures !Precedes(factors, a, a)
  {
    if factors != [] { PrecedesIrreflexive(factors[1..], a); }
  }

  lemma {:induction false} PrecedesConnected(factors: seq<Factor>, a: Input, b: Input)
    requires a.candidate != b.candidate
    ensures Precedes(factors, a, b) || Precedes(factors, b, a)
  {
    if factors != [] { PrecedesConnected(factors[1..], a, b); }
  }

  lemma {:induction false} PrecedesTransitive(factors: seq<Factor>, a: Input, b: Input, c: Input)
    requires Precedes(factors, a, b) && Precedes(factors, b, c)
    ensures Precedes(factors, a, c)
  {
    if factors != [] {
      var f := factors[0];
      if FactorTies(f, a, b) && FactorTies(f, b, c) {
        PrecedesTransitive(factors[1..], a, b, c);
      }
    }
  }

  lemma RankOrderIsStrictTotal(factors: seq<Factor>, candidates: seq<Input>)
    requires DistinctIds(candidates)
    ensures StrictTotalOn(RankOrder(factors), multiset(candidates))
  {
    var less := RankOrder(factors);
    forall x | x in multiset(candidates) ensures !less(x, x) {
      PrecedesIrreflexive(factors, x);
    }
    forall x, y | x in multiset(candidates) && y in multiset(candidates) && x != y ensures less(x, y) || less(y, x) {
      var i :| 0 <= i < |candidates| && candidates[i] == x;
      var j :| 0 <= j < |candidates| && candidates[j] == y;
      PrecedesConnected(factors, x, y);
    }
    forall x, y, z | less(x, y) && less(y, z) ensures less(x, z) {
      PrecedesTransitive(factors, x, y, z);
    }
  }

  // ---- Order of the eligible candidates ----------------------------------------------------

  lemma {:induction false} EligibleMultiplicity(candidates: seq<Input>, inputs: Inputs, k: Input)
    ensures multiset(EligibleInputs(candidates, inputs))[k] == if IsEligible(k, inputs) then multiset(candidates)[k] else 0
  {
    if candidates != [] {
      assert candidates == [candidates[0]] + candidates[1..];
      EligibleMultiplicity(candidates[1..], inputs, k);
    }
  }

  lemma {:induction false} EligibleKeepsDistinct(candidates: seq<Input>, inputs: Inputs)
    requires DistinctIds(candidates)
    ensures DistinctIds(EligibleInputs(candidates, inputs))
  {
    if candidates != [] {
      EligibleKeepsDistinct(candidates[1..], inputs);
      var rest := EligibleInputs(candidates[1..], inputs);
      forall j | 0 <= j < |rest| ensures rest[j].candidate != candidates[0].candidate {
        assert rest[j] in rest;
        assert rest[j] in candidates[1..];
      }
    }
  }

  /** `inputs` and `inputs'` differ only in how their candidates are listed. */
  ghost predicate Reordered(inputs: Inputs, inputs': Inputs) {
    && inputs' == inputs.(candidates := inputs'.candidates)
    && multiset(inputs'.candidates) == multiset(inputs.candidates)
  }

  lemma {:induction false} EligibilityIgnoresListing(candidates: seq<Input>, inputs: Inputs, inputs': Inputs)
    requires inputs' == inputs.(candidates := inputs'.candidates)
    ensures EligibleInputs(candidates, inputs') == EligibleInputs(candidates, inputs)
  {
    if candidates != [] {
      EligibilityIgnoresListing(candidates[1..], inputs, inputs');
    }
  }

  /** Any listing of the same candidates gives the same rank order. */
  lemma OrderIgnoresListing(inputs: Inputs, inputs': Inputs)
    requires Reordered(inputs, inputs') && DistinctIds(inputs.candidates)
    ensures Order(inputs') == Order(inputs)
  {
    EligibilityIgnoresListing(inputs'.candidates, inputs, inputs');
    var a, b := EligibleInputs(inputs.candidates, inputs), EligibleInputs(inputs'.candidates, inputs);
    forall k ensures multiset(a)[k] == multiset(b)[k] {
      EligibleMultiplicity(inputs.candidates, inputs, k);
      EligibleMultiplicity(inputs'.candidates, inputs, k);
    }
    assert multiset(a) == multiset(b);
    EligibleKeepsDistinct(inputs.candidates, inputs);
    RankOrderIsStrictTotal(inputs.policy.factors, a);
    SortForgetsOrder(RankOrder(inputs.policy.factors), a, b);
  }

  /** The rank order lists exactly the eligible candidates, each once. */
  lemma OrderListsEligible(inputs: Inputs)
    ensures |Order(inputs)| == |EligibleInputs(inputs.candidates, inputs)|
    ensures forall c :: c in Order(inputs) <==> c in inputs.candidates && IsEligible(c, inputs)
    ensures DistinctIds(inputs.candidates) ==> DistinctIds(Order(inputs))
  {
    var eligible := EligibleInputs(inputs.candidates, inputs);
    var order := Order(inputs);
    SortPermutes(RankOrder(inputs.policy.factors), eligible);
    assert forall c :: c in order <==> c in multiset(order);
    assert forall c :: c in eligible <==> c in multiset(eligible);
    if DistinctIds(inputs.candidates) {
      EligibleKeepsDistinct(inputs.candidates, inputs);
      PermutationKeepsDistinct(eligible, order);
    }
  }

  lemma {:induction false} PermutationKeepsDistinct(a: seq<Input>, b: seq<Input>)
    requires multiset(a) == multiset(b) && DistinctIds(a)
    ensures DistinctIds(b)
  {
    forall i, j | 0 <= i < j < |b| ensures b[i].candidate != b[j].candidate {
      if b[i].candidate == b[j].candidate {
        assert b[i] in multiset(b) && b[j] in multiset(b);
        assert b[i] in a && b[j] in a;
        assert b[i] == b[j];
        OccursTwice(b, i, j);
        MultiplicityOfDistinct(a, b[i]);
        assert false;
      }
    }
  }

  lemma OccursTwice(b: seq<Input>, i: nat, j: nat)
    requires i < j < |b| && b[i] == b[j]
    ensures multiset(b)[b[i]] >= 2
  {
    assert b == b[..i] + [b[i]] + b[i + 1..j] + [b[j]] + b[j + 1..];
  }

  lemma {:induction false} MultiplicityOfDistinct(a: seq<Input>, x: Input)
    requires DistinctIds(a)
    ensures multiset(a)[x] <= 1
  {
    if a != [] {
      assert a == [a[0]] + a[1..];
      MultiplicityOfDistinct(a[1..], x);
      if x == a[0] {
        assert x !in a[1..];
        assert x !in multiset(a[1..]);
      }
    }
  }

  // ---- The ranking in closed form ----------------------------------------------------------

  ghost predicate DistinctRanked(ranking: seq<Ranking>) {
    forall i, j :: 0 <= i < j < |ranking| ==> ranking[i].candidate != ranking[j].candidate
  }

  lemma {:induction false} SetRankAt(ranking: seq<Ranking>, m: nat, rank: int)
    requires m < |ranking| && DistinctRanked(ranking)
    ensures SetRank(ranking, ranking[m].candidate, rank) == ranking[m := ranking[m].(rank := rank)]
  {
    if m != 0 {
      SetRankAt(ranking[1..], m - 1, rank);
    }
  }

  /** The ranking that names the candidate at `order[k]`. */
  ghost predicate Locates(ranking: seq<Ranking>, order: seq<Input>, at: seq<nat>) {
    && |at| == |order|
    && (forall k :: 0 <= k < |order| ==> at[k] < |ranking| && ranking[at[k]].candidate == order[k].candidate)
    && (forall k, l :: 0 <= k < l < |order| ==> at[k] != at[l])
  }

  lemma SetRankKeepsLocation(order: seq<Input>, ranking: seq<Ranking>, at: seq<nat>, k: nat, rank: int)
    requires k < |order| && DistinctRanked(ranking) && Locates(ranking, order, at)
    ensures var next := SetRank(ranking, order[k].candidate, rank);
            next == ranking[at[k] := ranking[at[k]].(rank := rank)] && DistinctRanked(next) && Locates(next, order, at)
  {
    SetRankAt(ranking, at[k], rank);
  }

  /** Ranks are written only where `at[k..]` points. */
  lemma {:induction false} AssignRanksMiss(order: seq<Input>, k: nat, ranking: seq<Ranking>, at: seq<nat>, m: nat)
    requires k <= |order| && DistinctRanked(ranking) && Locates(ranking, order, at)
    requires m < |ranking| && forall j :: k <= j < |order| ==> at[j] != m
    ensures AssignRanks(order, k, ranking)[m] == ranking[m]
    decreases |order| - k
  {
    if k < |order| {
      SetRankKeepsLocation(order, ranking, at, k, k + 1);
      AssignRanksMiss(order, k + 1, SetRank(ranking, order[k].candidate, k + 1), at, m);
    }
  }

  /** The `j`-th of the order receives rank `j + 1`. */
  lemma {:induction false} AssignRanksHit(order: seq<Input>, k: nat, ranking: seq<Ranking>, at: seq<nat>, j: nat)
    requires k <= j < |order| && DistinctRanked(ranking) && Locates(ranking, order, at)
    ensures AssignRanks(order, k, ranking)[at[j]] == ranking[at[j]].(rank := j + 1)
    decreases |order| - k
  {
    SetRankKeepsLocation(order, ranking, at, k, k + 1);
    var next := SetRank(ranking, order[k].candidate, k + 1);
    if k == j {
      AssignRanksMiss(order, k + 1, next, at, at[k]);
    } else {
      AssignRanksHit(order, k + 1, next, at, j);
    }
  }

  lemma {:induction false} PickEligibleAt(ranking: seq<Ranking>, m: nat)
    requires m < |ranking| && DistinctRanked(ranking) && ranking[m].eligible
    ensures PickEligible(ranking, ranking[m].candidate) == [ranking[m]]
  {
    if m != 0 {
      PickEligibleAt(ranking[1..], m - 1);
    }
  }

  lemma {:induction false} OrderedAt(order: seq<Input>, k: nat, ranking: seq<Ranking>, at: seq<nat>)
    requires k <= |order| && DistinctRanked(ranking) && Locates(ranking, order, at)
    requires forall j :: 0 <= j < |order| ==> ranking[at[j]].eligible
    ensures |Ordered(order, k, ranking)| == |order| - k
    ensures forall j :: k <= j < |order| ==> Ordered(order, k, ranking)[j - k] == ranking[at[j]]
    decreases |order| - k
  {
    if k < |order| {
      PickEligibleAt(ranking, at[k]);
      OrderedAt(order, k + 1, ranking, at);
      var rest := Ordered(order, k + 1, ranking);
      assert Ordered(order, k, ranking) == [ranking[at[k]]] + rest;
      forall j | k <= j < |order| ensures ([ranking[at[k]]] + rest)[j - k] == ranking[at[j]] {
        if j > k {
          assert ([ranking[at[k]]] + rest)[j - k] == rest[j - (k + 1)];
        }
      }
    }
  }

  lemma {:induction false} MarkSelectedAt(ranking: seq<Ranking>, m: nat)
    requires m < |ranking| && DistinctRanked(ranking[..m + 1]) && ranking[m].eligible
    ensures MarkSelected(ranking, ranking[m].candidate) == ranking[m := ranking[m].(selected := true)]
  {
    if m != 0 {
      assert ranking[0] == ranking[..m + 1][0] && ranking[m] == ranking[..m + 1][m];
      forall i, j | 0 <= i < j < m ensures ranking[1..][..m][i].candidate != ranking[1..][..m][j].candidate {
        assert ranking[..m + 1][i + 1].candidate != ranking[..m + 1][j + 1].candidate;
      }
      MarkSelectedAt(ranking[1..], m - 1);
    }
  }

  lemma {:induction false} LocateInputs(candidates: seq<Input>, order: seq<Input>) returns (at: seq<nat>)
    requires DistinctIds(order) && forall c :: c in order ==> c in candidates
    ensures |at| == |order| && forall k :: 0 <= k < |order| ==> at[k] < |candidates| && candidates[at[k]] == order[k]
  {
    if order == [] {
      at := [];
    } else {
      var n := |order| - 1;
      var front := LocateInputs(candidates, order[..n]);
      assert order[n] in order;
      var m :| 0 <= m < |candidates| && candidates[m] == order[n];
      at := front + [m];
    }
  }

  /** The entry of the candidate ranked `k`-th: its own facts, its rank, and whether it was chosen. */
  function RankedEntry(inputs: Inputs, k: nat): Ranking
    requires k < |Order(inputs)|
  {
    var order := Order(inputs);
    RankingOf(order[k], inputs).(rank := k + 1, selected := Choose(inputs.policy, order) == Chosen(order[k]))
  }

  lemma {:induction false} IneligibleUnranked(ranking: seq<Ranking>)
    requires forall r :: r in ranking && !r.eligible ==> r.rank == -1
    ensures forall r :: r in Ineligible(ranking) ==> !r.eligible && r.rank == -1
    ensures |Ineligible(ranking)| == CountIf(ranking, (r: Ranking) => !r.eligible)
  {
    if ranking != [] {
      IneligibleUnranked(ranking[1..]);
    }
  }

  lemma {:induction false} CountEliminated(candidates: seq<Input>, inputs: Inputs, ranking: seq<Ranking>)
    requires |ranking| == |candidates|
    requires forall i :: 0 <= i < |candidates| ==> ranking[i].eligible == IsEligible(candidates[i], inputs)
    ensures CountIf(ranking, (r: Ranking) => !r.eligible) == CountIf(candidates, (c: Input) => !IsEligible(c, inputs))
    ensures |EligibleInputs(candidates, inputs)| + CountIf(candidates, (c: Input) => !IsEligible(c, inputs)) == |candidates|
  {
    if candidates != [] {
      assert ranking[0].eligible == IsEligible(candidates[0], inputs);
      CountEliminated(candidates[1..], inputs, ranking[1..]);
    }
  }

  /** Where each ranked candidate sits in the listing, and what `AssignRanks` leaves there. */
  lemma RankedInPlace(inputs: Inputs) returns (at: seq<nat>)
    requires DistinctIds(inputs.candidates)
    ensures var order := Order(inputs);
            var ranking := Rankings(inputs.candidates, inputs);
            var ranked := AssignRanks(order, 0, ranking);
            && Locates(ranking, order, at)
            && (forall k :: 0 <= k < |order| ==> inputs.candidates[at[k]] == order[k])
            && (forall k :: 0 <= k < |order| ==> ranked[at[k]] == RankingOf(order[k], inputs).(rank := k + 1))
            && (forall m :: 0 <= m < |ranked| && m !in at ==> ranked[m] == ranking[m])
  {
    var order := Order(inputs);
    OrderListsEligible(inputs);
    at := LocateInputs(inputs.candidates, order);
    var ranking := Rankings(inputs.candidates, inputs);
    forall k, l | 0 <= k < l < |order| ensures at[k] != at[l] {
      assert order[k].candidate != order[l].candidate;
    }
    forall k | 0 <= k < |order| ensures AssignRanks(order, 0, ranking)[at[k]] == ranking[at[k]].(rank := k + 1) {
      AssignRanksHit(order, 0, ranking, at, k);
    }
    forall m | 0 <= m < |ranking| && m !in at ensures AssignRanks(order, 0, ranking)[m] == ranking[m] {
      AssignRanksMiss(order, 0, ranking, at, m);
    }
  }

  lemma RankedKeepsFacts(inputs: Inputs, at: seq<nat>, m: nat)
    requires var order := Order(inputs);
             var ranking := Rankings(inputs.candidates, inputs);
             var ranked := AssignRanks(order, 0, ranking);
             && |at| == |order|
             && (forall k :: 0 <= k < |order| ==> at[k] < |ranking| && inputs.candidates[at[k]] == order[k])
             && (forall k :: 0 <= k < |order| ==> ranked[at[k]] == RankingOf(order[k], inputs).(rank := k + 1))
             && (forall m :: 0 <= m < |ranked| && m !in at ==> ranked[m] == ranking[m])
    requires m < |inputs.candidates|
    ensures var r := AssignRanks(Order(inputs), 0, Rankings(inputs.candidates, inputs))[m];
            && r.candidate == inputs.candidates[m].candidate
            && r.eligible == IsEligible(inputs.candidates[m], inputs)
            && (!r.eligible ==> r.rank == -1)
  {
    OrderListsEligible(inputs);
    if m in at {
      var k :| 0 <= k < |at| && at[k] == m;
      assert Order(inputs)[k] in Order(inputs);
    }
  }

  /** The ranks the report assigns, before the selected entry is marked. */
  lemma ListedInRankOrder(inputs: Inputs)
    requires DistinctIds(inputs.candidates)
    ensures var order := Order(inputs);
            var ranked := AssignRanks(order, 0, Rankings(inputs.candidates, inputs));
            && |Ordered(order, 0, ranked)| == |order|
            && (forall k :: 0 <= k < |order| ==> Ordered(order, 0, ranked)[k] == RankingOf(order[k], inputs).(rank := k + 1))
            && (forall r :: r in Ineligible(ranked) ==> !r.eligible && r.rank == -1)
            && |order| + |Ineligible(ranked)| == |inputs.candidates|
            && |Ineligible(ranked)| == BaseReport(inputs).eliminated
  {
    var order := Order(inputs);
    OrderListsEligible(inputs);
    var at := RankedInPlace(inputs);
    var ranked := AssignRanks(order, 0, Rankings(inputs.candidates, inputs));
    forall m | 0 <= m < |ranked|
      ensures ranked[m].candidate == inputs.candidates[m].candidate
      ensures ranked[m].eligible == IsEligible(inputs.candidates[m], inputs)
      ensures !ranked[m].eligible ==> ranked[m].rank == -1
    {
      RankedKeepsFacts(inputs, at, m);
    }
    assert DistinctRanked(ranked);
    forall k | 0 <= k < |order| ensures ranked[at[k]].eligible {
      assert order[k] in order;
    }
    OrderedAt(order, 0, ranked, at);
    forall k | 0 <= k < |order| ensures Ordered(order, 0, ranked)[k] == RankingOf(order[k], inputs).(rank := k + 1) {
      assert Ordered(order, 0, ranked)[k - 0] == ranked[at[k]];
    }
    IneligibleUnranked(ranked);
    CountEliminated(inputs.candidates, inputs, ranked);
  }

  /** Marking the chosen candidate turns the listing into the final entries. */
  lemma MarkTheChosen(inputs: Inputs, listed: seq<Ranking>)
    requires DistinctIds(inputs.candidates) && Order(inputs) != [] && |listed| >= |Order(inputs)|
    requires forall k :: 0 <= k < |Order(inputs)| ==> listed[k] == RankingOf(Order(inputs)[k], inputs).(rank := k + 1)
    ensures var order := Order(inputs);
            var choice := Choose(inputs.policy, order);
            var marked := if choice.Chosen? then MarkSelected(listed, choice.input.candidate) else listed;
            && |marked| == |listed|
            && (forall k :: 0 <= k < |order| ==> marked[k] == RankedEntry(inputs, k))
            && (forall k :: |order| <= k < |listed| ==> marked[k] == listed[k])
  {
    var order := Order(inputs);
    OrderListsEligible(inputs);
    var choice := Choose(inputs.policy, order);
    if choice.Chosen? {
      var m := if choice.input == order[0] then 0 else 1;
      assert order[m] == choice.input && order[m] in order;
      assert listed[m].eligible && listed[m].candidate == choice.input.candidate;
      MarkSelectedAt(listed, m);
    }
  }

  lemma ClosedFormWhenNobodyIsEligible(inputs: Inputs)
    requires DistinctIds(inputs.candidates) && Order(inputs) == []
    ensures var report := ArbitrationOf(inputs);
            && |report.ranking| == |inputs.candidates| == report.considered == report.eliminated
            && (forall k :: 0 <= k < |report.ranking| ==> !report.ranking[k].eligible && report.ranking[k].rank == -1)
  {
    OrderListsEligible(inputs);
    var ranking := Rankings(inputs.candidates, inputs);
    CountEliminated(inputs.candidates, inputs, ranking);
    forall i | 0 <= i < |ranking| ensures !ranking[i].eligible {
      assert inputs.candidates[i] !in Order(inputs);
    }
  }

  /** The listing a report ends up with when somebody is eligible. */
  function Listing(inputs: Inputs): seq<Ranking> {
    var ranked := AssignRanks(Order(inputs), 0, Rankings(inputs.candidates, inputs));
    Ordered(Order(inputs), 0, ranked) + Ineligible(ranked)
  }

  lemma ReportCarriesListing(inputs: Inputs)
    requires Order(inputs) != []
    ensures var report, choice := ArbitrationOf(inputs), Choose(inputs.policy, Order(inputs));
            && report.ranking == (if choice.Chosen? then MarkSelected(Listing(inputs), choice.input.candidate) else Listing(inputs))
            && report.considered == |inputs.candidates| && report.eliminated == BaseReport(inputs).eliminated
  {
  }

  lemma ListingClosedForm(inputs: Inputs)
    requires DistinctIds(inputs.candidates)
    ensures var listed, n := Listing(inputs), |Order(inputs)|;
            && |listed| == |inputs.candidates| == n + BaseReport(inputs).eliminated
            && (forall k :: 0 <= k < n ==> listed[k] == RankingOf(Order(inputs)[k], inputs).(rank := k + 1))
            && (forall k :: n <= k < |listed| ==> !listed[k].eligible && listed[k].rank == -1)
  {
    ListedInRankOrder(inputs);
    var ranked := AssignRanks(Order(inputs), 0, Rankings(inputs.candidates, inputs));
    var listed := Listing(inputs);
    forall k | |Order(inputs)| <= k < |listed| ensures !listed[k].eligible && listed[k].rank == -1 {
      assert listed[k] in Ineligible(ranked);
    }
  }

  lemma ClosedFormWhenSomebodyIsEligible(inputs: Inputs)
    requires DistinctIds(inputs.candidates) && Order(inputs) != []
    ensures var report, order := ArbitrationOf(inputs), Order(inputs);
            && |report.ranking| == |inputs.candidates| == report.considered
            && |order| + report.eliminated == report.considered
            && (forall k :: 0 <= k < |order| ==> report.ranking[k] == RankedEntry(inputs, k))
            && (forall k :: |order| <= k < |report.ranking| ==> !report.ranking[k].eligible && report.ranking[k].rank == -1)
  {
    ListingClosedForm(inputs);
    MarkTheChosen(inputs, Listing(inputs));
    ReportCarriesListing(inputs);
    var marked, listed := ArbitrationOf(inputs).ranking, Listing(inputs);
    forall k | |Order(inputs)| <= k < |marked| ensures !marked[k].eligible && marked[k].rank == -1 {
      assert marked[k] == listed[k];
    }
  }

  /**
   The report lists every candidate: the eligible ones first, in rank order, with ranks exactly
   1..n, then the eliminated ones unranked; eligible plus eliminated is everything considered.
   */
  lemma RankingClosedForm(inputs: Inputs)
    requires DistinctIds(inputs.candidates)
    ensures var report, order := ArbitrationOf(inputs), Order(inputs);
            && |report.ranking| == |inputs.candidates| == report.considered
            && |order| + report.eliminated == report.considered
            && (forall k :: 0 <= k < |order| ==> report.ranking[k] == RankedEntry(inputs, k))
            && (forall k :: |order| <= k < |report.ranking| ==> !report.ranking[k].eligible && report.ranking[k].rank == -1)
  {
    var order := Order(inputs);
    if order == [] {
      ClosedFormWhenNobodyIsEligible(inputs);
    } else {
      ClosedFormWhenSomebodyIsEligible(inputs);
    }
  }

  /**
   Arbitration forgets how its candidates were listed: any permutation gives the same selection,
   the same ranks and the same eligible prefix of the ranking.
   */
  lemma ArbitrationIgnoresListing(inputs: Inputs, inputs': Inputs)
    requires Reordered(inputs, inputs') && DistinctIds(inputs.candidates)
    ensures var r, r' := ArbitrationOf(inputs), ArbitrationOf(inputs');
            && r' == r.(ranking := r'.ranking)
            && |r'.ranking| == |r.ranking|
            && forall k :: 0 <= k < |Order(inputs)| ==> k < |r.ranking| && r'.ranking[k] == r.ranking[k]
  {
    PermutationKeepsDistinct(inputs.candidates, inputs'.candidates);
    OrderIgnoresListing(inputs, inputs');
    RankingClosedForm(inputs);
    RankingClosedForm(inputs');
    assert |inputs.candidates| == |multiset(inputs.candidates)| == |multiset(inputs'.candidates)| == |inputs'.candidates|;
    forall k | 0 <= k < |Order(inputs)| ensures RankedEntry(inputs', k) == RankedEntry(inputs, k) {
      EntryIgnoresListing(inputs, inputs', k);
    }
    SameConclusion(inputs, inputs');
  }

  lemma EntryIgnoresListing(inputs: Inputs, inputs': Inputs, k: nat)
    requires inputs' == inputs.(candidates := inputs'.candidates)
    requires Order(inputs') == Order(inputs) && k < |Order(inputs)|
    ensures RankedEntry(inputs', k) == RankedEntry(inputs, k)
  {
    var c := Order(inputs)[k];
    assert CheckEligibility(c, inputs') == CheckEligibility(c, inputs);
  }

  lemma SameConclusion(inputs: Inputs, inputs': Inputs)
    requires inputs' == inputs.(candidates := inputs'.candidates)
    requires Order(inputs') == Order(inputs)
    requires |inputs'.candidates| == |inputs.candidates|
    requires BaseReport(inputs').eliminated == BaseReport(inputs).eliminated
    ensures var r, r' := ArbitrationOf(inputs), ArbitrationOf(inputs');
            r' == r.(ranking := r'.ranking)
  {
    assert BaseReport(inputs) == BaseReport(inputs');
  }

  /** Soundness of a selection: it passed every hard gate and the first-ranked does not beat it unless it ties. */
  lemma SelectionIsEligible(inputs: Inputs)
    ensures var report, order := ArbitrationOf(inputs), Order(inputs);
            && report.noEligibleCandidate == (order == [])
            && report.tieUnresolved == (order != [] && Choose(inputs.policy, order) == Unresolved)
            && (order != [] && Choose(inputs.policy, order).Chosen? ==>
                  var c := Choose(inputs.policy, order).input;
                  && c in inputs.candidates && IsEligible(c, inputs)
                  && report.selected == c.candidate && report.selectedGeneration == c.generation
                  && report.selectedParticipant == c.participant && report.selectedRole == c.role
                  && (c == order[0] || (|order| >= 2 && c == order[1] && TiesOnAll(inputs.policy.factors, order[0], c))))
            && (report.selected != 0 ==> order != [] && Choose(inputs.policy, order).Chosen?)
  {
    var order := Order(inputs);
    OrderListsEligible(inputs);
    if order != [] {
      assert order[0] in order;
      if |order| >= 2 { assert order[1] in order; }
    }
  }

  /** Unless the first two tie, the selected candidate precedes every other eligible candidate. */
  lemma SelectionPrecedesTheRest(inputs: Inputs, other: Input)
    requires DistinctIds(inputs.candidates)
    requires Order(inputs) != []
    requires other in inputs.candidates && IsEligible(other, inputs)
    ensures other == Order(inputs)[0] || Precedes(inputs.policy.factors, Order(inputs)[0], other)
  {
    var eligible := EligibleInputs(inputs.candidates, inputs);
    EligibleKeepsDistinct(inputs.candidates, inputs);
    RankOrderIsStrictTotal(inputs.policy.factors, eligible);
    SortSorts(RankOrder(inputs.policy.factors), eligible);
    OrderListsEligible(inputs);
    FirstLeads(RankOrder(inputs.policy.factors), Order(inputs), other);
  }

  // ---- Arbitration as the runtime performs it ----------------------------------------------

  method RankCandidates(inputs: Inputs) returns (ranking: seq<Ranking>, eligible: seq<Input>, eliminated: nat)
    ensures ranking == Rankings(inputs.candidates, inputs)
    ensures eligible == EligibleInputs(inputs.candidates, inputs)
    ensures eliminated == BaseReport(inputs).eliminated
  {
    ranking, eligible, eliminated := [], [], 0;
    for i := 0 to |inputs.candidates|
      invariant ranking == Rankings(inputs.candidates[..i], inputs)
      invariant eligible == EligibleInputs(inputs.candidates[..i], inputs)
      invariant eliminated == CountIf(inputs.candidates[..i], (c: Input) => !IsEligible(c, inputs))
    {
      var c := inputs.candidates[i];
      assert inputs.candidates[..i + 1] == inputs.candidates[..i] + [c];
      FilterSnoc(inputs.candidates[..i], c, (d: Input) => IsEligible(d, inputs));
      CountIfSnoc(inputs.candidates[..i], c, (d: Input) => !IsEligible(d, inputs));
      if IsEligible(c, inputs) {
        eligible := eligible + [c];
      } else {
        eliminated := eliminated + 1;
      }
      ranking := ranking + [RankingOf(c, inputs)];
    }
    assert inputs.candidates[..|inputs.candidates|] == inputs.candidates;
  }

  method DetectTopTie(factors: seq<Factor>, order: seq<Input>) returns (tie: bool)
    ensures tie == (|order| >= 2 && TiesOnAll(factors, order[0], order[1]))
  {
    tie := false;
    if |order| >= 2 {
      tie := true;
      for i := 0 to |factors|
        invariant tie && forall j :: 0 <= j < i ==> FactorTies(factors[j], order[0], order[1])
      {
        if !FactorTies(factors[i], order[0], order[1]) {
          return false;
        }
      }
    }
  }

  method ReorderByRank(order: seq<Input>, ranking: seq<Ranking>) returns (listed: seq<Ranking>)
    ensures var ranked := AssignRanks(order, 0, ranking);
            listed == Ordered(order, 0, ranked) + Ineligible(ranked)
  {
    var ranked := ranking;
    for k := 0 to |order|
      invariant AssignRanks(order, 0, ranking) == AssignRanks(order, k, ranked)
    {
      ranked := SetRank(ranked, order[k].candidate, k + 1);
    }
    listed := [];
    for k := 0 to |order|
      invariant Ordered(order, 0, ranked) == listed + Ordered(order, k, ranked)
    {
      listed := listed + PickEligible(ranked, order[k].candidate);
    }
    ghost var front := listed;
    for i := 0 to |ranked|
      invariant listed == front + Ineligible(ranked[..i])
    {
      assert ranked[..i + 1] == ranked[..i] + [ranked[i]];
      FilterSnoc(ranked[..i], ranked[i], (r: Ranking) => !r.eligible);
      if !ranked[i].eligible {
        listed := listed + [ranked[i]];
      }
    }
    assert ranked[..|ranked|] == ranked;
  }

  method Arbitrate(inputs: Inputs) returns (report: Report)
    ensures report == ArbitrationOf(inputs)
  {
    var ranking, eligible, eliminated := RankCandidates(inputs);
    report := EMPTY_ARBITRATION.(
      ensembleGeneration := inputs.ensembleGeneration,
      epoch := inputs.epoch,
      sequence := inputs.sequence,
      tieBreak := inputs.policy.tieBreak,
      factorOrder := inputs.policy.factors,
      considered := |inputs.candidates|,
      eliminated := eliminated,
      ranking := ranking);
    SortPermutes(RankOrder(inputs.policy.factors), eligible);
    if eligible == [] {
      report := report.(noEligibleCandidate := true);
      return;
    }
    var order := Sort(RankOrder(inputs.policy.factors), eligible);
    var tie := DetectTopTie(inputs.policy.factors, order);
    var listed := ReorderByRank(order, ranking);
    var winner := order[0];
    if tie {
      match inputs.policy.tieBreak {
        case ReportTie =>
          report := report.(ranking := listed, tieUnresolved := true);
          return;
        case LowestCandidateId =>
        case HighestScoreThenId =>
          if order[1].evaluation.MeanScore() > order[0].evaluation.MeanScore() {
            winner := order[1];
          }
        case PreferRequiredParticipant =>
          if !order[0].requiredParticipant && order[1].requiredParticipant {
            winner := order[1];
          }
      }
    }
    report := report.(
      ranking := MarkSelected(listed, winner.candidate),
      selected := winner.candidate,
      selectedGeneration := winner.generation,
      selectedParticipant := winner.participant,
      selectedRole := winner.role);
  }
}
