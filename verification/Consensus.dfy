/** The consensus computation: who leads, by how much, and whether that settles anything. */
module Consensus {
  import opened Base
  import opened Quorum
  import opened Sorting
  import Spec

  datatype ConsensusState =
    | ConsensusNotEvaluated | ConsensusAgreed | ConsensusWithAbstentions | PluralityWithoutThreshold
    | QuorumNotReachedState | QuorumImpossibleState | Disagreement | Tie | InsufficientEvidence
    | RequiredParticipantFailedState | AllCandidatesInvalid | NoEligibleCandidate | FallbackRequired
    | ConsensusCancelled | ConsensusSuperseded | ConsensusRevalidationRequired

  predicate Resolved(s: ConsensusState) {
    s == ConsensusAgreed || s == ConsensusWithAbstentions || s == PluralityWithoutThreshold
  }

  datatype Tally = Tally(
    candidate: nat,
    generation: nat,
    participant: nat,
    eligible: bool,
    agreeing: nat,
    disagreeing: nat,
    abstaining: nat,
    weightedAgree: real,
    agreeingMembers: seq<nat>,
    disagreeingMembers: seq<nat>,
    abstainingMembers: seq<nat>)

  datatype ConsensusInputs = ConsensusInputs(
    quorum: QuorumReport,
    tallies: seq<Tally>,
    candidatesDeclared: nat,
    invalidCandidates: nat,
    requiredParticipantFailed: bool,
    requireAllRequired: bool,
    cancelled: bool,
    superseded: bool,
    revalidationRequired: bool,
    fallbackRequired: bool,
    requiresVotes: bool,
    ensembleGeneration: nat,
    epoch: nat,
    sequence: nat)

  datatype ConsensusReport = ConsensusReport(
    state: ConsensusState,
    leadingCandidate: nat,
    leadingGeneration: nat,
    leadingParticipant: nat,
    agreeing: nat,
    disagreeing: nat,
    abstaining: nat,
    missing: nat,
    invalidCandidates: nat,
    eligibleCandidates: nat,
    candidatesDeclared: nat,
    thresholdPercent: nat,
    thresholdCount: nat,
    voteBasis: nat,
    runnerUpVotes: nat,
    unresolvedDisagreement: bool,
    ensembleGeneration: nat,
    epoch: nat,
    sequence: nat,
    agreeingMembers: seq<nat>,
    disagreeingMembers: seq<nat>,
    abstainingMembers: seq<nat>,
    eligibleCandidatesList: seq<nat>)

  const EMPTY_CONSENSUS: ConsensusReport :=
    ConsensusReport(ConsensusNotEvaluated, 0, 0, 0, 0, 0, 0, 0, 0, 0, 0, 0, 0, 0, 0, false, 0, 0, 0, [], [], [], [])

  /** More agreement first, then more weighted agreement, then the lower candidate identity. */
  predicate BetterTally(a: Tally, b: Tally) {
    if a.agreeing != b.agreeing then a.agreeing > b.agreeing
    else if a.weightedAgree != b.weightedAgree then a.weightedAgree > b.weightedAgree
    else a.candidate < b.candidate
  }

  function TallyOrder(): (Tally, Tally) -> bool {
    (a: Tally, b: Tally) => BetterTally(a, b)
  }

  function EligibleTallies(tallies: seq<Tally>): seq<Tally> {
    Filter(tallies, (t: Tally) => t.eligible)
  }

  function CandidatesOf(tallies: seq<Tally>): seq<nat> {
    seq(|tallies|, i requires 0 <= i < |tallies| => tallies[i].candidate)
  }

  /** Largest agreement among the tallies: what every challenger of a leader can muster. */
  function MaxAgreeing(tallies: seq<Tally>): (m: nat)
    ensures forall t :: t in tallies ==> t.agreeing <= m
    ensures m > 0 ==> exists t :: t in tallies && t.agreeing == m
  {
    if tallies == [] then 0
    else
      var n := |tallies| - 1;
      var rest := MaxAgreeing(tallies[..n]);
      assert forall t :: t in tallies ==> t in tallies[..n] || t == tallies[n];
      if tallies[n].agreeing > rest then tallies[n].agreeing else rest
  }

  function Supporters(tallies: seq<Tally>): seq<nat> {
    if tallies == [] then [] else Supporters(tallies[..|tallies| - 1]) + tallies[|tallies| - 1].agreeingMembers
  }

  /** Terminal conditions and eligibility, which win over any vote arithmetic. */
  function Verdict(inputs: ConsensusInputs, eligible: nat): Option<ConsensusState> {
    if inputs.superseded then Some(ConsensusSuperseded)
    else if inputs.revalidationRequired then Some(ConsensusRevalidationRequired)
    else if inputs.cancelled then Some(ConsensusCancelled)
    else if inputs.requiredParticipantFailed && inputs.requireAllRequired then Some(RequiredParticipantFailedState)
    else if inputs.quorum.state == QuorumImpossible then Some(QuorumImpossibleState)
    else if eligible == 0 then
      if inputs.candidatesDeclared > 0 && inputs.invalidCandidates >= inputs.candidatesDeclared
      then Some(AllCandidatesInvalid) else Some(NoEligibleCandidate)
    else if inputs.fallbackRequired then Some(FallbackRequired)
    else if inputs.quorum.state != QuorumReached then Some(QuorumNotReachedState)
    else None
  }

  /** The state once votes are counted: `top` agreement of the leader against `runnerUp`. */
  function VoteState(inputs: ConsensusInputs, eligible: nat, top: nat, runnerUp: nat): ConsensusState {
    if top == 0 then
      if inputs.requiresVotes then InsufficientEvidence
      else if eligible == 1 then ConsensusAgreed else PluralityWithoutThreshold
    else if inputs.quorum.thresholdPercent > 0 && top < inputs.quorum.thresholdCount then
      if runnerUp == top then Tie else Disagreement
    else if inputs.quorum.thresholdPercent == 0 && runnerUp == top then Tie
    else if inputs.quorum.abstentions > 0 then ConsensusWithAbstentions
    else if inputs.quorum.thresholdPercent == 0 then PluralityWithoutThreshold
    else ConsensusAgreed
  }

  function MissingVotes(q: QuorumReport): nat {
    if q.denominator > q.contributors + q.abstentions then q.denominator - q.contributors - q.abstentions else 0
  }

  function BaseReport(inputs: ConsensusInputs): ConsensusReport {
    var eligible := EligibleTallies(inputs.tallies);
    EMPTY_CONSENSUS.(
      ensembleGeneration := inputs.ensembleGeneration,
      epoch := inputs.epoch,
      sequence := inputs.sequence,
      candidatesDeclared := inputs.candidatesDeclared,
      invalidCandidates := inputs.invalidCandidates,
      thresholdPercent := inputs.quorum.thresholdPercent,
      thresholdCount := inputs.quorum.thresholdCount,
      voteBasis := inputs.quorum.denominator,
      abstaining := inputs.quorum.abstentions,
      abstainingMembers := inputs.quorum.abstainingMembers,
      missing := MissingVotes(inputs.quorum),
      eligibleCandidates := |eligible|,
      eligibleCandidatesList := CandidatesOf(eligible))
  }

  /** Completes a base report from the sorted eligible tallies. */
  function Conclude(inputs: ConsensusInputs, base: ConsensusReport, order: seq<Tally>): ConsensusReport {
    match Verdict(inputs, |order|)
    case Some(state) => base.(state := state)
    case None =>
      var leader := order[0];
      var runnerUp := MaxAgreeing(order[1..]);
      var against := Supporters(order[1..]) + leader.disagreeingMembers;
      var state := VoteState(inputs, |order|, leader.agreeing, runnerUp);
      base.(
        state := state,
        leadingCandidate := leader.candidate,
        leadingGeneration := leader.generation,
        leadingParticipant := leader.participant,
        agreeing := leader.agreeing,
        agreeingMembers := leader.agreeingMembers,
        runnerUpVotes := runnerUp,
        disagreeing := |against|,
        disagreeingMembers := against,
        unresolvedDisagreement := state == Tie || state == Disagreement)
  }

  function ConsensusOf(inputs: ConsensusInputs): ConsensusReport {
    Conclude(inputs, BaseReport(inputs), Sort(TallyOrder(), EligibleTallies(inputs.tallies)))
  }

  // ---- Properties -------------------------------------------------------------------------

  ghost predicate DistinctCandidates(tallies: seq<Tally>) {
    forall i, j :: 0 <= i < j < |tallies| ==> tallies[i].candidate != tallies[j].candidate
  }

  lemma {:induction false} MaxAgreeingOfPermutation(a: seq<Tally>, b: seq<Tally>)
    requires multiset(a) == multiset(b)
    ensures MaxAgreeing(a) == MaxAgreeing(b)
  {
    assert forall t :: t in a <==> t in multiset(a);
    assert forall t :: t in b <==> t in multiset(b);
  }

  /** However the tallies are listed, the sort puts a tally with the most agreement first. */
  lemma {:induction false} LeaderHasMostAgreement(tallies: seq<Tally>)
    requires tallies != []
    ensures |Sort(TallyOrder(), tallies)| == |tallies|
    ensures Sort(TallyOrder(), tallies)[0].agreeing == MaxAgreeing(tallies)
  {
    SortPermutes(TallyOrder(), tallies);
    var order := Sort(TallyOrder(), tallies);
    HeadAgreesMost(tallies);
    MaxAgreeingOfPermutation(order, tallies);
    assert order[0] in order;
  }

  lemma {:induction false} HeadAgreesMost(tallies: seq<Tally>)
    requires tallies != []
    ensures var order := Sort(TallyOrder(), tallies);
            order != [] && forall t :: t in order ==> t.agreeing <= order[0].agreeing
  {
    SortPermutes(TallyOrder(), tallies);
    if |tallies| > 1 {
      HeadAgreesMost(tallies[1..]);
      var rest := Sort(TallyOrder(), tallies[1..]);
      InsertPermutes(TallyOrder(), tallies[0], rest);
      var order := Insert(TallyOrder(), tallies[0], rest);
      forall t | t in order ensures t.agreeing <= order[0].agreeing {
        assert t in multiset(order);
        assert t == tallies[0] || t in multiset(rest);
      }
    } else {
      assert tallies[1..] == [];
    }
  }

  /** Number of tallies with agreement `n`. */
  function CountAgreeing(tallies: seq<Tally>, n: nat): nat {
    CountIf(tallies, (t: Tally) => t.agreeing == n)
  }

  lemma {:induction false} CountAgreeingPositive(tallies: seq<Tally>, n: nat)
    ensures CountAgreeing(tallies, n) > 0 <==> exists t :: t in tallies && t.agreeing == n
  {
    CountIfZero(tallies, (t: Tally) => t.agreeing == n);
  }

  lemma {:induction false} CountAgreeingOfInsert(x: Tally, s: seq<Tally>, n: nat)
    ensures CountAgreeing(Insert(TallyOrder(), x, s), n) == CountAgreeing(s, n) + (if x.agreeing == n then 1 else 0)
  {
    if s == [] {
      assert [x][1..] == [];
    } else if TallyOrder()(s[0], x) {
      CountAgreeingOfInsert(x, s[1..], n);
      assert ([s[0]] + Insert(TallyOrder(), x, s[1..]))[1..] == Insert(TallyOrder(), x, s[1..]);
    } else {
      assert ([x] + s)[1..] == s;
    }
  }

  lemma {:induction false} CountAgreeingOfSort(s: seq<Tally>, n: nat)
    ensures CountAgreeing(Sort(TallyOrder(), s), n) == CountAgreeing(s, n)
  {
    if s != [] {
      CountAgreeingOfSort(s[1..], n);
      CountAgreeingOfInsert(s[0], Sort(TallyOrder(), s[1..]), n);
    }
  }

  /** With `top` agreement in front, the runner-up reaches `top` exactly when a second tally does. */
  lemma RunnerUpTies(tallies: seq<Tally>)
    requires tallies != [] && MaxAgreeing(tallies) > 0
    ensures |Sort(TallyOrder(), tallies)| == |tallies|
    ensures var order := Sort(TallyOrder(), tallies);
            MaxAgreeing(order[1..]) == MaxAgreeing(tallies) <==> CountAgreeing(tallies, MaxAgreeing(tallies)) >= 2
  {
    var top := MaxAgreeing(tallies);
    LeaderHasMostAgreement(tallies);
    var order := Sort(TallyOrder(), tallies);
    CountAgreeingOfSort(tallies, top);
    CountAgreeingPositive(order[1..], top);
    assert order == [order[0]] + order[1..];
    MaxAgreeingOfPermutation(order, tallies) by { SortPermutes(TallyOrder(), tallies); }
    assert forall t :: t in order[1..] ==> t in order;
  }

  /** The state in terms of the best agreement and of how many candidates share it. */
  function StateByAgreement(inputs: ConsensusInputs, eligible: nat, top: nat, sharing: nat): ConsensusState {
    match Verdict(inputs, eligible)
    case Some(s) => s
    case None => VoteState(inputs, eligible, top, if sharing >= 2 then top else 0)
  }

  lemma StateDependsOnAgreement(inputs: ConsensusInputs)
    ensures var eligible := EligibleTallies(inputs.tallies);
            var top := MaxAgreeing(eligible);
            ConsensusOf(inputs).state == StateByAgreement(inputs, |eligible|, top, CountAgreeing(eligible, top))
  {
    var eligible := EligibleTallies(inputs.tallies);
    SortPermutes(TallyOrder(), eligible);
    if eligible != [] {
      LeaderHasMostAgreement(eligible);
      if MaxAgreeing(eligible) > 0 {
        RunnerUpTies(eligible);
      }
    }
  }

  lemma ResolvedByAgreement(inputs: ConsensusInputs, n: nat, top: nat, sharing: nat)
    requires n > 0 && top > 0 ==> sharing > 0
    ensures Resolved(StateByAgreement(inputs, n, top, sharing)) <==>
              && !inputs.superseded && !inputs.revalidationRequired && !inputs.cancelled && !inputs.fallbackRequired
              && !(inputs.requiredParticipantFailed && inputs.requireAllRequired)
              && inputs.quorum.state == QuorumReached
              && n > 0
              && (if top == 0 then !inputs.requiresVotes
                  else if inputs.quorum.thresholdPercent > 0 then top >= inputs.quorum.thresholdCount
                  else sharing == 1)
    ensures StateByAgreement(inputs, n, top, sharing) == Tie <==>
              && Verdict(inputs, n) == None
              && top > 0
              && sharing >= 2
              && (inputs.quorum.thresholdPercent == 0 || top < inputs.quorum.thresholdCount)
  {
  }

  /**
   Consensus never fabricates agreement, and never withholds it: the state is resolved exactly
   when nothing terminal happened, quorum was reached, some candidate is eligible and either
   nobody was asked to vote and nobody did, or the best agreement meets the configured
   threshold count, or with no threshold it belongs to exactly one candidate.  The right-hand
   side names no sort and no list order.
   */
  lemma ResolvedExactlyWhen(inputs: ConsensusInputs)
    ensures var eligible := EligibleTallies(inputs.tallies);
            var top := MaxAgreeing(eligible);
            Resolved(ConsensusOf(inputs).state) <==>
              && !inputs.superseded && !inputs.revalidationRequired && !inputs.cancelled && !inputs.fallbackRequired
              && !(inputs.requiredParticipantFailed && inputs.requireAllRequired)
              && inputs.quorum.state == QuorumReached
              && eligible != []
              && (if top == 0 then !inputs.requiresVotes
                  else if inputs.quorum.thresholdPercent > 0 then top >= inputs.quorum.thresholdCount
                  else CountAgreeing(eligible, top) == 1)
  {
    var eligible := EligibleTallies(inputs.tallies);
    var top := MaxAgreeing(eligible);
    StateDependsOnAgreement(inputs);
    CountAgreeingPositive(eligible, top);
    ResolvedByAgreement(inputs, |eligible|, top, CountAgreeing(eligible, top));
  }

  /** A tie is reported exactly when the votes are counted and two candidates share the best agreement short of deciding. */
  lemma TieExactlyWhen(inputs: ConsensusInputs)
    ensures var eligible := EligibleTallies(inputs.tallies);
            var top := MaxAgreeing(eligible);
            ConsensusOf(inputs).state == Tie <==>
              && Verdict(inputs, |eligible|) == None
              && top > 0
              && CountAgreeing(eligible, top) >= 2
              && (inputs.quorum.thresholdPercent == 0 || top < inputs.quorum.thresholdCount)
  {
    var eligible := EligibleTallies(inputs.tallies);
    var top := MaxAgreeing(eligible);
    StateDependsOnAgreement(inputs);
    CountAgreeingPositive(eligible, top);
    ResolvedByAgreement(inputs, |eligible|, top, CountAgreeing(eligible, top));
  }

  lemma TallyOrderIsStrictTotal(tallies: seq<Tally>)
    requires DistinctCandidates(tallies)
    ensures StrictTotalOn(TallyOrder(), multiset(tallies))
  {
    forall x, y | x in multiset(tallies) && y in multiset(tallies) && x != y
      ensures TallyOrder()(x, y) || TallyOrder()(y, x)
    {
      var i :| 0 <= i < |tallies| && tallies[i] == x;
      var j :| 0 <= j < |tallies| && tallies[j] == y;
      assert x.candidate != y.candidate;
    }
  }

  lemma {:induction false} EligibleOfPermutation(a: seq<Tally>, k: Tally)
    ensures multiset(EligibleTallies(a))[k] == if k.eligible then multiset(a)[k] else 0
  {
    if a != [] {
      assert a == [a[0]] + a[1..];
      EligibleOfPermutation(a[1..], k);
    }
  }

  lemma {:induction false} EligibleKeepsDistinct(a: seq<Tally>)
    requires DistinctCandidates(a)
    ensures DistinctCandidates(EligibleTallies(a))
  {
    if a != [] {
      EligibleKeepsDistinct(a[1..]);
      var rest := EligibleTallies(a[1..]);
      forall j | 0 <= j < |rest| ensures rest[j].candidate != a[0].candidate {
        assert rest[j] in rest;
        assert rest[j] in a[1..];
      }
    }
  }

  lemma SameEligible(a: seq<Tally>, b: seq<Tally>)
    requires multiset(a) == multiset(b)
    ensures multiset(EligibleTallies(a)) == multiset(EligibleTallies(b))
  {
    forall k ensures multiset(EligibleTallies(a))[k] == multiset(EligibleTallies(b))[k] {
      EligibleOfPermutation(a, k);
      EligibleOfPermutation(b, k);
    }
  }

  lemma ConcludeIgnoresListing(a: ConsensusInputs, b: ConsensusInputs, base: ConsensusReport, order: seq<Tally>, list: seq<nat>)
    requires b == a.(tallies := b.tallies)
    ensures Conclude(b, base.(eligibleCandidatesList := list), order)
            == Conclude(a, base, order).(eligibleCandidatesList := list)
  {
    assert Verdict(a, |order|) == Verdict(b, |order|);
  }

  /** The order in which tallies are presented never shows, except in the listing that repeats it. */
  lemma ConsensusIgnoresTallyOrder(a: ConsensusInputs, b: ConsensusInputs)
    requires b == a.(tallies := b.tallies)
    requires multiset(a.tallies) == multiset(b.tallies)
    requires DistinctCandidates(a.tallies)
    ensures ConsensusOf(b) == ConsensusOf(a).(eligibleCandidatesList := CandidatesOf(EligibleTallies(b.tallies)))
  {
    var ea, eb := EligibleTallies(a.tallies), EligibleTallies(b.tallies);
    SameEligible(a.tallies, b.tallies);
    assert |ea| == |multiset(ea)| == |multiset(eb)| == |eb|;
    EligibleKeepsDistinct(a.tallies);
    TallyOrderIsStrictTotal(ea);
    SortForgetsOrder(TallyOrder(), ea, eb);
    assert BaseReport(b) == BaseReport(a).(eligibleCandidatesList := CandidatesOf(eb));
    ConcludeIgnoresListing(a, b, BaseReport(a), Sort(TallyOrder(), ea), CandidatesOf(eb));
  }

  /** Across quorum and consensus, contributors, abstentions and missing add up to the denominator. */
  lemma VotesAreConserved(inputs: ConsensusInputs, policy: Spec.QuorumPolicy, members: seq<Member>, votes: seq<Vote>,
                          valid: nat, generation: nat, epoch: nat, sequence: nat)
    requires inputs.quorum == QuorumOf(policy, members, votes, valid, generation, epoch, sequence)
    ensures var r := ConsensusOf(inputs);
            inputs.quorum.contributors + r.abstaining + r.missing == r.voteBasis
  {
    DenominatorIsPartitioned(policy, members, votes, valid, generation, epoch, sequence);
  }

  // ---- The computation as the runtime performs it ------------------------------------------

  method CollectEligible(tallies: seq<Tally>) returns (eligible: seq<Tally>, listed: seq<nat>)
    ensures eligible == EligibleTallies(tallies) && listed == CandidatesOf(eligible)
  {
    eligible, listed := [], [];
    for i := 0 to |tallies|
      invariant eligible == EligibleTallies(tallies[..i])
      invariant listed == CandidatesOf(eligible)
    {
      assert tallies[..i + 1] == tallies[..i] + [tallies[i]];
      FilterSnoc(tallies[..i], tallies[i], (t: Tally) => t.eligible);
      if tallies[i].eligible {
        eligible := eligible + [tallies[i]];
        listed := listed + [tallies[i].candidate];
      }
    }
    assert tallies[..|tallies|] == tallies;
  }

  method CountChallengers(others: seq<Tally>) returns (runnerUp: nat, against: seq<nat>)
    ensures runnerUp == MaxAgreeing(others) && against == Supporters(others)
  {
    runnerUp, against := 0, [];
    for i := 0 to |others|
      invariant runnerUp == MaxAgreeing(others[..i])
      invariant against == Supporters(others[..i])
    {
      assert others[..i + 1][..i] == others[..i];
      if others[i].agreeing > runnerUp {
        runnerUp := others[i].agreeing;
      }
      against := against + others[i].agreeingMembers;
    }
    assert others[..|others|] == others;
  }

  method JudgeVotes(inputs: ConsensusInputs, eligible: nat, top: nat, runnerUp: nat) returns (state: ConsensusState)
    ensures state == VoteState(inputs, eligible, top, runnerUp)
  {
    if top == 0 {
      if !inputs.requiresVotes {
        return if eligible == 1 then ConsensusAgreed else PluralityWithoutThreshold;
      }
      return InsufficientEvidence;
    }
    if inputs.quorum.thresholdPercent > 0 {
      if top < inputs.quorum.thresholdCount {
        return if runnerUp == top then Tie else Disagreement;
      }
    } else if runnerUp == top && runnerUp > 0 {
      return Tie;
    }
    if inputs.quorum.abstentions > 0 {
      state := ConsensusWithAbstentions;
    } else if inputs.quorum.thresholdPercent == 0 {
      state := PluralityWithoutThreshold;
    } else {
      state := ConsensusAgreed;
    }
  }

  method ComputeConsensus(inputs: ConsensusInputs) returns (report: ConsensusReport)
    ensures report == ConsensusOf(inputs)
  {
    var eligible, listed := CollectEligible(inputs.tallies);
    SortPermutes(TallyOrder(), eligible);
    var order := Sort(TallyOrder(), eligible);
    report := BaseReport(inputs).(eligibleCandidates := |eligible|, eligibleCandidatesList := listed);
    match Verdict(inputs, |order|) {
      case Some(state) =>
        report := report.(state := state);
      case None =>
        var leader := order[0];
        var runnerUp, against := CountChallengers(order[1..]);
        against := against + leader.disagreeingMembers;
        var state := JudgeVotes(inputs, |order|, leader.agreeing, runnerUp);
        report := report.(
          state := state,
          leadingCandidate := leader.candidate,
          leadingGeneration := leader.generation,
          leadingParticipant := leader.participant,
          agreeing := leader.agreeing,
          agreeingMembers := leader.agreeingMembers,
          runnerUpVotes := runnerUp,
          disagreeing := |against|,
          disagreeingMembers := against,
          unresolvedDisagreement := state == Tie || state == Disagreement);
    }
  }
}
