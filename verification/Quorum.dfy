/** The quorum computation: deduplicated votes, an explicit denominator and typed states. */
module Quorum {
  import opened Base
  import opened Spec

  datatype QuorumState = QuorumNotEvaluated | QuorumReached | QuorumNotReached | QuorumImpossible

  datatype Member = Member(
    participant: nat,
    generation: nat,
    roles: RoleSet,
    required: bool,
    authorized: bool,
    available: bool,
    failed: bool,
    fallback: bool,
    roleAvailable: bool)

  datatype Vote = Vote(
    participant: nat,
    generation: nat,
    role: Role,
    candidate: nat,
    candidateGeneration: nat,
    weight: real,
    abstained: bool)

  datatype VoteKey = VoteKey(participant: nat, generation: nat, candidate: nat)

  datatype QuorumReport = QuorumReport(
    state: QuorumState,
    basis: VoteBasis,
    denominator: nat,
    contributors: nat,
    abstentions: nat,
    failures: nat,
    excludedOptional: nat,
    excludedUnavailable: nat,
    excludedStale: nat,
    requiredTotal: nat,
    requiredPresent: nat,
    evaluations: nat,
    validCandidates: nat,
    duplicateVotesSuppressed: nat,
    thresholdPercent: nat,
    thresholdCount: nat,
    leadingVotes: nat,
    roleQuotaMet: nat,
    roleQuotaRequired: nat,
    failureBudgetExceeded: bool,
    abstentionBudgetExceeded: bool,
    ensembleGeneration: nat,
    epoch: nat,
    sequence: nat,
    members: seq<nat>,
    memberGenerations: seq<nat>,
    contributorsList: seq<nat>,
    abstainingMembers: seq<nat>,
    failedMembers: seq<nat>)

  const EMPTY_REPORT: QuorumReport :=
    QuorumReport(QuorumNotEvaluated, AuthoritativeParticipants, 0, 0, 0, 0, 0, 0, 0, 0, 0, 0, 0, 0, 0, 0, 0, 0, 0,
                 false, false, 0, 0, 0, [], [], [], [], [])

  // ---- Threshold --------------------------------------------------------------------------

  function PercentageCeiling(total: nat, percent: nat): nat {
    if percent == 0 then 0 else (total * percent + 99) / 100
  }

  /** The threshold is the least `k` with `100k >= total * percent`, and never exceeds the total. */
  lemma PercentageCeilingIsLeast(total: nat, percent: nat, k: nat)
    ensures 100 * PercentageCeiling(total, percent) >= total * percent
    ensures 100 * k >= total * percent ==> PercentageCeiling(total, percent) <= k
    ensures percent <= 100 ==> PercentageCeiling(total, percent) <= total
  {
    var n := total * percent;
    if percent <= 100 {
      assert n <= total * 100 by {
        assert total * (100 - percent) >= 0;
        assert total * (100 - percent) == total * 100 - total * percent;
      }
    }
  }

  // ---- Deduplication ----------------------------------------------------------------------

  function KeyOf(v: Vote): VoteKey {
    VoteKey(v.participant, v.generation, v.candidate)
  }

  predicate HasKey(votes: seq<Vote>, key: VoteKey) {
    exists v :: v in votes && KeyOf(v) == key
  }

  /** The first vote for each (participant, generation, candidate) key. */
  function UniqueVotes(votes: seq<Vote>): (u: seq<Vote>)
    ensures |u| <= |votes|
    ensures forall v :: v in u ==> v in votes
    ensures forall v :: v in votes ==> HasKey(u, KeyOf(v))
  {
    if votes == [] then []
    else
      var n := |votes| - 1;
      var u := UniqueVotes(votes[..n]);
      assert forall v :: v in votes ==> v in votes[..n] || v == votes[n];
      if HasKey(u, KeyOf(votes[n])) then u
      else
        assert HasKey(u + [votes[n]], KeyOf(votes[n])) by { assert votes[n] in u + [votes[n]]; }
        assert forall k :: HasKey(u, k) ==> HasKey(u + [votes[n]], k) by {
          forall k | HasKey(u, k) ensures HasKey(u + [votes[n]], k) {
            var v :| v in u && KeyOf(v) == k;
            assert v in u + [votes[n]];
          }
        }
        u + [votes[n]]
  }

  ghost predicate DistinctKeys(votes: seq<Vote>) {
    forall i, j :: 0 <= i < j < |votes| ==> KeyOf(votes[i]) != KeyOf(votes[j])
  }

  lemma DistinctKeysSnoc(u: seq<Vote>, v: Vote)
    requires DistinctKeys(u) && !HasKey(u, KeyOf(v))
    ensures DistinctKeys(u + [v])
  {
    forall i | 0 <= i < |u| ensures KeyOf(u[i]) != KeyOf(v) {
      assert u[i] in u;
    }
  }

  /** No key survives twice: one participant generation has one vote per candidate. */
  lemma {:induction false} UniqueVotesHaveDistinctKeys(votes: seq<Vote>)
    ensures DistinctKeys(UniqueVotes(votes))
  {
    if votes != [] {
      var n := |votes| - 1;
      UniqueVotesHaveDistinctKeys(votes[..n]);
      var p := UniqueVotes(votes[..n]);
      if !HasKey(p, KeyOf(votes[n])) {
        DistinctKeysSnoc(p, votes[n]);
      }
    }
  }

  function Contributors(unique: seq<Vote>): set<nat> {
    set v | v in unique && !v.abstained :: v.participant
  }

  function Abstainers(unique: seq<Vote>): set<nat> {
    set v | v in unique && v.abstained :: v.participant
  }

  function VotesFor(unique: seq<Vote>, candidate: nat): nat {
    CountIf(unique, (v: Vote) => !v.abstained && v.candidate == candidate)
  }

  /** The largest number of votes any candidate named by `named` received. */
  function LeadingVotes(unique: seq<Vote>, named: seq<Vote>): nat {
    if named == [] then 0
    else
      var rest := LeadingVotes(unique, named[..|named| - 1]);
      var v := named[|named| - 1];
      if !v.abstained && VotesFor(unique, v.candidate) > rest then VotesFor(unique, v.candidate) else rest
  }

  // ---- Denominator ------------------------------------------------------------------------

  predicate InBasis(basis: VoteBasis, m: Member, contributors: set<nat>, abstainers: set<nat>) {
    match basis
    case DeclaredParticipants => true
    case AuthoritativeParticipants => m.authorized
    case ContributingParticipants => m.participant in contributors || m.participant in abstainers
    case RequiredParticipants => m.required
    case EligibleParticipants => m.authorized && m.available && !m.failed
  }

  predicate Counts(policy: QuorumPolicy, m: Member, contributors: set<nat>, abstainers: set<nat>) {
    && InBasis(policy.voteBasis, m, contributors, abstainers)
    && (policy.countOptionalParticipants || m.required)
    && (policy.countFailedInDenominator || !m.failed)
    && (policy.countUnavailableInDenominator || m.available)
  }

  function Denominator(policy: QuorumPolicy, members: seq<Member>, contributors: set<nat>, abstainers: set<nat>): seq<Member> {
    Filter(members, (m: Member) => Counts(policy, m, contributors, abstainers))
  }

  function ParticipantsOf(members: seq<Member>): seq<nat> {
    seq(|members|, i requires 0 <= i < |members| => members[i].participant)
  }

  function GenerationsOf(members: seq<Member>): seq<nat> {
    seq(|members|, i requires 0 <= i < |members| => members[i].generation)
  }

  function ContributingMembers(members: seq<Member>, contributors: set<nat>): seq<Member> {
    Filter(members, (m: Member) => m.participant in contributors)
  }

  function AbstainingMembers(members: seq<Member>, contributors: set<nat>, abstainers: set<nat>): seq<Member> {
    Filter(members, (m: Member) => m.participant !in contributors && m.participant in abstainers)
  }

  function FailedMembers(members: seq<Member>): seq<Member> {
    Filter(members, (m: Member) => m.failed)
  }

  // ---- Role quotas ------------------------------------------------------------------------

  function QuotaCount(denominator: seq<Member>, role: Role): nat {
    CountIf(denominator, (m: Member) => m.roles.Contains(role) && m.authorized && m.roleAvailable)
  }

  function QuotaPossible(members: seq<Member>, role: Role): nat {
    CountIf(members, (m: Member) =>
      m.roles.Contains(role) && m.authorized && m.available && !m.failed && m.roleAvailable)
  }

  function QuotasMet(denominator: seq<Member>, quotas: seq<RoleQuota>): nat {
    CountIf(quotas, (q: RoleQuota) => QuotaCount(denominator, q.role) >= q.minCount)
  }

  predicate QuotasAchievable(members: seq<Member>, quotas: seq<RoleQuota>) {
    forall q :: q in quotas ==> QuotaPossible(members, q.role) >= q.minCount
  }

  // ---- Report -----------------------------------------------------------------------------

  function StateOf(policy: QuorumPolicy, denominator: nat, quotasAchievable: bool, quotasMet: nat,
                   evaluations: nat, validCandidates: nat, failures: nat, abstentions: nat): QuorumState {
    if denominator < policy.minParticipants || !quotasAchievable then QuorumImpossible
    else if
      && quotasMet == |policy.roleQuota|
      && evaluations >= policy.minEvaluations
      && validCandidates >= policy.minValidCandidates
      && !(policy.maxFailures != UNBOUNDED && failures > policy.maxFailures)
      && !(policy.maxAbstentions != UNBOUNDED && abstentions > policy.maxAbstentions)
    then QuorumReached
    else QuorumNotReached
  }

  function QuorumOf(policy: QuorumPolicy, members: seq<Member>, votes: seq<Vote>, validCandidates: nat,
                         generation: nat, epoch: nat, sequence: nat): QuorumReport {
    var unique := UniqueVotes(votes);
    var contributors := Contributors(unique);
    var abstainers := Abstainers(unique);
    var denominator := Denominator(policy, members, contributors, abstainers);
    var contributing := ContributingMembers(denominator, contributors);
    var abstaining := AbstainingMembers(denominator, contributors, abstainers);
    var failed := FailedMembers(members);
    var met := QuotasMet(denominator, policy.roleQuota);
    QuorumReport(
      StateOf(policy, |denominator|, QuotasAchievable(members, policy.roleQuota), met, |unique|, validCandidates,
              |failed|, |abstaining|),
      policy.voteBasis,
      |denominator|,
      |contributing|,
      |abstaining|,
      |failed|,
      CountIf(members, (m: Member) => !m.required),
      CountIf(members, (m: Member) => !m.available),
      CountIf(members, (m: Member) => !m.authorized),
      CountIf(members, (m: Member) => m.required),
      CountIf(members, (m: Member) => m.required && m.participant in contributors),
      |unique|,
      validCandidates,
      |votes| - |unique|,
      policy.consensusThresholdPercent,
      PercentageCeiling(|denominator|, policy.consensusThresholdPercent),
      LeadingVotes(unique, unique),
      met,
      |policy.roleQuota|,
      policy.maxFailures != UNBOUNDED && |failed| > policy.maxFailures,
      policy.maxAbstentions != UNBOUNDED && |abstaining| > policy.maxAbstentions,
      generation,
      epoch,
      sequence,
      ParticipantsOf(denominator),
      GenerationsOf(denominator),
      ParticipantsOf(contributing),
      ParticipantsOf(abstaining),
      ParticipantsOf(failed))
  }

  // ---- Properties -------------------------------------------------------------------------

  /** A vote whose key is already present changes the suppressed count and nothing else. */
  lemma DuplicateVoteIsSuppressed(policy: QuorumPolicy, members: seq<Member>, votes: seq<Vote>, v: Vote,
                                  validCandidates: nat, generation: nat, epoch: nat, sequence: nat)
    requires HasKey(votes, KeyOf(v))
    ensures var before := QuorumOf(policy, members, votes, validCandidates, generation, epoch, sequence);
            QuorumOf(policy, members, votes + [v], validCandidates, generation, epoch, sequence)
            == before.(duplicateVotesSuppressed := before.duplicateVotesSuppressed + 1)
  {
    assert (votes + [v])[..|votes|] == votes;
    var w :| w in votes && KeyOf(w) == KeyOf(v);
    assert UniqueVotes(votes + [v]) == UniqueVotes(votes);
  }

  lemma {:induction false} SplitByVote(members: seq<Member>, contributors: set<nat>, abstainers: set<nat>)
    ensures |ContributingMembers(members, contributors)| + |AbstainingMembers(members, contributors, abstainers)|
            + CountIf(members, (m: Member) => m.participant !in contributors && m.participant !in abstainers)
            == |members|
  {
    if members != [] {
      SplitByVote(members[1..], contributors, abstainers);
    }
  }

  /** The denominator splits exactly into contributors, abstentions and members that said nothing. */
  lemma DenominatorIsPartitioned(policy: QuorumPolicy, members: seq<Member>, votes: seq<Vote>,
                                 validCandidates: nat, generation: nat, epoch: nat, sequence: nat)
    ensures var r := QuorumOf(policy, members, votes, validCandidates, generation, epoch, sequence);
            var unique := UniqueVotes(votes);
            var silent := CountIf(Denominator(policy, members, Contributors(unique), Abstainers(unique)),
                                  (m: Member) => m.participant !in Contributors(unique) && m.participant !in Abstainers(unique));
            r.contributors + r.abstentions + silent == r.denominator
  {
    var unique := UniqueVotes(votes);
    SplitByVote(Denominator(policy, members, Contributors(unique), Abstainers(unique)), Contributors(unique), Abstainers(unique));
  }

  /** `b` is `a` with possibly less standing: it lost authority, availability or has failed since. */
  ghost predicate Weakened(a: Member, b: Member) {
    && b.participant == a.participant && b.roles == a.roles && b.required == a.required
    && (b.authorized ==> a.authorized) && (b.available ==> a.available)
    && (a.failed ==> b.failed) && (b.roleAvailable ==> a.roleAvailable)
  }

  ghost predicate AllWeakened(a: seq<Member>, b: seq<Member>) {
    |a| == |b| && forall i :: 0 <= i < |a| ==> Weakened(a[i], b[i])
  }

  lemma {:induction false} WeakerCountsLess(policy: QuorumPolicy, a: seq<Member>, b: seq<Member>,
                                            c0: set<nat>, a0: set<nat>, c1: set<nat>, a1: set<nat>)
    requires AllWeakened(a, b)
    requires policy.voteBasis != ContributingParticipants
    ensures |Denominator(policy, b, c1, a1)| <= |Denominator(policy, a, c0, a0)|
  {
    if a != [] {
      WeakerCountsLess(policy, a[1..], b[1..], c0, a0, c1, a1);
      assert Weakened(a[0], b[0]);
      assert Counts(policy, b[0], c1, a1) ==> Counts(policy, a[0], c0, a0);
    }
  }

  lemma {:induction false} WeakerQuotaPossible(a: seq<Member>, b: seq<Member>, role: Role)
    requires AllWeakened(a, b)
    ensures QuotaPossible(b, role) <= QuotaPossible(a, role)
  {
    if a != [] {
      assert Weakened(a[0], b[0]);
      WeakerQuotaPossible(a[1..], b[1..], role);
    }
  }

  /** Counts as soon as it votes. */
  predicate WouldCount(policy: QuorumPolicy, m: Member) {
    && (policy.countOptionalParticipants || m.required)
    && (policy.countFailedInDenominator || !m.failed)
    && (policy.countUnavailableInDenominator || m.available)
  }

  /** The denominator if everybody voted. */
  function Electorate(policy: QuorumPolicy, members: seq<Member>): nat {
    CountIf(members, (m: Member) => WouldCount(policy, m))
  }

  /** One vote by every member. */
  function Ballots(members: seq<Member>): seq<Vote> {
    seq(|members|, i requires 0 <= i < |members| =>
      Vote(members[i].participant, members[i].generation, JudgeRole, 0, 0, 0.0, false))
  }

  lemma {:induction false} VotersWouldCount(policy: QuorumPolicy, a: seq<Member>, b: seq<Member>, contributors: set<nat>, abstainers: set<nat>)
    requires AllWeakened(a, b)
    ensures policy.voteBasis == ContributingParticipants ==> |Denominator(policy, b, contributors, abstainers)| <= Electorate(policy, a)
  {
    if a != [] {
      assert Weakened(a[0], b[0]);
      VotersWouldCount(policy, a[1..], b[1..], contributors, abstainers);
    }
  }

  lemma {:induction false} EverybodyCounts(policy: QuorumPolicy, members: seq<Member>, contributors: set<nat>, abstainers: set<nat>)
    requires policy.voteBasis == ContributingParticipants && forall m :: m in members ==> m.participant in contributors
    ensures |Denominator(policy, members, contributors, abstainers)| == Electorate(policy, members)
  {
    if members != [] {
      EverybodyCounts(policy, members[1..], contributors, abstainers);
    }
  }

  lemma EverybodyVotes(members: seq<Member>)
    ensures forall m :: m in members ==> m.participant in Contributors(UniqueVotes(Ballots(members)))
  {
    var ballots := Ballots(members);
    var unique := UniqueVotes(ballots);
    forall m | m in members ensures m.participant in Contributors(unique) {
      var i :| 0 <= i < |members| && members[i] == m;
      assert ballots[i] in ballots;
      assert HasKey(unique, KeyOf(ballots[i]));
      var v :| v in unique && KeyOf(v) == KeyOf(ballots[i]);
      assert v in ballots;
    }
  }

  /** Whatever votes and candidates arrive, and whatever standing members lose, the quorum stays impossible. */
  ghost predicate StaysImpossible(policy: QuorumPolicy, a: seq<Member>) {
    forall b, votes, valid, generation, epoch, sequence {:trigger QuorumOf(policy, b, votes, valid, generation, epoch, sequence)} ::
      AllWeakened(a, b) ==> QuorumOf(policy, b, votes, valid, generation, epoch, sequence).state == QuorumImpossible
  }

  lemma WeakerIsImpossible(policy: QuorumPolicy, a: seq<Member>, b: seq<Member>, votes: seq<Vote>, votes': seq<Vote>)
    requires AllWeakened(a, b)
    requires policy.voteBasis != ContributingParticipants || !QuotasAchievable(a, policy.roleQuota)
             || Electorate(policy, a) < policy.minParticipants
    requires var u := UniqueVotes(votes);
             |Denominator(policy, a, Contributors(u), Abstainers(u))| < policy.minParticipants || !QuotasAchievable(a, policy.roleQuota)
    ensures var u' := UniqueVotes(votes');
            |Denominator(policy, b, Contributors(u'), Abstainers(u'))| < policy.minParticipants || !QuotasAchievable(b, policy.roleQuota)
  {
    var u, u' := UniqueVotes(votes), UniqueVotes(votes');
    if !QuotasAchievable(a, policy.roleQuota) {
      var q :| q in policy.roleQuota && QuotaPossible(a, q.role) < q.minCount;
      WeakerQuotaPossible(a, b, q.role);
    } else if policy.voteBasis != ContributingParticipants {
      WeakerCountsLess(policy, a, b, Contributors(u), Abstainers(u), Contributors(u'), Abstainers(u'));
    } else {
      VotersWouldCount(policy, a, b, Contributors(u'), Abstainers(u'));
    }
  }

  /**
   An impossible quorum stays impossible for as long as nobody regains standing exactly when its
   basis does not depend on who has voted, or some role quota is out of reach, or not even the votes
   of all members that would count reach the minimum.
   */
  lemma ImpossibleStaysExactlyWhen(policy: QuorumPolicy, a: seq<Member>, votes: seq<Vote>, valid: nat,
                                   generation: nat, epoch: nat, sequence: nat)
    requires QuorumOf(policy, a, votes, valid, generation, epoch, sequence).state == QuorumImpossible
    ensures StaysImpossible(policy, a) <==>
              || policy.voteBasis != ContributingParticipants
              || !QuotasAchievable(a, policy.roleQuota)
              || Electorate(policy, a) < policy.minParticipants
  {
    if policy.voteBasis == ContributingParticipants && QuotasAchievable(a, policy.roleQuota)
      && Electorate(policy, a) >= policy.minParticipants {
      var u := UniqueVotes(Ballots(a));
      EverybodyVotes(a);
      EverybodyCounts(policy, a, Contributors(u), Abstainers(u));
      assert AllWeakened(a, a);
      assert QuorumOf(policy, a, Ballots(a), 0, 0, 0, 0).state != QuorumImpossible;
    } else {
      forall b, votes', valid', generation', epoch', sequence' | AllWeakened(a, b)
        ensures QuorumOf(policy, b, votes', valid', generation', epoch', sequence').state == QuorumImpossible
      {
        WeakerIsImpossible(policy, a, b, votes, votes');
      }
    }
  }

  // ---- One member regains standing --------------------------------------------------------------

  lemma {:induction false} CountIfUpdate<T>(s: seq<T>, i: nat, x: T, f: T -> bool)
    requires i < |s|
    ensures CountIf(s[i := x], f) + (if f(s[i]) then 1 else 0) == CountIf(s, f) + (if f(x) then 1 else 0)
  {
    if i == 0 {
      assert s[0 := x][1..] == s[1..];
    } else {
      assert s[i := x][1..] == s[1..][i - 1 := x];
      CountIfUpdate(s[1..], i - 1, x, f);
    }
  }

  lemma {:induction false} FilterCounts<T(!new)>(s: seq<T>, f: T -> bool)
    ensures |Filter(s, f)| == CountIf(s, f)
  {
    if s != [] {
      FilterCounts(s[1..], f);
    }
  }

  /** What one member adds to the denominator, and to a role quota, by standing as `m` instead of `a`. */
  function AddedToDenominator(policy: QuorumPolicy, a: Member, m: Member, contributors: set<nat>, abstainers: set<nat>): nat {
    if Counts(policy, m, contributors, abstainers) && !Counts(policy, a, contributors, abstainers) then 1 else 0
  }

  predicate FillsRole(m: Member, role: Role) {
    m.roles.Contains(role) && m.authorized && m.available && !m.failed && m.roleAvailable
  }

  function AddedToQuota(a: Member, m: Member, role: Role): nat {
    if FillsRole(m, role) && !FillsRole(a, role) then 1 else 0
  }

  lemma RegainedDenominator(policy: QuorumPolicy, a: seq<Member>, i: nat, m: Member, contributors: set<nat>, abstainers: set<nat>)
    requires i < |a| && Weakened(m, a[i])
    ensures |Denominator(policy, a[i := m], contributors, abstainers)|
            == |Denominator(policy, a, contributors, abstainers)| + AddedToDenominator(policy, a[i], m, contributors, abstainers)
  {
    var f := (w: Member) => Counts(policy, w, contributors, abstainers);
    FilterCounts(a, f);
    FilterCounts(a[i := m], f);
    CountIfUpdate(a, i, m, f);
    assert f(a[i]) ==> f(m);
  }

  lemma RegainedQuota(a: seq<Member>, i: nat, m: Member, role: Role)
    requires i < |a| && Weakened(m, a[i])
    ensures QuotaPossible(a[i := m], role) == QuotaPossible(a, role) + AddedToQuota(a[i], m, role)
  {
    CountIfUpdate(a, i, m, (w: Member) =>
      w.roles.Contains(role) && w.authorized && w.available && !w.failed && w.roleAvailable);
  }

  /**
   When one member regains standing, an impossible quorum becomes possible again exactly when what
   the member adds closes the gap to the minimum and to every role quota.
   */
  lemma RegainedStandingRevivesExactlyWhen(policy: QuorumPolicy, a: seq<Member>, i: nat, m: Member, votes: seq<Vote>, valid: nat,
                                           generation: nat, epoch: nat, sequence: nat)
    requires i < |a| && Weakened(m, a[i])
    ensures var u := UniqueVotes(votes);
            var c, b := Contributors(u), Abstainers(u);
            QuorumOf(policy, a[i := m], votes, valid, generation, epoch, sequence).state != QuorumImpossible <==>
              && |Denominator(policy, a, c, b)| + AddedToDenominator(policy, a[i], m, c, b) >= policy.minParticipants
              && forall q :: q in policy.roleQuota ==> QuotaPossible(a, q.role) + AddedToQuota(a[i], m, q.role) >= q.minCount
  {
    var u := UniqueVotes(votes);
    RegainedDenominator(policy, a, i, m, Contributors(u), Abstainers(u));
    forall q | q in policy.roleQuota
      ensures QuotaPossible(a[i := m], q.role) == QuotaPossible(a, q.role) + AddedToQuota(a[i], m, q.role)
    {
      RegainedQuota(a, i, m, q.role);
    }
  }

  // ---- The computation as the runtime performs it ------------------------------------------

  method Deduplicate(votes: seq<Vote>) returns (unique: seq<Vote>, suppressed: nat)
    ensures unique == UniqueVotes(votes)
    ensures suppressed == |votes| - |unique|
  {
    var seen: set<VoteKey> := {};
    unique, suppressed := [], 0;
    for i := 0 to |votes|
      invariant unique == UniqueVotes(votes[..i])
      invariant forall k :: k in seen <==> HasKey(unique, k)
      invariant suppressed == i - |unique|
    {
      var v := votes[i];
      assert votes[..i + 1][..i] == votes[..i];
      if KeyOf(v) in seen {
        suppressed := suppressed + 1;
      } else {
        assert forall k :: HasKey(unique + [v], k) <==> HasKey(unique, k) || k == KeyOf(v) by {
          assert v in unique + [v];
          assert forall w :: w in unique ==> w in unique + [v];
        }
        seen := seen + {KeyOf(v)};
        unique := unique + [v];
      }
    }
    assert votes[..|votes|] == votes;
  }

  method Classify(unique: seq<Vote>) returns (contributors: set<nat>, abstainers: set<nat>, leading: nat)
    ensures contributors == Contributors(unique) && abstainers == Abstainers(unique)
    ensures leading == LeadingVotes(unique, unique)
  {
    contributors, abstainers := {}, {};
    var tally: map<nat, nat> := map[];
    for i := 0 to |unique|
      invariant contributors == Contributors(unique[..i]) && abstainers == Abstainers(unique[..i])
      invariant forall c :: (if c in tally then tally[c] else 0) == VotesFor(unique[..i], c)
    {
      var v := unique[i];
      assert unique[..i + 1] == unique[..i] + [v];
      forall c ensures VotesFor(unique[..i + 1], c) == VotesFor(unique[..i], c) + (if !v.abstained && v.candidate == c then 1 else 0) {
        CountIfSnoc(unique[..i], v, (w: Vote) => !w.abstained && w.candidate == c);
      }
      if v.abstained {
        abstainers := abstainers + {v.participant};
      } else {
        contributors := contributors + {v.participant};
        tally := tally[v.candidate := (if v.candidate in tally then tally[v.candidate] else 0) + 1];
      }
    }
    assert unique[..|unique|] == unique;
    leading := 0;
    for i := 0 to |unique|
      invariant leading == LeadingVotes(unique, unique[..i])
    {
      assert unique[..i + 1][..i] == unique[..i];
      var c := unique[i].candidate;
      var count := if c in tally then tally[c] else 0;
      if !unique[i].abstained && count > leading {
        leading := count;
      }
    }
  }

  method SelectDenominator(policy: QuorumPolicy, members: seq<Member>, contributors: set<nat>, abstainers: set<nat>)
    returns (denominator: seq<Member>, contributing: seq<nat>, abstaining: seq<nat>)
    ensures denominator == Denominator(policy, members, contributors, abstainers)
    ensures contributing == ParticipantsOf(ContributingMembers(denominator, contributors))
    ensures abstaining == ParticipantsOf(AbstainingMembers(denominator, contributors, abstainers))
  {
    denominator := [];
    for i := 0 to |members|
      invariant denominator == Denominator(policy, members[..i], contributors, abstainers)
    {
      var m := members[i];
      assert members[..i + 1] == members[..i] + [m];
      FilterSnoc(members[..i], m, (w: Member) => Counts(policy, w, contributors, abstainers));
      if Counts(policy, m, contributors, abstainers) {
        denominator := denominator + [m];
      }
    }
    assert members[..|members|] == members;
    contributing, abstaining := [], [];
    for i := 0 to |denominator|
      invariant contributing == ParticipantsOf(ContributingMembers(denominator[..i], contributors))
      invariant abstaining == ParticipantsOf(AbstainingMembers(denominator[..i], contributors, abstainers))
    {
      var m := denominator[i];
      assert denominator[..i + 1] == denominator[..i] + [m];
      FilterSnoc(denominator[..i], m, (w: Member) => w.participant in contributors);
      FilterSnoc(denominator[..i], m, (w: Member) => w.participant !in contributors && w.participant in abstainers);
      if m.participant in contributors {
        contributing := contributing + [m.participant];
      } else if m.participant in abstainers {
        abstaining := abstaining + [m.participant];
      }
    }
    assert denominator[..|denominator|] == denominator;
  }

  method CountQuotas(denominator: seq<Member>, members: seq<Member>, quotas: seq<RoleQuota>)
    returns (met: nat, achievable: bool)
    ensures met == QuotasMet(denominator, quotas)
    ensures achievable == QuotasAchievable(members, quotas)
  {
    met, achievable := 0, true;
    for i := 0 to |quotas|
      invariant met == QuotasMet(denominator, quotas[..i])
      invariant achievable == QuotasAchievable(members, quotas[..i])
    {
      var q := quotas[i];
      assert quotas[..i + 1] == quotas[..i] + [q];
      CountIfSnoc(quotas[..i], q, (w: RoleQuota) => QuotaCount(denominator, w.role) >= w.minCount);
      var count, possible := 0, 0;
      for j := 0 to |denominator|
        invariant count == QuotaCount(denominator[..j], q.role)
      {
        var m := denominator[j];
        assert denominator[..j + 1] == denominator[..j] + [m];
        CountIfSnoc(denominator[..j], m, (w: Member) => w.roles.Contains(q.role) && w.authorized && w.roleAvailable);
        if m.roles.Contains(q.role) && m.authorized && m.roleAvailable {
          count := count + 1;
        }
      }
      assert denominator[..|denominator|] == denominator;
      for j := 0 to |members|
        invariant possible == QuotaPossible(members[..j], q.role)
      {
        var m := members[j];
        assert members[..j + 1] == members[..j] + [m];
        CountIfSnoc(members[..j], m, (w: Member) =>
          w.roles.Contains(q.role) && w.authorized && w.available && !w.failed && w.roleAvailable);
        if m.roles.Contains(q.role) && m.authorized && m.available && !m.failed && m.roleAvailable {
          possible := possible + 1;
        }
      }
      assert members[..|members|] == members;
      if count >= q.minCount {
        met := met + 1;
      }
      if possible < q.minCount {
        achievable := false;
      }
    }
    assert quotas[..|quotas|] == quotas;
  }

  /** The membership counters the report carries beside the denominator. */
  datatype Exclusions = Exclusions(optional: nat, unavailable: nat, stale: nat, required: nat, present: nat, failed: seq<nat>)

  function ExclusionsOf(members: seq<Member>, contributors: set<nat>): Exclusions {
    Exclusions(
      CountIf(members, (m: Member) => !m.required),
      CountIf(members, (m: Member) => !m.available),
      CountIf(members, (m: Member) => !m.authorized),
      CountIf(members, (m: Member) => m.required),
      CountIf(members, (m: Member) => m.required && m.participant in contributors),
      ParticipantsOf(FailedMembers(members)))
  }

  function Exclude(e: Exclusions, m: Member, contributors: set<nat>): Exclusions {
    Exclusions(
      e.optional + (if m.required then 0 else 1),
      e.unavailable + (if m.available then 0 else 1),
      e.stale + (if m.authorized then 0 else 1),
      e.required + (if m.required then 1 else 0),
      e.present + (if m.required && m.participant in contributors then 1 else 0),
      e.failed + (if m.failed then [m.participant] else []))
  }

  lemma ExclusionsSnoc(members: seq<Member>, m: Member, contributors: set<nat>)
    ensures ExclusionsOf(members + [m], contributors) == Exclude(ExclusionsOf(members, contributors), m, contributors)
  {
    CountIfSnoc(members, m, (w: Member) => !w.required);
    CountIfSnoc(members, m, (w: Member) => !w.available);
    CountIfSnoc(members, m, (w: Member) => !w.authorized);
    CountIfSnoc(members, m, (w: Member) => w.required);
    CountIfSnoc(members, m, (w: Member) => w.required && w.participant in contributors);
    FilterSnoc(members, m, (w: Member) => w.failed);
  }

  method CountExclusions(members: seq<Member>, contributors: set<nat>) returns (e: Exclusions)
    ensures e == ExclusionsOf(members, contributors)
  {
    e := Exclusions(0, 0, 0, 0, 0, []);
    for i := 0 to |members|
      invariant e == ExclusionsOf(members[..i], contributors)
    {
      assert members[..i + 1] == members[..i] + [members[i]];
      ExclusionsSnoc(members[..i], members[i], contributors);
      e := Exclude(e, members[i], contributors);
    }
    assert members[..|members|] == members;
  }

  method ComputeQuorum(policy: QuorumPolicy, members: seq<Member>, votes: seq<Vote>, validCandidates: nat,
                       generation: nat, epoch: nat, sequence: nat) returns (report: QuorumReport)
    ensures report == QuorumOf(policy, members, votes, validCandidates, generation, epoch, sequence)
  {
    var unique, suppressed := Deduplicate(votes);
    var contributors, abstainers, leading := Classify(unique);
    var denominator, contributing, abstaining := SelectDenominator(policy, members, contributors, abstainers);
    var e := CountExclusions(members, contributors);
    var met, achievable := CountQuotas(denominator, members, policy.roleQuota);
    var failureBudget := policy.maxFailures != UNBOUNDED && |e.failed| > policy.maxFailures;
    var abstentionBudget := policy.maxAbstentions != UNBOUNDED && |abstaining| > policy.maxAbstentions;
    var threshold := 0;
    if policy.consensusThresholdPercent > 0 {
      threshold := PercentageCeiling(|denominator|, policy.consensusThresholdPercent);
    }
    var state;
    if |denominator| < policy.minParticipants || !achievable {
      state := QuorumImpossible;
    } else if |denominator| >= policy.minParticipants && met == |policy.roleQuota|
      && |unique| >= policy.minEvaluations && validCandidates >= policy.minValidCandidates
      && !failureBudget && !abstentionBudget {
      state := QuorumReached;
    } else {
      state := QuorumNotReached;
    }
    report := QuorumReport(
      state, policy.voteBasis, |denominator|, |contributing|, |abstaining|, |e.failed|, e.optional, e.unavailable,
      e.stale, e.required, e.present, |unique|, validCandidates, suppressed, policy.consensusThresholdPercent,
      threshold, leading, met, |policy.roleQuota|, failureBudget, abstentionBudget, generation, epoch, sequence,
      ParticipantsOf(denominator), GenerationsOf(denominator), contributing, abstaining, e.failed);
  }
}
