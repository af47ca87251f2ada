/** What registrations and failures do to the membership the quorum is computed from. */
module Standing {
  import opened Base
  import opened Spec
  import opened Records
  import opened Lifecycle
  import opened Attempts
  import opened Participants
  import opened Reports
  import opened Quorum

  lemma MembershipUpdate(ps: seq<Participant>, j: nat, p: Participant, epoch: nat)
    requires j < |ps|
    ensures Membership(ps[j := p], epoch) == Membership(ps, epoch)[j := MemberOf(p, epoch)]
  {
  }

  /** A registration gives one member standing and takes none away: what it was before is weaker. */
  lemma RegistrationRegainsStanding(s: State, r: Registration, epoch: nat)
    requires Register(s, r).1.Ok?
    ensures r.ensemble in s.ensembles
    ensures var e := s.ensembles[r.ensemble];
            var j := FindParticipant(e.participants, r.participant);
            && j.Some?
            && var after := MemberOf(Registered(e.participants[j.value], r), epoch);
               && Weakened(after, MemberOf(e.participants[j.value], epoch))
               && Membership(Register(s, r).0.ensembles[r.ensemble].participants, epoch)
                  == Membership(e.participants, epoch)[j.value := after]
  {
    var e := s.ensembles[r.ensemble];
    var j := FindParticipant(e.participants, r.participant).value;
    MembershipUpdate(e.participants, j, Registered(e.participants[j], r), epoch);
  }

  /**
   A failure report takes standing away, unless it overwrites another kind of absence: reporting a
   failed participant unavailable, or an unavailable one failed, gives back part of what was lost.
   */
  lemma FailureLosesStandingExactlyWhen(e: Ensemble, j: nat, kind: FailureKind, epoch: nat)
    requires j < |e.participants|
    ensures AllWeakened(Membership(e.participants, epoch), Membership(AfterFailure(e, j, kind).participants, epoch)) <==>
              (if kind == KindUnavailable then e.participants[j].status !in {StatusFailed, StatusRetired}
               else e.participants[j].status !in {StatusUnavailable, StatusFenced, StatusRetired})
  {
    var before, after := Membership(e.participants, epoch), Membership(AfterFailure(e, j, kind).participants, epoch);
    MembershipUpdate(e.participants, j, FailedParticipant(e.participants[j], kind), epoch);
    assert AllWeakened(before, after) <==> Weakened(before[j], after[j]);
  }

  lemma QuorumStepState(spec: RuntimeSpec, ps: seq<Participant>, x: Execution)
    ensures QuorumStep(spec, ps, x).state
            == QuorumOf(spec.quorum, Membership(ps, x.epoch), Votes(x.evaluations), ValidCandidates(x.candidates), spec.generation, x.epoch,
                        x.reports.generation).state
  {
  }

  /**
   Registration and impossibility: after a successful registration the quorum of an execution is
   possible exactly when the member it brings back closes the gap to the minimum and to every role
   quota, whatever the quorum was before.
   */
  lemma RegistrationRevivesExactlyWhen(s: State, r: Registration, x: Execution)
    requires Register(s, r).1.Ok?
    ensures r.ensemble in s.ensembles
    ensures var e := s.ensembles[r.ensemble];
            var j := FindParticipant(e.participants, r.participant);
            && j.Some?
            && var policy, members := e.spec.quorum, Membership(e.participants, x.epoch);
               var before, after := members[j.value], MemberOf(Registered(e.participants[j.value], r), x.epoch);
               var u := UniqueVotes(Votes(x.evaluations));
               var c, b := Contributors(u), Abstainers(u);
               QuorumStep(e.spec, Register(s, r).0.ensembles[r.ensemble].participants, x).state != QuorumImpossible <==>
                 && |Denominator(policy, members, c, b)| + AddedToDenominator(policy, before, after, c, b) >= policy.minParticipants
                 && forall q :: q in policy.roleQuota ==>
                      QuotaPossible(members, q.role) + AddedToQuota(before, after, q.role) >= q.minCount
  {
    var e := s.ensembles[r.ensemble];
    var j := FindParticipant(e.participants, r.participant).value;
    RegistrationRegainsStanding(s, r, x.epoch);
    QuorumStepState(e.spec, Register(s, r).0.ensembles[r.ensemble].participants, x);
    RegainedStandingRevivesExactlyWhen(
      e.spec.quorum, Membership(e.participants, x.epoch), j, MemberOf(Registered(e.participants[j], r), x.epoch),
      Votes(x.evaluations), ValidCandidates(x.candidates), e.spec.generation, x.epoch, x.reports.generation);
  }
}
