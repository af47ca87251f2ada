/** Registration, failure reports and invalidation: who holds authority, and since which generation. */
module Participants {
  import opened Base
  import opened Spec
  import opened Lifecycle
  import opened Records
  import opened Attempts

  datatype Registration = Registration(
    ensemble: nat,
    ensembleGeneration: nat,
    participant: nat,
    worker: nat,
    workerBoot: nat,
    epoch: nat,
    claimedRoles: RoleSet,
    profile: Profile) {

    predicate Complete() {
      ensemble != 0 && ensembleGeneration != 0 && participant != 0 && worker != 0 && workerBoot != 0 && epoch != 0
    }
  }

  function Put(s: State, id: nat, e: Ensemble): State {
    s.(ensembles := s.ensembles[id := e])
  }

  /** The first check a registration fails. */
  function RegistrationFault(s: State, r: Registration): Option<Error> {
    if !r.Complete() then Some(InvalidIdentityCombination)
    else if r.epoch != s.epoch then Some(StaleCoordinatorEpoch)
    else if r.ensemble !in s.ensembles then Some(UnknownEnsemble)
    else
      var e := s.ensembles[r.ensemble];
      if e.spec.generation != r.ensembleGeneration then Some(StaleEnsembleGeneration)
      else
        match FindParticipant(e.participants, r.participant)
        case None => Some(UnknownParticipant)
        case Some(j) =>
          var p := e.participants[j];
          if p.registered && p.status == StatusCurrent then Some(ParticipantDuplicate)
          else if !p.declaration.roles.ContainsAll(r.claimedRoles) then Some(ParticipantRoleMismatch)
          else if !Compatible(p.declaration.compatibility, r.profile) then Some(ParticipantIncompatible)
          else None
  }

  /** A second incarnation of a logical participant always gets a new generation. */
  function Registered(p: Participant, r: Registration): Participant {
    var q := if p.workerBoot != 0
             then p.(generation := p.generation + 1, replacementCount := p.replacementCount + 1)
             else p;
    q.(worker := r.worker, workerBoot := r.workerBoot, epoch := r.epoch, profile := r.profile,
       status := StatusCurrent, registered := true)
  }

  function Register(s: State, r: Registration): (State, Outcome<nat>) {
    match RegistrationFault(s, r)
    case Some(ParticipantDuplicate) =>
      (s.(counters := s.counters.(duplicateSubmissionsSuppressed := s.counters.duplicateSubmissionsSuppressed + 1)),
       Err(ParticipantDuplicate))
    case Some(error) => (CountStale(s, error), Err(error))
    case None =>
      var e := s.ensembles[r.ensemble];
      var j := FindParticipant(e.participants, r.participant).value;
      var p := Registered(e.participants[j], r);
      (Put(s, r.ensemble, e.(participants := e.participants[j := p])), Ok(p.generation))
  }

  function ReportFault(s: State, a: ParticipantAuthority): Option<Error> {
    if !a.Complete() then Some(InvalidIdentityCombination)
    else if a.epoch != s.epoch then Some(StaleCoordinatorEpoch)
    else if a.ensemble !in s.ensembles then Some(UnknownEnsemble)
    else
      var e := s.ensembles[a.ensemble];
      if e.spec.generation != a.ensembleGeneration then Some(StaleEnsembleGeneration)
      else
        match FindParticipant(e.participants, a.participant)
        case None => Some(UnknownParticipant)
        case Some(j) =>
          var p := e.participants[j];
          if p.generation != a.participantGeneration || p.workerBoot != a.workerBoot || p.worker != a.worker
          then Some(StaleWorkerBoot)
          else None
  }

  function FailedParticipant(p: Participant, kind: FailureKind): Participant {
    p.(status := if kind == KindUnavailable then StatusUnavailable else StatusFailed, registered := false)
  }

  predicate HasOpenExecution(e: Ensemble) {
    e.execution.Some? && e.execution.value.status == ExecOpen
  }

  predicate FailureCancels(e: Ensemble, p: Participant) {
    e.spec.cancellation.cancelOnRequiredFailure && p.declaration.required
  }

  /** The ensemble after the participant at `j` failed. */
  function AfterFailure(e: Ensemble, j: nat, kind: FailureKind): Ensemble
    requires j < |e.participants|
  {
    var p := FailedParticipant(e.participants[j], kind);
    var e1 := e.(participants := e.participants[j := p]);
    if !HasOpenExecution(e) then e1
    else
      var x := ReleaseFrom(e.spec, p, FailureOf(kind), e.execution.value, 0);
      e1.(execution := Some(if FailureCancels(e, p) then x.(status := ExecFailed) else x))
  }

  function ReportFailure(s: State, a: ParticipantAuthority, kind: FailureKind): (State, Outcome<()>) {
    match ReportFault(s, a)
    case Some(error) => (CountStale(s, error), Err(error))
    case None =>
      var e := s.ensembles[a.ensemble];
      var j := FindParticipant(e.participants, a.participant).value;
      (Put(s, a.ensemble, AfterFailure(e, j, kind)),
       if HasOpenExecution(e) && FailureCancels(e, e.participants[j]) then Err(RequiredParticipantFailed) else Ok(()))
  }

  // ---- Invalidation --------------------------------------------------------------------------

  function InvalidatedParticipant(p: Participant): Participant {
    p.(status := StatusRevalidation, registered := false)
  }

  function InvalidateParticipants(ps: seq<Participant>): seq<Participant> {
    seq(|ps|, i requires 0 <= i < |ps| => InvalidatedParticipant(ps[i]))
  }

  function InvalidateExecution(x: Execution): Execution {
    x.(status := ExecRevalidation,
       candidates := InterruptAll(x.candidates, Superseded, true, Some(RevalidationRequired)),
       evaluations := WithdrawAll(x.evaluations),
       pending := AbandonAll(x.pending))
  }

  function InvalidateEnsemble(e: Ensemble): Ensemble {
    var e1 := e.(participants := InvalidateParticipants(e.participants));
    if HasOpenExecution(e) then e1.(execution := Some(InvalidateExecution(e.execution.value))) else e1
  }

  function OpenExecutions(ensembles: map<nat, Ensemble>): nat {
    |set k | k in ensembles && HasOpenExecution(ensembles[k])|
  }

  /** Nobody is authoritative afterwards, and every open execution needs revalidation. */
  function Invalidate(s: State): State {
    s.(ensembles := map k | k in s.ensembles :: InvalidateEnsemble(s.ensembles[k]),
       counters := s.counters.(revalidationsRequired := s.counters.revalidationsRequired + OpenExecutions(s.ensembles)))
  }
}
