/** Ensemble generations and executions: define, supersede, open and cancel. */
module Definition {
  import opened Base
  import opened Spec
  import opened Lifecycle
  import opened Records
  import opened Attempts
  import opened Participants

  // ---- Definition and redefinition -----------------------------------------------------------

  /** The specification fingerprint is a digest of the specification; any function of it will do. */
  type Digest = RuntimeSpec -> nat

  function Undeclared(d: ParticipantSpec): Participant {
    Participant(d.id, 1, d, StatusRevalidation, 0, 0, 0, NO_PROFILE, false, 0, false)
  }

  /** Nobody is current under a new generation until it registers again. */
  function FreshParticipants(declared: seq<ParticipantSpec>): seq<Participant> {
    seq(|declared|, i requires 0 <= i < |declared| => Undeclared(declared[i]))
  }

  function Retained(history: seq<Result>, bound: nat): seq<Result> {
    if |history| > bound then history[|history| - bound..] else history
  }

  function RedefinedHistory(e: Ensemble, bound: nat): seq<Result> {
    if e.execution.Some? && e.execution.value.result.Some?
    then Retained(e.history + [e.execution.value.result.value], bound)
    else e.history
  }

  /** The identity a definition asks for, and the allocator afterwards. */
  function DefinedIdentity(s: State, spec: RuntimeSpec): Option<(nat, nat)> {
    if spec.id == 0 then Allocate(s.ids.ensemble) else Some((spec.id, Observe(s.ids.ensemble, spec.id)))
  }

  /** The generation a definition gets, or why it may not have it. */
  function NextGeneration(s: State, id: nat, asked: nat): Outcome<nat> {
    if id !in s.ensembles then
      if asked != 0 && asked != 1 then Err(InvalidArgument) else Ok(1)
    else
      var current := s.ensembles[id].spec.generation;
      if current == U64_MAX then Err(ResourceLimitExceeded)
      else if asked != 0 && asked != current + 1 then Err(StaleEnsembleGeneration)
      else Ok(current + 1)
  }

  function Redefine(s: State, spec: RuntimeSpec): State {
    var members := FreshParticipants(spec.participants);
    if spec.id !in s.ensembles then Put(s, spec.id, Ensemble(spec, members, None, false, []))
    else
      var e := s.ensembles[spec.id];
      var s1 := if HasOpenExecution(e)
                then s.(counters := s.counters.(supersessions := s.counters.supersessions + 1)) else s;
      Put(s1, spec.id, Ensemble(spec, members, None, false, RedefinedHistory(e, s.config.limits.maxRetainedResults)))
  }

  function Define(s: State, asked: RuntimeSpec, digest: Digest): (State, Outcome<nat>) {
    match DefinedIdentity(s, asked)
    case None => (s, Err(ResourceLimitExceeded))
    case Some((id, next)) =>
      var s1 := s.(ids := s.ids.(ensemble := next));
      match NextGeneration(s1, id, asked.generation)
      case Err(error) => (s1, Err(error))
      case Ok(generation) =>
        var spec := asked.(id := id, generation := generation);
        match SpecFault(spec, s.config.limits)
        case Some(error) => (s1, Err(error))
        case None => (Redefine(s1, spec.(fingerprint := digest(spec))), Ok(generation))
  }

  // ---- Operations on the current generation ----------------------------------------------------

  /** Every generation-addressed operation starts with these two checks; neither is counted. */
  function GenerationFault(s: State, id: nat, generation: nat): Option<Error> {
    if id !in s.ensembles then Some(UnknownEnsemble)
    else if s.ensembles[id].spec.generation != generation then Some(StaleEnsembleGeneration)
    else None
  }

  function SupersededEnsemble(e: Ensemble): Ensemble {
    var e1 := e.(superseded := true);
    if !HasOpenExecution(e) then e1
    else
      var x := e.execution.value;
      e1.(execution := Some(x.(status := ExecSuperseded, candidates := InterruptAll(x.candidates, Superseded, false, None))))
  }

  function Supersede(s: State, id: nat, generation: nat): (State, Outcome<()>) {
    match GenerationFault(s, id, generation)
    case Some(error) => (s, Err(error))
    case None =>
      (Put(s, id, SupersededEnsemble(s.ensembles[id]))
         .(counters := s.counters.(supersessions := s.counters.supersessions + 1)), Ok(()))
  }

  function OpenFault(s: State, id: nat, generation: nat): Option<Error> {
    match GenerationFault(s, id, generation)
    case Some(error) => Some(error)
    case None =>
      var e := s.ensembles[id];
      if e.superseded then Some(EnsembleSuperseded)
      else if HasOpenExecution(e) then Some(InvalidStateTransition)
      else if OpenExecutions(s.ensembles) >= s.config.limits.maxInFlightExecutions then Some(ResourceLimitExceeded)
      else if e.execution.Some? && e.execution.value.id == U64_MAX then Some(ResourceLimitExceeded)
      else None
  }

  function NextExecution(e: Ensemble, epoch: nat): Execution {
    FreshExecution(if e.execution.Some? then e.execution.value.id + 1 else 1, epoch)
  }

  function Open(s: State, id: nat, generation: nat): (State, Outcome<nat>) {
    match OpenFault(s, id, generation)
    case Some(error) => (s, Err(error))
    case None =>
      var e := s.ensembles[id];
      var x := NextExecution(e, s.epoch);
      (Put(s, id, e.(execution := Some(x))), Ok(x.id))
  }

  function CancelFault(s: State, id: nat, generation: nat): Option<Error> {
    match GenerationFault(s, id, generation)
    case Some(error) => Some(error)
    case None =>
      var e := s.ensembles[id];
      if e.execution.None? then Some(UnknownExecution)
      else if e.execution.value.result.Some? then Some(ResultAlreadyCommitted)
      else None
  }

  function Cancel(s: State, id: nat, generation: nat): (State, Outcome<()>) {
    match CancelFault(s, id, generation)
    case Some(error) => (s, Err(error))
    case None =>
      var e := s.ensembles[id];
      var x := e.execution.value;
      if x.status == ExecCancelled then (s, Ok(()))
      else
        var cancelled := x.(cancellationRequested := true, status := ExecCancelled);
        (Put(s, id, e.(execution := Some(cancelled))).(ids := AfterSequence(s.ids)), Ok(()))
  }
}
