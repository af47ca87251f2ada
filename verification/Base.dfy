/** Values shared by every component: machine widths, outcomes and typed errors. */
module Base {

  const U8_MAX: nat := 0xFF
  const U16_MAX: nat := 0xFFFF
  const U32_MAX: nat := 0xFFFF_FFFF
  const U64_MAX: nat := 0xFFFF_FFFF_FFFF_FFFF

  type byte = x: int | 0 <= x < 256

  /** Labels, domains and rationales: the runtime only compares and measures them. */
  type Text = seq<byte>

  datatype Option<+T> = None | Some(value: T)

  datatype Outcome<+T> = Ok(value: T) | Err(error: Error)

  /** The typed rejections the modelled code can produce. */
  datatype Error =
    | InvalidArgument
    | InvalidEnumValue
    | InvalidIdentityCombination
    | InvalidStateTransition
    | ResourceLimitExceeded
    | PayloadTooLarge
    | UnknownEnsemble
    | UnknownExecution
    | UnknownParticipant
    | UnknownCandidate
    | StaleEnsembleGeneration
    | StaleExecutionGeneration
    | StaleParticipantGeneration
    | StaleCandidateGeneration
    | StaleEvaluationGeneration
    | StaleWorkerBoot
    | StaleCoordinatorEpoch
    | ParticipantNotAuthoritative
    | ParticipantDuplicate
    | ParticipantRoleMismatch
    | ParticipantIncompatible
    | ParticipantUnavailable
    | ParticipantFailed
    | RequiredParticipantFailed
    | TransportError
    | MalformedCandidate
    | MalformedEvaluation
    | MalformedFrame
    | MalformedPersistence
    | TrailingData
    | UnsupportedVersion
    | ChecksumMismatch
    | DuplicateCompletion
    | DuplicateEvaluation
    | ConflictingEvaluation
    | EvaluationTargetMismatch
    | ExecutionCancelled
    | EnsembleCancelled
    | EnsembleSuperseded
    | RevalidationRequired
    | ResultAlreadyCommitted
    | ConflictingResultCommit
    | QuorumNotReachedError
    | QuorumImpossibleError
    | DisagreementUnresolved
    | TieUnresolved
    | EvidenceInsufficient
    | EveryCandidateInvalid
    | NobodyEligible
    | FallbackNotAuthorized
    | ConsensusNotReached
    | InternalError

  /** Position of the first element satisfying `f`, in list order. */
  function IndexOf<T>(s: seq<T>, f: T -> bool): (r: Option<nat>)
    ensures r.Some? ==> r.value < |s| && f(s[r.value])
    ensures r.Some? ==> forall j :: 0 <= j < r.value ==> !f(s[j])
    ensures r.None? ==> forall x :: x in s ==> !f(x)
  {
    if s == [] then None
    else if f(s[0]) then Some(0)
    else
      match IndexOf(s[1..], f)
      case None => None
      case Some(k) => Some(k + 1)
  }

  /** The elements satisfying `f`, in list order. */
  function Filter<T(!new)>(s: seq<T>, f: T -> bool): (r: seq<T>)
    ensures forall x {:trigger x in r} :: x in r <==> x in s && f(x)
    ensures |r| <= |s|
  {
    if s == [] then [] else (if f(s[0]) then [s[0]] else []) + Filter(s[1..], f)
  }

  lemma {:induction false} FilterSnoc<T(!new)>(s: seq<T>, x: T, f: T -> bool)
    ensures Filter(s + [x], f) == Filter(s, f) + (if f(x) then [x] else [])
  {
    if s == [] {
      assert s + [x] == [x];
    } else {
      assert (s + [x])[1..] == s[1..] + [x];
      FilterSnoc(s[1..], x, f);
    }
  }

  /** A filter that keeps everything changes nothing. */
  lemma {:induction false} FilterAll<T(!new)>(s: seq<T>, f: T -> bool)
    requires forall x :: x in s ==> f(x)
    ensures Filter(s, f) == s
  {
    if s != [] {
      FilterAll(s[1..], f);
    }
  }

  /** How many elements satisfy `f`. */
  function CountIf<T>(s: seq<T>, f: T -> bool): (n: nat)
    ensures n <= |s|
  {
    if s == [] then 0 else (if f(s[0]) then 1 else 0) + CountIf(s[1..], f)
  }

  lemma {:induction false} CountIfSnoc<T>(s: seq<T>, x: T, f: T -> bool)
    ensures CountIf(s + [x], f) == CountIf(s, f) + (if f(x) then 1 else 0)
  {
    if s == [] {
      assert s + [x] == [x];
    } else {
      assert (s + [x])[1..] == s[1..] + [x];
      CountIfSnoc(s[1..], x, f);
    }
  }

  lemma {:induction false} CountIfZero<T>(s: seq<T>, f: T -> bool)
    ensures CountIf(s, f) == 0 <==> forall x :: x in s ==> !f(x)
  {
    if s != [] {
      CountIfZero(s[1..], f);
      assert forall x :: x in s <==> x == s[0] || x in s[1..];
    }
  }

  ghost predicate Distinct<T>(s: seq<T>) {
    forall i, j :: 0 <= i < j < |s| ==> s[i] != s[j]
  }
}
