/** Failure, retry and evidence withdrawal of a single candidate slot. */
module Attempts {
  import opened Base
  import opened Spec
  import opened Lifecycle
  import opened Records

  datatype FailureKind =
    | KindUnavailable | KindTransportError | KindMalformedOutput | KindInternalError | KindTimeout | KindAbort

  function FailureOf(kind: FailureKind): Error {
    match kind
    case KindUnavailable => ParticipantUnavailable
    case KindTransportError => TransportError
    case KindMalformedOutput => MalformedCandidate
    case KindInternalError => ParticipantFailed
    case KindTimeout => ParticipantUnavailable
    case KindAbort => ParticipantFailed
  }

  /** The wire value of a failure kind. */
  function KindOf(raw: nat): Option<FailureKind> {
    match raw
    case 1 => Some(KindUnavailable)
    case 2 => Some(KindTransportError)
    case 3 => Some(KindMalformedOutput)
    case 4 => Some(KindInternalError)
    case 5 => Some(KindTimeout)
    case 6 => Some(KindAbort)
    case _ => None
  }

  function Withdrawn(e: Evaluation, candidate: nat): Evaluation {
    if e.candidate == candidate && e.current then e.(current := false) else e
  }

  function WithdrawEvaluations(evaluations: seq<Evaluation>, candidate: nat): seq<Evaluation> {
    seq(|evaluations|, i requires 0 <= i < |evaluations| => Withdrawn(evaluations[i], candidate))
  }

  function DropUnanswered(pending: seq<Pending>, candidate: nat): seq<Pending> {
    Filter(pending, (p: Pending) => p.candidate != candidate || p.answered)
  }

  /** `y` is `x` up to its slots and the evidence about them. */
  predicate SlotsOnly(x: Execution, y: Execution) {
    y == x.(candidates := y.candidates, evaluations := y.evaluations, pending := y.pending)
  }

  /** Supersedes the current evaluations of a candidate and drops its unanswered plan. */
  function SupersedeEvidence(x: Execution, candidate: nat): Execution {
    x.(evaluations := WithdrawEvaluations(x.evaluations, candidate), pending := DropUnanswered(x.pending, candidate))
  }

  function FailedCandidate(c: Candidate, failure: Error): Candidate {
    c.(state := Failed, failure := Some(failure), payload := [])
  }

  function FailAt(x: Execution, k: nat, failure: Error): (r: Execution)
    requires k < |x.candidates|
    ensures SlotsOnly(x, r)
  {
    SupersedeEvidence(x.(candidates := x.candidates[k := FailedCandidate(x.candidates[k], failure)]), x.candidates[k].id)
  }

  /** The retry policy, applied to one failure of one candidate. */
  predicate RetryAuthorized(spec: RuntimeSpec, c: Candidate, failure: Error) {
    && (c.fallback ==> spec.fallback.enabled)
    && c.attemptsUsed < spec.retry.maxAttempts
    && match failure
       case ParticipantUnavailable => spec.retry.retryOnUnavailable
       case TransportError => spec.retry.retryOnTransportError
       case MalformedCandidate => spec.retry.retryOnMalformedCandidate
       case ParticipantFailed => spec.retry.retryOnParticipantFailed
       case _ => false
  }

  function RewoundCandidate(c: Candidate): Candidate {
    c.(generation := c.generation + 1, attempt := c.attempt + 1, state := Declared, payload := [], failure := None,
       current := true, trace := c.trace.(budgetUnitsUsed := 0, receivedSequence := 0))
  }

  /** Rewinds the slot for another attempt: the generation advances, so earlier output is fenced. */
  function RewindAt(x: Execution, k: nat): (r: Execution)
    requires k < |x.candidates|
    ensures SlotsOnly(x, r)
  {
    SupersedeEvidence(x.(candidates := x.candidates[k := RewoundCandidate(x.candidates[k])]), x.candidates[k].id)
  }

  function Reassigned(c: Candidate, p: Participant): Candidate {
    c.(trace := c.trace.(worker := p.worker, workerBoot := p.workerBoot))
  }

  function ReassignAt(x: Execution, k: nat, p: Participant): Execution
    requires k < |x.candidates|
  {
    x.(candidates := x.candidates[k := Reassigned(x.candidates[k], p)])
  }

  predicate ServedBy(c: Candidate, p: Participant) {
    c.participant == p.id && c.participantGeneration == p.generation && InFlight(c.state)
  }

  /** What a participant-level failure does to one slot: nothing, a retry, or the end of the slot. */
  function ReleaseAt(spec: RuntimeSpec, p: Participant, failure: Error, x: Execution, k: nat): (r: Execution)
    requires k < |x.candidates|
    ensures |r.candidates| == |x.candidates| && SlotsOnly(x, r)
  {
    var c := x.candidates[k];
    if !ServedBy(c, p) then x
    else if RetryAuthorized(spec, c, failure) then RewindAt(ReassignAt(x, k, p), k)
    else FailAt(x, k, failure)
  }

  function ReleaseFrom(spec: RuntimeSpec, p: Participant, failure: Error, x: Execution, k: nat): (r: Execution)
    ensures SlotsOnly(x, r)
    decreases |x.candidates| - k
  {
    if k >= |x.candidates| then x
    else ReleaseFrom(spec, p, failure, ReleaseAt(spec, p, failure, x, k), k + 1)
  }

  /** Every in-flight slot of the failed incarnation, in declaration order. */
  method ReleaseCandidates(spec: RuntimeSpec, p: Participant, failure: Error, x0: Execution) returns (x: Execution)
    ensures x == ReleaseFrom(spec, p, failure, x0, 0)
  {
    x := x0;
    var k := 0;
    while k < |x.candidates|
      invariant ReleaseFrom(spec, p, failure, x0, 0) == ReleaseFrom(spec, p, failure, x, k)
      decreases |x.candidates| - k
    {
      var c := x.candidates[k];
      if ServedBy(c, p) {
        if RetryAuthorized(spec, c, failure) {
          x := ReassignAt(x, k, p);
          x := RewindAt(x, k);
        } else {
          x := FailAt(x, k, failure);
        }
      }
      k := k + 1;
    }
  }

  // ---- Slots that stop being in flight together ----------------------------------------------

  function Interrupted(c: Candidate, state: CandidateState, stale: bool, failure: Option<Error>): Candidate {
    if !InFlight(c.state) then c
    else c.(state := state, current := if stale then false else c.current,
            failure := if failure.Some? then failure else c.failure)
  }

  /** Every in-flight slot moves to `state`; `stale` slots also lose their currency. */
  function InterruptAll(cs: seq<Candidate>, state: CandidateState, stale: bool, failure: Option<Error>): seq<Candidate> {
    seq(|cs|, i requires 0 <= i < |cs| => Interrupted(cs[i], state, stale, failure))
  }

  function AbandonAll(ps: seq<Pending>): seq<Pending> {
    seq(|ps|, i requires 0 <= i < |ps| => ps[i].(abandoned := true))
  }

  function WithdrawAll(evaluations: seq<Evaluation>): seq<Evaluation> {
    seq(|evaluations|, i requires 0 <= i < |evaluations| => evaluations[i].(current := false))
  }
}
