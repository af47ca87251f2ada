/**
 What holds of every reachable execution, stated against a log of everything an ensemble ever
 dispatched and accepted: retry budgets, the stage barrier, currency of evidence, fallback depth.
 */
module Invariants {
  import opened Base
  import opened Spec
  import opened Lifecycle
  import opened Records
  import opened Attempts
  import opened Progress
  import opened Monotone

  // ---- The log ----------------------------------------------------------------------------------

  /** An accepted completion of one attempt: content when there is a payload, else failure or abstention. */
  datatype Acceptance = Acceptance(candidate: nat, generation: nat, payload: Option<seq<byte>>)

  /** How often attempt `generation` of slot `id` was dispatched. */
  function DispatchesAt(log: seq<Action>, id: nat, generation: nat): nat {
    if log == [] then 0
    else
      var a := log[|log| - 1];
      DispatchesAt(log[..|log| - 1], id, generation)
      + if a.DispatchAction? && a.candidate == id && a.candidateGeneration == generation then 1 else 0
  }

  /** How often slot `id` was dispatched, over all its attempts. */
  function Dispatches(log: seq<Action>, id: nat): nat {
    if log == [] then 0
    else
      var a := log[|log| - 1];
      Dispatches(log[..|log| - 1], id) + if a.DispatchAction? && a.candidate == id then 1 else 0
  }

  function AcceptancesAt(log: seq<Acceptance>, id: nat, generation: nat): nat {
    if log == [] then 0
    else
      var a := log[|log| - 1];
      AcceptancesAt(log[..|log| - 1], id, generation) + if a.candidate == id && a.generation == generation then 1 else 0
  }

  lemma DispatchesSnoc(log: seq<Action>, a: Action, id: nat)
    ensures Dispatches(log + [a], id) == Dispatches(log, id) + if a.DispatchAction? && a.candidate == id then 1 else 0
  {
    assert (log + [a])[..|log|] == log;
  }

  lemma DispatchesAtSnoc(log: seq<Action>, a: Action, id: nat, g: nat)
    ensures DispatchesAt(log + [a], id, g)
            == DispatchesAt(log, id, g) + if a.DispatchAction? && a.candidate == id && a.candidateGeneration == g then 1 else 0
  {
    assert (log + [a])[..|log|] == log;
  }

  lemma AcceptancesAtSnoc(log: seq<Acceptance>, a: Acceptance, id: nat, g: nat)
    ensures AcceptancesAt(log + [a], id, g) == AcceptancesAt(log, id, g) + if a.candidate == id && a.generation == g then 1 else 0
  {
    assert (log + [a])[..|log|] == log;
  }

  ghost predicate ActionsBelow(log: seq<Action>, next: nat) {
    forall i :: 0 <= i < |log| && log[i].DispatchAction? ==> log[i].candidate < next
  }

  ghost predicate AcceptancesBelow(log: seq<Acceptance>, next: nat) {
    forall i :: 0 <= i < |log| ==> log[i].candidate < next
  }

  /** No attempt was dispatched twice or accepted two completions, and every logged slot was allocated. */
  ghost predicate LogInv(next: nat, acts: seq<Action>, acc: seq<Acceptance>) {
    && ActionsBelow(acts, next) && AcceptancesBelow(acc, next)
    && (forall id, g :: DispatchesAt(acts, id, g) <= 1)
    && (forall id, g :: AcceptancesAt(acc, id, g) <= 1)
  }

  lemma {:induction false} UnallocatedWasNeverDispatched(log: seq<Action>, next: nat, id: nat, g: nat)
    requires ActionsBelow(log, next) && next <= id
    ensures Dispatches(log, id) == 0 && DispatchesAt(log, id, g) == 0
  {
    if log != [] {
      UnallocatedWasNeverDispatched(log[..|log| - 1], next, id, g);
    }
  }

  lemma {:induction false} UnallocatedWasNeverAccepted(log: seq<Acceptance>, next: nat, id: nat, g: nat)
    requires AcceptancesBelow(log, next) && next <= id
    ensures AcceptancesAt(log, id, g) == 0
  {
    if log != [] {
      UnallocatedWasNeverAccepted(log[..|log| - 1], next, id, g);
    }
  }

  // ---- Slots --------------------------------------------------------------------------------------

  ghost predicate BudgetInv(max: nat, acts: seq<Action>, c: Candidate) {
    && c.generation >= 1 && c.attempt == c.generation
    && c.attemptsUsed == Dispatches(acts, c.id) <= max
    && (c.state == Declared ==> c.attemptsUsed < max)
    && (forall g {:trigger DispatchesAt(acts, c.id, g)} ::
          g > c.generation || (g == c.generation && c.state == Declared) ==> DispatchesAt(acts, c.id, g) == 0)
  }

  ghost predicate ContentInv(acc: seq<Acceptance>, c: Candidate) {
    && (forall g {:trigger AcceptancesAt(acc, c.id, g)} ::
          g > c.generation || (g == c.generation && InFlight(c.state)) ==> AcceptancesAt(acc, c.id, g) == 0)
    && (Answerable(c.state) ==> c.payload != [] && Acceptance(c.id, c.generation, Some(c.payload)) in acc)
    && c.state != Eligible && c.state != OutputReceived && c.state != Retired
  }

  ghost predicate SlotsInv(max: nat, next: nat, acts: seq<Action>, acc: seq<Acceptance>, cs: seq<Candidate>) {
    && (forall i :: 0 <= i < |cs| ==> cs[i].id < next)
    && (forall i, j :: 0 <= i < j < |cs| ==> cs[i].id < cs[j].id)
    && (forall i :: 0 <= i < |cs| ==> BudgetInv(max, acts, cs[i]))
    && (forall i :: 0 <= i < |cs| ==> ContentInv(acc, cs[i]))
  }

  // ---- Stage barrier --------------------------------------------------------------------------------

  ghost predicate StageReached(plan: seq<Stage>, index: nat, stage: nat) {
    exists k :: 0 <= k <= index && k < |plan| && plan[k].id == stage
  }

  /** In-flight work belongs to the current stage, and to a participant that stage lists. */
  predicate AtStage(plan: seq<Stage>, index: nat, c: Candidate) {
    index < |plan| && c.stage == plan[index].id && c.participant in plan[index].participants
  }

  predicate InSequence(plan: seq<Stage>, index: nat) {
    index < |plan| && plan[index].mode == Sequential
  }

  ghost predicate BarrierInv(plan: seq<Stage>, index: nat, cs: seq<Candidate>) {
    && index <= |plan|
    && (forall i :: 0 <= i < |cs| && InFlight(cs[i].state) ==> AtStage(plan, index, cs[i]))
    && (forall i :: 0 <= i < |cs| ==> StageReached(plan, index, cs[i].stage))
    && (InSequence(plan, index) ==>
          forall i, j :: 0 <= i < j < |cs| && cs[j].state == Dispatched && cs[i].stage == cs[j].stage ==> !InFlight(cs[i].state))
  }

  // ---- Evidence -------------------------------------------------------------------------------------

  /** Some slot holds accepted content of exactly this generation. */
  ghost predicate Supported(cs: seq<Candidate>, id: nat, generation: nat) {
    exists i :: 0 <= i < |cs| && cs[i].id == id && cs[i].generation == generation && Answerable(cs[i].state)
  }

  predicate SameEvidence(e: Evaluation, f: Evaluation) {
    e.evaluator == f.evaluator && e.evaluatorGeneration == f.evaluatorGeneration && e.criterion == f.criterion
    && e.candidate == f.candidate
  }

  ghost predicate EvaluationsInv(mandatory: seq<Criterion>, cs: seq<Candidate>, es: seq<Evaluation>) {
    && (forall i :: 0 <= i < |es| ==> Supported(cs, es[i].candidate, es[i].candidateGeneration))
    && (forall i :: 0 <= i < |es| && es[i].kind == HardPredicate ==> es[i].criterion in mandatory)
    && (forall i, j :: 0 <= i < j < |es| ==> !SameEvidence(es[i], es[j]))
  }

  ghost predicate PendingInv(mandatory: seq<Criterion>, cs: seq<Candidate>, qs: seq<Pending>) {
    forall i :: 0 <= i < |qs| ==>
      Supported(cs, qs[i].candidate, qs[i].candidateGeneration) && (qs[i].kind == HardPredicate ==> qs[i].criterion in mandatory)
  }

  // ---- Executions -----------------------------------------------------------------------------------

  ghost predicate FallbackInv(spec: RuntimeSpec, x: Execution) {
    if x.fallbackActivated
    then spec.fallback.enabled && x.fallbackDepth == 1 && x.extraStages == [FallbackStage(spec, 0)]
    else x.fallbackDepth == 0 && x.extraStages == []
  }

  ghost predicate ExecInv(spec: RuntimeSpec, next: nat, acts: seq<Action>, acc: seq<Acceptance>, x: Execution) {
    && SlotsInv(spec.retry.maxAttempts, next, acts, acc, x.candidates)
    && BarrierInv(Plan(spec, x), x.stageIndex, x.candidates)
    && EvaluationsInv(spec.evidence.mandatoryCriteria, x.candidates, x.evaluations)
    && PendingInv(spec.evidence.mandatoryCriteria, x.candidates, x.pending)
    && FallbackInv(spec, x)
    && (x.result.Some? ==> x.status != ExecOpen)
  }

  // ---- Evidence follows its candidate ---------------------------------------------------------------

  lemma SupportedAdvances(cs: seq<Candidate>, ds: seq<Candidate>, id: nat, generation: nat)
    requires CandidatesAdvance(cs, ds) && Supported(cs, id, generation)
    ensures Supported(ds, id, generation)
  {
    var i :| 0 <= i < |cs| && cs[i].id == id && cs[i].generation == generation && Answerable(cs[i].state);
    assert CandidateAdvances(cs[i], ds[i]);
    assert ds[i].id == id;
  }

  /** Evidence stays current whatever happens to the slots. */
  lemma EvidenceAdvances(mandatory: seq<Criterion>, cs: seq<Candidate>, ds: seq<Candidate>, es: seq<Evaluation>, qs: seq<Pending>)
    requires CandidatesAdvance(cs, ds)
    requires EvaluationsInv(mandatory, cs, es) && PendingInv(mandatory, cs, qs)
    ensures EvaluationsInv(mandatory, ds, es) && PendingInv(mandatory, ds, qs)
  {
    forall i | 0 <= i < |es| ensures Supported(ds, es[i].candidate, es[i].candidateGeneration) {
      SupportedAdvances(cs, ds, es[i].candidate, es[i].candidateGeneration);
    }
    forall i | 0 <= i < |qs| ensures Supported(ds, qs[i].candidate, qs[i].candidateGeneration) {
      SupportedAdvances(cs, ds, qs[i].candidate, qs[i].candidateGeneration);
    }
  }

  ghost predicate IncreasingIds(cs: seq<Candidate>) {
    forall i, j :: 0 <= i < j < |cs| ==> cs[i].id < cs[j].id
  }

  lemma UnresolvedIsUnsupported(cs: seq<Candidate>, k: nat, generation: nat)
    requires IncreasingIds(cs) && k < |cs| && !Answerable(cs[k].state)
    ensures !Supported(cs, cs[k].id, generation)
  {
  }

  /** No evidence names a slot without accepted content: withdrawing its evidence changes nothing. */
  lemma NothingToSupersede(mandatory: seq<Criterion>, x: Execution, k: nat)
    requires IncreasingIds(x.candidates) && k < |x.candidates| && !Answerable(x.candidates[k].state)
    requires EvaluationsInv(mandatory, x.candidates, x.evaluations) && PendingInv(mandatory, x.candidates, x.pending)
    ensures WithdrawEvaluations(x.evaluations, x.candidates[k].id) == x.evaluations
    ensures DropUnanswered(x.pending, x.candidates[k].id) == x.pending
  {
    var id := x.candidates[k].id;
    forall i | 0 <= i < |x.evaluations| ensures x.evaluations[i].candidate != id {
      UnresolvedIsUnsupported(x.candidates, k, x.evaluations[i].candidateGeneration);
    }
    forall q | q in x.pending ensures q.candidate != id {
      var i :| 0 <= i < |x.pending| && x.pending[i] == q;
      UnresolvedIsUnsupported(x.candidates, k, q.candidateGeneration);
    }
    FilterAll(x.pending, (p: Pending) => p.candidate != id || p.answered);
  }

  // ---- One slot changes -------------------------------------------------------------------------------

  /** A legal rewrite of one in-flight slot. */
  ghost predicate SlotStep(max: nat, acts: seq<Action>, acc: seq<Acceptance>, plan: seq<Stage>, index: nat,
                           cs: seq<Candidate>, k: nat, c: Candidate)
    requires k < |cs|
  {
    && InFlight(cs[k].state)
    && CandidateAdvances(cs[k], c)
    && BudgetInv(max, acts, c)
    && ContentInv(acc, c)
    && (c.state == Dispatched && InSequence(plan, index) ==>
          forall i :: 0 <= i < k && cs[i].stage == c.stage ==> !InFlight(cs[i].state))
  }

  lemma BarrierKeptBySlot(plan: seq<Stage>, index: nat, cs: seq<Candidate>, k: nat, c: Candidate)
    requires BarrierInv(plan, index, cs) && k < |cs| && InFlight(cs[k].state) && CandidateAdvances(cs[k], c)
    requires c.state == Dispatched && InSequence(plan, index) ==>
               forall i :: 0 <= i < k && cs[i].stage == c.stage ==> !InFlight(cs[i].state)
    ensures BarrierInv(plan, index, cs[k := c])
  {
  }

  /** An execution keeps its invariant when a slot takes a legal step; other slots see the same log. */
  lemma SlotStepKeeps(spec: RuntimeSpec, next: nat, acts: seq<Action>, acc: seq<Acceptance>, x: Execution, k: nat, c: Candidate)
    requires k < |x.candidates|
    requires ExecInv(spec, next, acts, acc, x)
    requires SlotStep(spec.retry.maxAttempts, acts, acc, Plan(spec, x), x.stageIndex, x.candidates, k, c)
    ensures ExecInv(spec, next, acts, acc, x.(candidates := x.candidates[k := c]))
    ensures ExecutionAdvances(x, x.(candidates := x.candidates[k := c]))
  {
    var y := x.(candidates := x.candidates[k := c]);
    UpdateAdvances(x, k, c);
    BarrierKeptBySlot(Plan(spec, x), x.stageIndex, x.candidates, k, c);
    EvidenceAdvances(spec.evidence.mandatoryCriteria, x.candidates, y.candidates, x.evaluations, x.pending);
    assert Plan(spec, y) == Plan(spec, x);
  }

  // ---- The slot steps of failure and retry ----------------------------------------------------------

  lemma FailureIsSlotStep(spec: RuntimeSpec, next: nat, acts: seq<Action>, acc: seq<Acceptance>, x: Execution, k: nat, failure: Error)
    requires k < |x.candidates| && InFlight(x.candidates[k].state)
    requires ExecInv(spec, next, acts, acc, x)
    ensures ExecInv(spec, next, acts, acc, FailAt(x, k, failure))
    ensures ExecutionAdvances(x, FailAt(x, k, failure))
    ensures FailAt(x, k, failure) == x.(candidates := x.candidates[k := FailedCandidate(x.candidates[k], failure)])
  {
    var c := FailedCandidate(x.candidates[k], failure);
    SlotStepKeeps(spec, next, acts, acc, x, k, c);
    NothingToSupersede(spec.evidence.mandatoryCriteria, x.(candidates := x.candidates[k := c]), k);
  }

  lemma RewindIsSlotStep(spec: RuntimeSpec, next: nat, acts: seq<Action>, acc: seq<Acceptance>, x: Execution, k: nat)
    requires k < |x.candidates| && InFlight(x.candidates[k].state)
    requires x.candidates[k].attemptsUsed < spec.retry.maxAttempts
    requires ExecInv(spec, next, acts, acc, x)
    ensures ExecInv(spec, next, acts, acc, RewindAt(x, k))
    ensures ExecutionAdvances(x, RewindAt(x, k))
    ensures RewindAt(x, k) == x.(candidates := x.candidates[k := RewoundCandidate(x.candidates[k])])
  {
    var c := RewoundCandidate(x.candidates[k]);
    SlotStepKeeps(spec, next, acts, acc, x, k, c);
    NothingToSupersede(spec.evidence.mandatoryCriteria, x.(candidates := x.candidates[k := c]), k);
  }

  lemma RetryKeeps(spec: RuntimeSpec, next: nat, acts: seq<Action>, acc: seq<Acceptance>, x: Execution, p: Participant, k: nat)
    requires k < |x.candidates| && InFlight(x.candidates[k].state)
    requires x.candidates[k].attemptsUsed < spec.retry.maxAttempts
    requires ExecInv(spec, next, acts, acc, x)
    ensures var y := RewindAt(ReassignAt(x, k, p), k);
            ExecInv(spec, next, acts, acc, y) && y == x.(candidates := y.candidates)
  {
    SlotStepKeeps(spec, next, acts, acc, x, k, Reassigned(x.candidates[k], p));
    RewindIsSlotStep(spec, next, acts, acc, ReassignAt(x, k, p), k);
  }

  lemma ReleaseAtKeeps(spec: RuntimeSpec, next: nat, acts: seq<Action>, acc: seq<Acceptance>, x: Execution,
                       p: Participant, failure: Error, k: nat)
    requires k < |x.candidates| && ExecInv(spec, next, acts, acc, x)
    ensures var y := ReleaseAt(spec, p, failure, x, k);
            ExecInv(spec, next, acts, acc, y) && y == x.(candidates := y.candidates)
  {
    var c := x.candidates[k];
    var y := ReleaseAt(spec, p, failure, x, k);
    if ServedBy(c, p) && RetryAuthorized(spec, c, failure) {
      assert y == RewindAt(ReassignAt(x, k, p), k);
      RetryKeeps(spec, next, acts, acc, x, p, k);
    } else if ServedBy(c, p) {
      assert y == FailAt(x, k, failure);
      FailureIsSlotStep(spec, next, acts, acc, x, k, failure);
    } else {
      assert y == x;
    }
  }

  /** A participant failure retries or ends the slots it served, and discards no accepted evaluation. */
  lemma {:induction false} ReleaseKeeps(spec: RuntimeSpec, next: nat, acts: seq<Action>, acc: seq<Acceptance>, x: Execution,
                                        p: Participant, failure: Error, k: nat)
    requires ExecInv(spec, next, acts, acc, x)
    ensures var y := ReleaseFrom(spec, p, failure, x, k);
            ExecInv(spec, next, acts, acc, y) && y == x.(candidates := y.candidates)
    decreases |x.candidates| - k
  {
    if k < |x.candidates| {
      ReleaseAtKeeps(spec, next, acts, acc, x, p, failure, k);
      ReleaseKeeps(spec, next, acts, acc, ReleaseAt(spec, p, failure, x, k), p, failure, k + 1);
    }
  }
}
