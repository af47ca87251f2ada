/**
 Recomputing the reports: what a recomputation depends on, exactly when a second one repeats the
 first, and why the judge-disagreement trigger can make it alternate.
 */
module Recomputation {
  import opened Base
  import opened Spec
  import opened Records
  import opened Lifecycle
  import opened Reports
  import Quorum
  import Consensus
  import Arbitration
  import Sorting

  // ---- The sequence number is only copied ---------------------------------------------------------------

  lemma QuorumCopiesSequence(spec: RuntimeSpec, ps: seq<Participant>, x: Execution, a: ReportSet, b: ReportSet)
    ensures QuorumStep(spec, ps, WithReports(x, b)) == QuorumStep(spec, ps, WithReports(x, a)).(sequence := b.generation)
  {
  }

  lemma ConsensusCopiesSequence(inputs: Consensus.ConsensusInputs, q: nat, s: nat)
    ensures Consensus.ConsensusOf(inputs.(quorum := inputs.quorum.(sequence := q), sequence := s))
            == Consensus.ConsensusOf(inputs).(sequence := s)
  {
    var inputs' := inputs.(quorum := inputs.quorum.(sequence := q), sequence := s);
    var order := Sorting.Sort(Consensus.TallyOrder(), Consensus.EligibleTallies(inputs.tallies));
    assert Consensus.BaseReport(inputs') == Consensus.BaseReport(inputs).(sequence := s);
    ConcludeCopiesSequence(inputs, inputs', Consensus.BaseReport(inputs), order, s);
  }

  lemma ConcludeCopiesSequence(inputs: Consensus.ConsensusInputs, inputs': Consensus.ConsensusInputs,
                               base: Consensus.ConsensusReport, order: seq<Consensus.Tally>, s: nat)
    requires inputs' == inputs.(quorum := inputs'.quorum, sequence := s)
    requires inputs'.quorum == inputs.quorum.(sequence := inputs'.quorum.sequence)
    ensures Consensus.Conclude(inputs', base.(sequence := s), order) == Consensus.Conclude(inputs, base, order).(sequence := s)
  {
    assert Consensus.Verdict(inputs', |order|) == Consensus.Verdict(inputs, |order|);
  }

  lemma ArbitrationCopiesSequence(inputs: Arbitration.Inputs, s: nat)
    ensures Arbitration.ArbitrationOf(inputs.(sequence := s)) == Arbitration.ArbitrationOf(inputs).(sequence := s)
  {
    var inputs' := inputs.(sequence := s);
    EligibilityIgnoresSequence(inputs.candidates, inputs, inputs');
    assert Arbitration.Order(inputs') == Arbitration.Order(inputs);
    RankingsIgnoreSequence(inputs, s);
    assert Arbitration.BaseReport(inputs') == Arbitration.BaseReport(inputs).(sequence := s);
  }

  lemma RankingsIgnoreSequence(inputs: Arbitration.Inputs, s: nat)
    ensures Arbitration.Rankings(inputs.candidates, inputs.(sequence := s)) == Arbitration.Rankings(inputs.candidates, inputs)
  {
    forall i | 0 <= i < |inputs.candidates|
      ensures Arbitration.RankingOf(inputs.candidates[i], inputs.(sequence := s)) == Arbitration.RankingOf(inputs.candidates[i], inputs)
    {
      GatesIgnoreSequence(inputs.candidates[i], inputs, s);
    }
  }

  lemma GatesIgnoreSequence(c: Arbitration.Input, inputs: Arbitration.Inputs, s: nat)
    ensures Arbitration.CheckEligibility(c, inputs.(sequence := s)) == Arbitration.CheckEligibility(c, inputs)
  {
  }

  lemma {:induction false} EligibilityIgnoresSequence(cs: seq<Arbitration.Input>, inputs: Arbitration.Inputs, inputs': Arbitration.Inputs)
    requires inputs' == inputs.(sequence := inputs'.sequence)
    ensures Arbitration.EligibleInputs(cs, inputs') == Arbitration.EligibleInputs(cs, inputs)
    ensures CountIf(cs, (c: Arbitration.Input) => !Arbitration.IsEligible(c, inputs'))
            == CountIf(cs, (c: Arbitration.Input) => !Arbitration.IsEligible(c, inputs))
  {
    if cs != [] {
      GatesIgnoreSequence(cs[0], inputs, inputs'.sequence);
      EligibilityIgnoresSequence(cs[1..], inputs, inputs');
    }
  }

  // ---- What the reports are functions of -------------------------------------------------------------------

  /** The quorum report, without its sequence. */
  function BareQuorum(spec: RuntimeSpec, ps: seq<Participant>, x: Execution): Quorum.QuorumReport {
    QuorumStep(spec, ps, WithReports(x, NO_REPORTS))
  }

  function BareInputs(spec: RuntimeSpec, superseded: bool, ps: seq<Participant>, x: Execution, demanded: bool): Consensus.ConsensusInputs {
    ConsensusInputsOf(spec, superseded, ps, WithReports(x, NO_REPORTS.(quorum := BareQuorum(spec, ps, x))), demanded)
  }

  function BareArbitration(spec: RuntimeSpec, ps: seq<Participant>, x: Execution): Arbitration.Inputs {
    ArbitrationInputs(spec, ps, WithReports(x, NO_REPORTS), BareQuorum(spec, ps, x).state == Quorum.QuorumReached)
  }

  /** Whether the fallback counts as demanded, given which consensus state the trigger gets to see. */
  predicate Demanded(spec: RuntimeSpec, ps: seq<Participant>, x: Execution, seen: Consensus.ConsensusState) {
    FallbackDemanded(spec, ps, WithReports(x, NO_REPORTS.(quorum := BareQuorum(spec, ps, x),
                                                          consensus := Consensus.EMPTY_CONSENSUS.(state := seen))))
  }

  lemma TriggerSees(t: Trigger, spec: RuntimeSpec, ps: seq<Participant>, x: Execution, y: Execution)
    requires y.candidates == x.candidates
    requires y.reports.quorum.state == x.reports.quorum.state && y.reports.consensus.state == x.reports.consensus.state
    ensures TriggerFires(t, spec, ps, y) == TriggerFires(t, spec, ps, x)
  {
  }

  lemma {:induction false} FirstTriggerSees(triggers: seq<Trigger>, spec: RuntimeSpec, ps: seq<Participant>, x: Execution, y: Execution)
    requires y.candidates == x.candidates
    requires y.reports.quorum.state == x.reports.quorum.state && y.reports.consensus.state == x.reports.consensus.state
    ensures FirstTrigger(triggers, spec, ps, y) == FirstTrigger(triggers, spec, ps, x)
  {
    if triggers != [] {
      TriggerSees(triggers[0], spec, ps, x, y);
      FirstTriggerSees(triggers[1..], spec, ps, x, y);
    }
  }

  lemma DemandSees(spec: RuntimeSpec, ps: seq<Participant>, x: Execution, y: Execution)
    requires y == WithReports(x, y.reports)
    requires y.reports.quorum.state == BareQuorum(spec, ps, x).state
    ensures FallbackDemanded(spec, ps, y) == Demanded(spec, ps, x, y.reports.consensus.state)
  {
    var z := WithReports(x, NO_REPORTS.(quorum := BareQuorum(spec, ps, x),
                                        consensus := Consensus.EMPTY_CONSENSUS.(state := y.reports.consensus.state)));
    FirstTriggerSees(spec.fallback.triggers, spec, ps, y, z);
  }

  lemma TalliesIgnoreReports(x: Execution, a: ReportSet, b: ReportSet)
    ensures Tallies(WithReports(x, a)) == Tallies(WithReports(x, b))
  {
  }

  /** Two consensus inputs of the same evidence under reports that agree up to sequence numbers. */
  lemma InputsCopySequence(spec: RuntimeSpec, superseded: bool, ps: seq<Participant>, x: Execution, a: ReportSet, demanded: bool)
    requires a.quorum == BareQuorum(spec, ps, x).(sequence := a.generation)
    ensures var bare := BareInputs(spec, superseded, ps, x, demanded);
            ConsensusInputsOf(spec, superseded, ps, WithReports(x, a), demanded)
            == bare.(quorum := bare.quorum.(sequence := a.generation), sequence := a.generation)
  {
    TalliesIgnoreReports(x, a, NO_REPORTS.(quorum := BareQuorum(spec, ps, x)));
  }

  lemma ArbitrationInputsCopySequence(spec: RuntimeSpec, ps: seq<Participant>, x: Execution, a: ReportSet, reached: bool)
    requires reached == (BareQuorum(spec, ps, x).state == Quorum.QuorumReached)
    ensures ArbitrationInputs(spec, ps, WithReports(x, a), reached) == BareArbitration(spec, ps, x).(sequence := a.generation)
  {
    SameInputs(spec, ps, x, a, NO_REPORTS);
  }

  lemma SameInputs(spec: RuntimeSpec, ps: seq<Participant>, x: Execution, a: ReportSet, b: ReportSet)
    ensures InputsOf(spec, ps, WithReports(x, a)) == InputsOf(spec, ps, WithReports(x, b))
  {
  }

  /** The consensus part of a recomputation whose quorum part is `r1.quorum`. */
  lemma ConsensusShape(spec: RuntimeSpec, superseded: bool, ps: seq<Participant>, x: Execution, r1: ReportSet)
    requires r1.quorum == BareQuorum(spec, ps, x).(sequence := r1.generation)
    ensures ConsensusStep(spec, superseded, ps, WithReports(x, r1))
            == Consensus.ConsensusOf(BareInputs(spec, superseded, ps, x, Demanded(spec, ps, x, r1.consensus.state))).(sequence := r1.generation)
  {
    var d := Demanded(spec, ps, x, r1.consensus.state);
    DemandSees(spec, ps, x, WithReports(x, r1));
    InputsCopySequence(spec, superseded, ps, x, r1, d);
    ConsensusCopiesSequence(BareInputs(spec, superseded, ps, x, d), r1.generation, r1.generation);
  }

  lemma ArbitrationShape(spec: RuntimeSpec, ps: seq<Participant>, x: Execution, r2: ReportSet)
    requires r2.quorum == BareQuorum(spec, ps, x).(sequence := r2.generation)
    ensures ArbitrationStep(spec, ps, WithReports(x, r2)) == Arbitration.ArbitrationOf(BareArbitration(spec, ps, x)).(sequence := r2.generation)
  {
    ArbitrationInputsCopySequence(spec, ps, x, r2, r2.quorum.state == Quorum.QuorumReached);
    ArbitrationCopiesSequence(BareArbitration(spec, ps, x), r2.generation);
  }

  /** The three parts of a recomputation, one on top of the other. */
  lemma ReportsInSteps(spec: RuntimeSpec, superseded: bool, ps: seq<Participant>, x: Execution) returns (r1: ReportSet, r2: ReportSet)
    ensures r1 == x.reports.(generation := x.reports.generation + 1, quorum := r1.quorum)
    ensures r1.quorum == BareQuorum(spec, ps, x).(sequence := r1.generation)
    ensures r2 == r1.(consensus := ConsensusStep(spec, superseded, ps, WithReports(x, r1)))
    ensures ReportsOf(spec, superseded, ps, x) == r2.(arbitration := ArbitrationStep(spec, ps, WithReports(x, r2)))
  {
    var r0 := x.reports.(generation := x.reports.generation + 1);
    QuorumCopiesSequence(spec, ps, x, NO_REPORTS, r0);
    r1 := r0.(quorum := QuorumStep(spec, ps, WithReports(x, r0)));
    r2 := r1.(consensus := ConsensusStep(spec, superseded, ps, WithReports(x, r1)));
  }

  /** Every recomputation is the same up to its sequence, except for what the trigger saw of the previous consensus. */
  lemma ReportsShape(spec: RuntimeSpec, superseded: bool, ps: seq<Participant>, x: Execution)
    ensures var rs, g := ReportsOf(spec, superseded, ps, x), x.reports.generation + 1;
            && rs.generation == g
            && rs.quorum == BareQuorum(spec, ps, x).(sequence := g)
            && rs.consensus == Consensus.ConsensusOf(
                 BareInputs(spec, superseded, ps, x, Demanded(spec, ps, x, x.reports.consensus.state))).(sequence := g)
            && rs.arbitration == Arbitration.ArbitrationOf(BareArbitration(spec, ps, x)).(sequence := g)
  {
    var r1, r2 := ReportsInSteps(spec, superseded, ps, x);
    ConsensusShape(spec, superseded, ps, x, r1);
    ArbitrationShape(spec, ps, x, r2);
  }

  // ---- Exactly when a second recomputation repeats the first ---------------------------------------------------

  /** The same reports, apart from the report sequence. */
  ghost predicate SameReports(a: ReportSet, b: ReportSet) {
    && b.quorum == a.quorum.(sequence := b.quorum.sequence)
    && b.consensus == a.consensus.(sequence := b.consensus.sequence)
    && b.arbitration == a.arbitration.(sequence := b.arbitration.sequence)
  }

  /** Something decides the consensus before a demanded fallback is even considered. */
  predicate DecidedBeforeFallback(inputs: Consensus.ConsensusInputs) {
    || inputs.superseded || inputs.revalidationRequired || inputs.cancelled
    || (inputs.requiredParticipantFailed && inputs.requireAllRequired)
    || inputs.quorum.state == Quorum.QuorumImpossible
    || |Consensus.EligibleTallies(inputs.tallies)| == 0
  }

  predicate FallbackExhausted(spec: RuntimeSpec, x: Execution) {
    spec.fallback.enabled && x.fallbackDepth >= spec.fallback.maxDepth && !FallbackContent(x)
  }

  /** A configured trigger fires that does not look at the consensus. */
  predicate OtherTriggerFires(spec: RuntimeSpec, ps: seq<Participant>, x: Execution) {
    exists t :: t in spec.fallback.triggers && t != TriggerJudgeDisagreement
      && TriggerFires(t, spec, ps, WithReports(x, NO_REPORTS.(quorum := BareQuorum(spec, ps, x))))
  }

  /** The consensus the votes alone would give. */
  function VotedState(spec: RuntimeSpec, superseded: bool, ps: seq<Participant>, x: Execution): Consensus.ConsensusState {
    Consensus.ConsensusOf(BareInputs(spec, superseded, ps, x, false)).state
  }

  /**
   The condition under which recomputation alternates: the fallback is exhausted without content,
   judge disagreement is its only live trigger, nothing decides the consensus earlier, and either
   the previous report or the votes themselves disagree.
   */
  predicate Alternates(spec: RuntimeSpec, superseded: bool, ps: seq<Participant>, x: Execution) {
    && FallbackExhausted(spec, x)
    && TriggerJudgeDisagreement in spec.fallback.triggers
    && !OtherTriggerFires(spec, ps, x)
    && !DecidedBeforeFallback(BareInputs(spec, superseded, ps, x, false))
    && (Disagreeing(x.reports.consensus.state) || Disagreeing(VotedState(spec, superseded, ps, x)))
  }

  lemma DemandSplits(spec: RuntimeSpec, ps: seq<Participant>, x: Execution, seen: Consensus.ConsensusState)
    ensures Demanded(spec, ps, x, seen) <==>
              FallbackExhausted(spec, x)
              && (OtherTriggerFires(spec, ps, x) || (TriggerJudgeDisagreement in spec.fallback.triggers && Disagreeing(seen)))
  {
    var plain := WithReports(x, NO_REPORTS.(quorum := BareQuorum(spec, ps, x)));
    var y := WithReports(x, NO_REPORTS.(quorum := BareQuorum(spec, ps, x), consensus := Consensus.EMPTY_CONSENSUS.(state := seen)));
    forall t | t in spec.fallback.triggers && t != TriggerJudgeDisagreement
      ensures TriggerFires(t, spec, ps, y) == TriggerFires(t, spec, ps, plain)
    {
      OtherTriggersIgnoreConsensus(t, spec, ps, plain, y);
    }
    assert TriggerFires(TriggerJudgeDisagreement, spec, ps, y) == Disagreeing(seen);
  }

  lemma OtherTriggersIgnoreConsensus(t: Trigger, spec: RuntimeSpec, ps: seq<Participant>, x: Execution, y: Execution)
    requires t != TriggerJudgeDisagreement && y.candidates == x.candidates && y.reports.quorum.state == x.reports.quorum.state
    ensures TriggerFires(t, spec, ps, y) == TriggerFires(t, spec, ps, x)
  {
  }

  lemma DemandVerdict(plain: Consensus.ConsensusInputs, demanded: Consensus.ConsensusInputs, eligible: nat)
    requires demanded == plain.(fallbackRequired := true) && !plain.fallbackRequired
    requires eligible == |Consensus.EligibleTallies(plain.tallies)|
    ensures if DecidedBeforeFallback(plain)
            then Consensus.Verdict(demanded, eligible) == Consensus.Verdict(plain, eligible) && Consensus.Verdict(plain, eligible).Some?
            else Consensus.Verdict(demanded, eligible) == Some(Consensus.FallbackRequired)
                 && Consensus.Verdict(plain, eligible) != Some(Consensus.FallbackRequired)
  {
  }

  lemma ConcludeDecides(plain: Consensus.ConsensusInputs, demanded: Consensus.ConsensusInputs, base: Consensus.ConsensusReport,
                        order: seq<Consensus.Tally>)
    requires demanded == plain.(fallbackRequired := true) && !plain.fallbackRequired
    requires |order| == |Consensus.EligibleTallies(plain.tallies)|
    ensures if DecidedBeforeFallback(plain)
            then Consensus.Conclude(demanded, base, order) == Consensus.Conclude(plain, base, order)
            else Consensus.Conclude(demanded, base, order).state == Consensus.FallbackRequired
                 && Consensus.Conclude(plain, base, order).state != Consensus.FallbackRequired
  {
    DemandVerdict(plain, demanded, |order|);
  }

  lemma ConsensusConcludes(inputs: Consensus.ConsensusInputs, inputs': Consensus.ConsensusInputs) returns (order: seq<Consensus.Tally>)
    requires inputs' == inputs.(fallbackRequired := inputs'.fallbackRequired)
    ensures |order| == |Consensus.EligibleTallies(inputs.tallies)|
    ensures Consensus.ConsensusOf(inputs) == Consensus.Conclude(inputs, Consensus.BaseReport(inputs), order)
    ensures Consensus.ConsensusOf(inputs') == Consensus.Conclude(inputs', Consensus.BaseReport(inputs), order)
  {
    order := Sorting.Sort(Consensus.TallyOrder(), Consensus.EligibleTallies(inputs.tallies));
    Sorting.SortPermutes(Consensus.TallyOrder(), Consensus.EligibleTallies(inputs.tallies));
    assert Consensus.BaseReport(inputs') == Consensus.BaseReport(inputs);
  }

  /** A demanded fallback decides the consensus exactly when nothing decided it before. */
  lemma DemandDecides(plain: Consensus.ConsensusInputs, demanded: Consensus.ConsensusInputs)
    requires demanded == plain.(fallbackRequired := true) && !plain.fallbackRequired
    ensures if DecidedBeforeFallback(plain)
            then Consensus.ConsensusOf(demanded) == Consensus.ConsensusOf(plain)
            else Consensus.ConsensusOf(demanded).state == Consensus.FallbackRequired
                 && Consensus.ConsensusOf(plain).state != Consensus.FallbackRequired
  {
    var order := ConsensusConcludes(plain, demanded);
    ConcludeDecides(plain, demanded, Consensus.BaseReport(plain), order);
  }

  lemma BareInputsSplit(spec: RuntimeSpec, superseded: bool, ps: seq<Participant>, x: Execution, demanded: bool)
    ensures BareInputs(spec, superseded, ps, x, demanded) == BareInputs(spec, superseded, ps, x, false).(fallbackRequired := demanded)
  {
  }

  lemma BareIgnoresReports(spec: RuntimeSpec, superseded: bool, ps: seq<Participant>, x: Execution, a: ReportSet)
    ensures BareQuorum(spec, ps, WithReports(x, a)) == BareQuorum(spec, ps, x)
    ensures BareArbitration(spec, ps, WithReports(x, a)) == BareArbitration(spec, ps, x)
    ensures forall d :: BareInputs(spec, superseded, ps, WithReports(x, a), d) == BareInputs(spec, superseded, ps, x, d)
    ensures forall seen :: Demanded(spec, ps, WithReports(x, a), seen) == Demanded(spec, ps, x, seen)
  {
    assert forall b :: WithReports(WithReports(x, a), b) == WithReports(x, b);
  }

  /** The consensus of one recomputation, as a function of what its trigger saw. */
  function ConsensusSeeing(spec: RuntimeSpec, superseded: bool, ps: seq<Participant>, x: Execution,
                           seen: Consensus.ConsensusState): Consensus.ConsensusReport {
    Consensus.ConsensusOf(BareInputs(spec, superseded, ps, x, Demanded(spec, ps, x, seen)))
  }

  /** A recomputation on top of any reports of the same evidence. */
  lemma ShapeOnTop(spec: RuntimeSpec, superseded: bool, ps: seq<Participant>, x: Execution, a: ReportSet)
    ensures var b := ReportsOf(spec, superseded, ps, WithReports(x, a));
            && b.quorum == BareQuorum(spec, ps, x).(sequence := b.generation)
            && b.consensus == ConsensusSeeing(spec, superseded, ps, x, a.consensus.state).(sequence := b.generation)
            && b.arbitration == Arbitration.ArbitrationOf(BareArbitration(spec, ps, x)).(sequence := b.generation)
  {
    ReportsShape(spec, superseded, ps, WithReports(x, a));
    BareIgnoresReports(spec, superseded, ps, x, a);
  }

  lemma SameUpToSequence(a: ReportSet, b: ReportSet, q: Quorum.QuorumReport, c: Consensus.ConsensusReport,
                         d: Consensus.ConsensusReport, r: Arbitration.Report)
    requires a.quorum == q.(sequence := a.generation) && b.quorum == q.(sequence := b.generation)
    requires a.consensus == c.(sequence := a.generation) && b.consensus == d.(sequence := b.generation) && c.sequence == d.sequence
    requires a.arbitration == r.(sequence := a.generation) && b.arbitration == r.(sequence := b.generation)
    ensures SameReports(a, b) <==> d == c
  {
  }

  lemma BareSequence(spec: RuntimeSpec, superseded: bool, ps: seq<Participant>, x: Execution, seen: Consensus.ConsensusState)
    ensures ConsensusSeeing(spec, superseded, ps, x, seen).sequence == 0
  {
  }

  lemma TwiceIsConsensusTwice(spec: RuntimeSpec, superseded: bool, ps: seq<Participant>, x: Execution)
    ensures var a := ReportsOf(spec, superseded, ps, x);
            var b := ReportsOf(spec, superseded, ps, WithReports(x, a));
            var first := ConsensusSeeing(spec, superseded, ps, x, x.reports.consensus.state);
            SameReports(a, b) <==> ConsensusSeeing(spec, superseded, ps, x, first.state) == first
  {
    var a := ReportsOf(spec, superseded, ps, x);
    var b := ReportsOf(spec, superseded, ps, WithReports(x, a));
    var first := ConsensusSeeing(spec, superseded, ps, x, x.reports.consensus.state);
    assert WithReports(x, x.reports) == x;
    ShapeOnTop(spec, superseded, ps, x, x.reports);
    ShapeOnTop(spec, superseded, ps, x, a);
    BareSequence(spec, superseded, ps, x, x.reports.consensus.state);
    BareSequence(spec, superseded, ps, x, first.state);
    SameUpToSequence(a, b, BareQuorum(spec, ps, x), first, ConsensusSeeing(spec, superseded, ps, x, first.state),
                     Arbitration.ArbitrationOf(BareArbitration(spec, ps, x)));
  }

  /** Whether the second look of the trigger changes anything. */
  lemma SecondLook(spec: RuntimeSpec, superseded: bool, ps: seq<Participant>, x: Execution, first: Consensus.ConsensusReport)
    requires first == ConsensusSeeing(spec, superseded, ps, x, x.reports.consensus.state)
    ensures ConsensusSeeing(spec, superseded, ps, x, first.state) == first <==> !Alternates(spec, superseded, ps, x)
  {
    var plain, demanded := BareInputs(spec, superseded, ps, x, false), BareInputs(spec, superseded, ps, x, true);
    BareInputsSplit(spec, superseded, ps, x, true);
    DemandDecides(plain, demanded);
    DemandSplits(spec, ps, x, x.reports.consensus.state);
    DemandSplits(spec, ps, x, first.state);
    var d0, d1 := Demanded(spec, ps, x, x.reports.consensus.state), Demanded(spec, ps, x, first.state);
    assert first == Consensus.ConsensusOf(if d0 then demanded else plain);
    assert ConsensusSeeing(spec, superseded, ps, x, first.state) == Consensus.ConsensusOf(if d1 then demanded else plain);
  }

  /**
   Recomputing the reports with no step in between gives the same quorum, consensus and
   arbitration, apart from the report sequence, exactly when the recomputation does not alternate.
   */
  lemma RecomputationRepeatsExactlyWhen(spec: RuntimeSpec, superseded: bool, ps: seq<Participant>, x: Execution)
    ensures var a := ReportsOf(spec, superseded, ps, x);
            SameReports(a, ReportsOf(spec, superseded, ps, WithReports(x, a))) <==> !Alternates(spec, superseded, ps, x)
  {
    TwiceIsConsensusTwice(spec, superseded, ps, x);
    SecondLook(spec, superseded, ps, x, ConsensusSeeing(spec, superseded, ps, x, x.reports.consensus.state));
  }

  /** Without the judge-disagreement trigger, recomputation is idempotent. */
  lemma RecomputationIsIdempotent(spec: RuntimeSpec, superseded: bool, ps: seq<Participant>, x: Execution)
    requires TriggerJudgeDisagreement !in spec.fallback.triggers
    ensures var a := ReportsOf(spec, superseded, ps, x);
            SameReports(a, ReportsOf(spec, superseded, ps, WithReports(x, a)))
  {
    RecomputationRepeatsExactlyWhen(spec, superseded, ps, x);
  }

  /** Below the depth limit, the states of a recomputation do not depend on earlier reports. */
  lemma StatesForgetReports(spec: RuntimeSpec, ps: seq<Participant>, x: Execution, y: Execution)
    requires x.fallbackDepth < spec.fallback.maxDepth && y == WithReports(x, y.reports)
    ensures var a, b := ReportsOf(spec, false, ps, x), ReportsOf(spec, false, ps, y);
            a.quorum.state == b.quorum.state && a.consensus.state == b.consensus.state
  {
    ReportsShape(spec, false, ps, x);
    ReportsShape(spec, false, ps, y);
    BareIgnoresReports(spec, false, ps, x, y.reports);
    DemandSplits(spec, ps, x, x.reports.consensus.state);
    DemandSplits(spec, ps, x, y.reports.consensus.state);
  }

  /** Some candidate outside the fallback has content, and none of the fallback has. */
  predicate OnlyPrimaryContent(x: Execution) {
    (exists c :: c in x.candidates && IsContent(c.state)) && !FallbackContent(x)
  }

  /**
   Evaluators that never answered make an exhausted fallback alternate: whatever became of the
   fallback slots, as long as none of them has content, every recomputation undoes the last one.
   */
  lemma UnansweredJudgesAlternate(spec: RuntimeSpec, ps: seq<Participant>, x: Execution)
    requires spec.fallback.enabled && spec.fallback.triggers == [TriggerJudgeDisagreement]
    requires x.fallbackDepth >= spec.fallback.maxDepth && OnlyPrimaryContent(x)
    requires x.evaluations == [] && x.status == ExecOpen && Evaluators(spec) != [] && !spec.completion.requireAllRequiredParticipants
    requires BareQuorum(spec, ps, x).state == Quorum.QuorumReached
    ensures var a := ReportsOf(spec, false, ps, x);
            !SameReports(a, ReportsOf(spec, false, ps, WithReports(x, a)))
  {
    UnvotedIsInsufficient(spec, ps, x);
    OnlyJudgesTrigger(spec, ps, x);
    assert Alternates(spec, false, ps, x);
    RecomputationRepeatsExactlyWhen(spec, false, ps, x);
  }

  lemma OnlyJudgesTrigger(spec: RuntimeSpec, ps: seq<Participant>, x: Execution)
    requires spec.fallback.triggers == [TriggerJudgeDisagreement]
    ensures TriggerJudgeDisagreement in spec.fallback.triggers && !OtherTriggerFires(spec, ps, x)
  {
  }

  /** Content without a single vote, under evaluators, is insufficient evidence. */
  lemma UnvotedIsInsufficient(spec: RuntimeSpec, ps: seq<Participant>, x: Execution)
    requires (exists c :: c in x.candidates && IsContent(c.state)) && x.evaluations == [] && x.status == ExecOpen
    requires Evaluators(spec) != [] && !spec.completion.requireAllRequiredParticipants
    requires BareQuorum(spec, ps, x).state == Quorum.QuorumReached
    ensures VotedState(spec, false, ps, x) == Consensus.InsufficientEvidence
    ensures !DecidedBeforeFallback(BareInputs(spec, false, ps, x, false))
  {
    var inputs := BareInputs(spec, false, ps, x, false);
    UnvotedTallies(x);
    assert inputs.tallies == Tallies(x);
    Consensus.StateDependsOnAgreement(inputs);
  }

  lemma UnvotedTallies(x: Execution)
    requires x.evaluations == []
    ensures Consensus.MaxAgreeing(Consensus.EligibleTallies(Tallies(x))) == 0
    ensures (exists c :: c in x.candidates && IsContent(c.state)) ==> Consensus.EligibleTallies(Tallies(x)) != []
  {
    forall t | t in Tallies(x) ensures t.agreeing == 0 {
      var i :| 0 <= i < |x.candidates| && Tallies(x)[i] == t;
    }
    if exists c :: c in x.candidates && IsContent(c.state) {
      var c :| c in x.candidates && IsContent(c.state);
      var i :| 0 <= i < |x.candidates| && x.candidates[i] == c;
      assert Tallies(x)[i] in Tallies(x) && Tallies(x)[i].eligible;
      assert Tallies(x)[i] in Consensus.EligibleTallies(Tallies(x));
    }
  }
}
