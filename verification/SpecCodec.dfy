/** The specification encoder and decoder: a bijection between specifications and the byte strings accepted. */
module SpecCodec {
  import opened Base
  import opened LittleEndian
  import opened Grammar
  import opened Spec
  import opened Streams

  /** Scores travel as opaque 64-bit words. */
  type WireSpec = EnsembleSpec<nat>

  // ---- Primitive shapes -----------------------------------------------------------------------------------

  function Flag(): Shape { Word(1, 0, 1, MalformedPersistence) }
  function Enum(last: nat): Shape { Word(1, 1, last, InvalidEnumValue) }
  function U16(): Shape { Word(2, 0, U16_MAX, MalformedPersistence) }
  function U32(): Shape { Word(4, 0, U32_MAX, MalformedPersistence) }
  function U64(): Shape { Word(8, 0, U64_MAX, MalformedPersistence) }

  function FlagValue(b: bool): Value { Num(if b then 1 else 0) }
  predicate FlagOf(v: Value) { v.Num? && v.n == 1 }
  function NumOf(v: Value): nat { if v.Num? then v.n else 0 }
  function RawOf(v: Value): seq<byte> { if v.Raw? then v.bytes else [] }
  function ItemsOf(v: Value): seq<Value> { if v.List? then v.items else [] }
  /** Field `i` of a record. */
  function At(v: Value, i: nat): Value { if v.Tuple? && i < |v.values| then v.values[i] else Absent }

  // ---- Lists ------------------------------------------------------------------------------------------------

  function MapTo<T>(f: T -> Value, xs: seq<T>): (vs: seq<Value>)
    ensures |vs| == |xs| && forall i :: 0 <= i < |xs| ==> vs[i] == f(xs[i])
  {
    seq(|xs|, i requires 0 <= i < |xs| => f(xs[i]))
  }

  function MapFrom<T>(g: Value -> T, vs: seq<Value>): (xs: seq<T>)
    ensures |xs| == |vs| && forall i :: 0 <= i < |vs| ==> xs[i] == g(vs[i])
  {
    seq(|vs|, i requires 0 <= i < |vs| => g(vs[i]))
  }

  lemma MapRoundTrip<T>(f: T -> Value, g: Value -> T, xs: seq<T>)
    requires forall i :: 0 <= i < |xs| ==> g(f(xs[i])) == xs[i]
    ensures MapFrom(g, MapTo(f, xs)) == xs
  {
  }

  lemma MapFromRoundTrip<T>(f: T -> Value, g: Value -> T, vs: seq<Value>)
    requires forall i :: 0 <= i < |vs| ==> f(g(vs[i])) == vs[i]
    ensures MapTo(f, MapFrom(g, vs)) == vs
  {
  }

  /** A list conforms exactly when its length is bounded and its elements conform. */
  lemma ListConforms<T>(max: nat, item: Shape, f: T -> Value, xs: seq<T>)
    ensures Conforms(Many(max, item), List(MapTo(f, xs))) <==>
              |xs| <= max && |xs| <= U32_MAX && forall i :: 0 <= i < |xs| ==> Conforms(item, f(xs[i]))
  {
    var vs := MapTo(f, xs);
    assert forall i :: 0 <= i < |xs| ==> vs[i] in vs;
  }

  function NatTo(): nat -> Value { (n: nat) => Num(n) }
  function NatFrom(): Value -> nat { (v: Value) => NumOf(v) }
  function TextTo(): Text -> Value { (t: Text) => Raw(t) }
  function TextFrom(): Value -> Text { (v: Value) => RawOf(v) }

  // ---- Enumerations ---------------------------------------------------------------------------------------------

  function RoleCode(r: Role): nat {
    match r case CandidateRole => 1 case SpecialistRole => 2 case JudgeRole => 3 case VerifierRole => 4 case FallbackRole => 5
  }

  function RoleOf(n: nat): Role {
    if n == 1 then CandidateRole else if n == 2 then SpecialistRole else if n == 3 then JudgeRole
    else if n == 4 then VerifierRole else FallbackRole
  }

  function ModeCode(m: TopologyMode): nat { if m == Parallel then 1 else 2 }
  function ModeOf(n: nat): TopologyMode { if n == 1 then Parallel else Sequential }

  function BasisCode(b: VoteBasis): nat {
    match b
    case DeclaredParticipants => 1
    case AuthoritativeParticipants => 2
    case ContributingParticipants => 3
    case RequiredParticipants => 4
    case EligibleParticipants => 5
  }

  function BasisOf(n: nat): VoteBasis {
    if n == 1 then DeclaredParticipants else if n == 2 then AuthoritativeParticipants else if n == 3 then ContributingParticipants
    else if n == 4 then RequiredParticipants else EligibleParticipants
  }

  function AggregationCode(k: AggregationKind): nat {
    match k
    case BestOfN => 1
    case QuorumVote => 2
    case WeightedVoteKind => 3
    case ConsensusThreshold => 4
    case JudgeArbitration => 5
    case VerifierGated => 6
  }

  function AggregationOf(n: nat): AggregationKind {
    if n == 1 then BestOfN else if n == 2 then QuorumVote else if n == 3 then WeightedVoteKind
    else if n == 4 then ConsensusThreshold else if n == 5 then JudgeArbitration else VerifierGated
  }

  function FactorCode(f: Factor): nat {
    match f
    case JudgeAcceptanceRatio => 1
    case VerifierState => 2
    case VoteCount => 3
    case WeightedVote => 4
    case AggregateScore => 5
    case MinScore => 6
    case Confidence => 7
    case ParticipantPriority => 8
    case SpecialistRelevance => 9
    case ExecutionCost => 10
    case Latency => 11
    case ProvenanceQuality => 12
    case FallbackStatus => 13
  }

  function FactorOf(n: nat): Factor {
    if n == 1 then JudgeAcceptanceRatio else if n == 2 then VerifierState else if n == 3 then VoteCount
    else if n == 4 then WeightedVote else if n == 5 then AggregateScore else if n == 6 then MinScore
    else if n == 7 then Confidence else if n == 8 then ParticipantPriority else if n == 9 then SpecialistRelevance
    else if n == 10 then ExecutionCost else if n == 11 then Latency else if n == 12 then ProvenanceQuality
    else FallbackStatus
  }

  function TieCode(t: TieBreak): nat {
    match t case ReportTie => 1 case LowestCandidateId => 2 case HighestScoreThenId => 3 case PreferRequiredParticipant => 4
  }

  function TieOf(n: nat): TieBreak {
    if n == 1 then ReportTie else if n == 2 then LowestCandidateId else if n == 3 then HighestScoreThenId
    else PreferRequiredParticipant
  }

  function TriggerCode(t: Trigger): nat {
    match t
    case TriggerParticipantUnavailable => 1
    case TriggerRetryExhausted => 2
    case TriggerQuorumImpossible => 3
    case TriggerRequiredRoleUnavailable => 4
    case TriggerAllPrimaryInvalid => 5
    case TriggerJudgeDisagreement => 6
    case TriggerInsufficientEvidence => 7
    case TriggerRequiredParticipantFailed => 8
  }

  function TriggerOf(n: nat): Trigger {
    if n == 1 then TriggerParticipantUnavailable else if n == 2 then TriggerRetryExhausted
    else if n == 3 then TriggerQuorumImpossible else if n == 4 then TriggerRequiredRoleUnavailable
    else if n == 5 then TriggerAllPrimaryInvalid else if n == 6 then TriggerJudgeDisagreement
    else if n == 7 then TriggerInsufficientEvidence else TriggerRequiredParticipantFailed
  }

  /** Bit 0 candidate, then specialist, judge, verifier and fallback. */
  function RolesMask(r: RoleSet): nat {
    (if r.candidate then 1 else 0) + (if r.specialist then 2 else 0) + (if r.judge then 4 else 0)
    + (if r.verifier then 8 else 0) + (if r.fallback then 16 else 0)
  }

  function RolesOf(n: nat): RoleSet {
    RoleSet(n % 2 == 1, n / 2 % 2 == 1, n / 4 % 2 == 1, n / 8 % 2 == 1, n / 16 % 2 == 1)
  }

  lemma EnumerationsRoundTrip()
    ensures forall r :: RoleOf(RoleCode(r)) == r && 1 <= RoleCode(r) <= 5
    ensures forall b :: BasisOf(BasisCode(b)) == b && 1 <= BasisCode(b) <= 5
    ensures forall k :: AggregationOf(AggregationCode(k)) == k && 1 <= AggregationCode(k) <= 6
    ensures forall f :: FactorOf(FactorCode(f)) == f && 1 <= FactorCode(f) <= 13
    ensures forall t :: TieOf(TieCode(t)) == t && 1 <= TieCode(t) <= 4
    ensures forall t :: TriggerOf(TriggerCode(t)) == t && 1 <= TriggerCode(t) <= 8
    ensures forall n :: 1 <= n <= 5 ==> RoleCode(RoleOf(n)) == n && BasisCode(BasisOf(n)) == n
    ensures forall n :: 1 <= n <= 6 ==> AggregationCode(AggregationOf(n)) == n
    ensures forall n :: 1 <= n <= 13 ==> FactorCode(FactorOf(n)) == n
    ensures forall n :: 1 <= n <= 4 ==> TieCode(TieOf(n)) == n
    ensures forall n :: 1 <= n <= 8 ==> TriggerCode(TriggerOf(n)) == n
  {
  }

  lemma RolesRoundTrip(r: RoleSet)
    ensures RolesMask(r) <= 31 && RolesOf(RolesMask(r)) == r
  {
  }

  lemma MaskRoundTrip(n: nat)
    requires n <= 31
    ensures RolesMask(RolesOf(n)) == n
  {
  }

  // ---- Criteria and requirements ----------------------------------------------------------------------------------

  function CriterionShape(): Shape { Record([U32(), U32()]) }
  function CriterionValue(c: Criterion): Value { Tuple([Num(c.id), Num(c.version)]) }
  function CriterionOf(v: Value): Criterion { Criterion(NumOf(At(v, 0)), NumOf(At(v, 1))) }
  function CriterionTo(): Criterion -> Value { (c: Criterion) => CriterionValue(c) }
  function CriterionFrom(): Value -> Criterion { (v: Value) => CriterionOf(v) }
  predicate CriterionFits(c: Criterion) { c.id <= U32_MAX && c.version <= U32_MAX }

  predicate CriteriaFit(cs: seq<Criterion>, max: nat) {
    |cs| <= max && |cs| <= U32_MAX && forall i :: 0 <= i < |cs| ==> CriterionFits(cs[i])
  }

  lemma CriterionEncodes(c: Criterion)
    ensures CriterionOf(CriterionValue(c)) == c
    ensures Conforms(CriterionShape(), CriterionValue(c)) <==> CriterionFits(c)
  {
    Widths();
  }

  lemma CriterionDecodes(v: Value)
    requires Conforms(CriterionShape(), v)
    ensures CriterionValue(CriterionOf(v)) == v
  {
  }

  lemma CriteriaEncode(cs: seq<Criterion>, max: nat)
    ensures MapFrom(CriterionFrom(), MapTo(CriterionTo(), cs)) == cs
    ensures Conforms(Many(max, CriterionShape()), List(MapTo(CriterionTo(), cs))) <==> CriteriaFit(cs, max)
  {
    forall i | 0 <= i < |cs|
      ensures CriterionFrom()(CriterionTo()(cs[i])) == cs[i]
      ensures Conforms(CriterionShape(), CriterionTo()(cs[i])) <==> CriterionFits(cs[i])
    {
      CriterionEncodes(cs[i]);
    }
    MapRoundTrip(CriterionTo(), CriterionFrom(), cs);
    ListConforms(max, CriterionShape(), CriterionTo(), cs);
  }

  lemma CriteriaDecode(vs: seq<Value>)
    requires forall v :: v in vs ==> Conforms(CriterionShape(), v)
    ensures MapTo(CriterionTo(), MapFrom(CriterionFrom(), vs)) == vs
  {
    forall i | 0 <= i < |vs| ensures CriterionTo()(CriterionFrom()(vs[i])) == vs[i] {
      assert vs[i] in vs;
      CriterionDecodes(vs[i]);
    }
    MapFromRoundTrip(CriterionTo(), CriterionFrom(), vs);
  }

  function RequirementShape(): Shape {
    Record([U16(), U32(), U32(), U32(), U32(), U32(), Flag()])
  }

  function RequirementValue(r: Requirement): Value {
    Tuple([Num(r.minProtocolVersion), Num(r.requiredCapabilities), Num(r.requiredTaskClass), Num(r.requiredOutputSchema),
      Num(r.excludedModelFamily), Num(r.requiredBackendFeatures), FlagValue(r.requireModelFamilyDiversity)])
  }

  function RequirementOf(v: Value): Requirement {
    Requirement(NumOf(At(v, 0)), NumOf(At(v, 1)), NumOf(At(v, 2)), NumOf(At(v, 3)), NumOf(At(v, 4)), NumOf(At(v, 5)), FlagOf(At(v, 6)))
  }

  predicate RequirementFits(r: Requirement) {
    && r.minProtocolVersion <= U16_MAX && r.requiredCapabilities <= U32_MAX && r.requiredTaskClass <= U32_MAX
    && r.requiredOutputSchema <= U32_MAX && r.excludedModelFamily <= U32_MAX && r.requiredBackendFeatures <= U32_MAX
  }

  lemma RequirementEncodes(r: Requirement)
    ensures RequirementOf(RequirementValue(r)) == r
    ensures Conforms(RequirementShape(), RequirementValue(r)) <==> RequirementFits(r)
  {
    Widths();
  }

  lemma RequirementDecodes(v: Value)
    requires Conforms(RequirementShape(), v)
    ensures RequirementValue(RequirementOf(v)) == v
  {
  }

  // ---- Participants -------------------------------------------------------------------------------------------------

  function ParticipantShape(limits: Limits): Shape {
    Record([U64(), Blob(limits.maxLabelBytes), Word(4, 0, 31, InvalidEnumValue), Flag(), Blob(limits.maxMetadataBytes), U32(),
      U32(), Maybe(Flag()), RequirementShape()])
  }

  function OverrideValue(o: Option<bool>): Value {
    match o case None => Absent case Some(b) => Present(FlagValue(b))
  }

  function OverrideOf(v: Value): Option<bool> {
    if v.Present? then Some(FlagOf(v.value)) else None
  }

  lemma OverrideEncodes(o: Option<bool>)
    ensures OverrideOf(OverrideValue(o)) == o && Conforms(Maybe(Flag()), OverrideValue(o))
  {
    Widths();
  }

  lemma OverrideDecodes(v: Value)
    requires Conforms(Maybe(Flag()), v)
    ensures OverrideValue(OverrideOf(v)) == v
  {
  }

  function ParticipantValue(p: ParticipantSpec): Value {
    Tuple([Num(p.id), Raw(p.name), Num(RolesMask(p.roles)), FlagValue(p.required), Raw(p.domain), Num(p.priority),
      Num(p.executionBudgetUnits), OverrideValue(p.selectableOverride), RequirementValue(p.compatibility)])
  }

  function ParticipantOf(v: Value): ParticipantSpec {
    ParticipantSpec(NumOf(At(v, 0)), RawOf(At(v, 1)), RolesOf(NumOf(At(v, 2))), FlagOf(At(v, 3)), RawOf(At(v, 4)), NumOf(At(v, 5)),
                    NumOf(At(v, 6)), OverrideOf(At(v, 7)), RequirementOf(At(v, 8)))
  }

  predicate TextFits(t: Text, max: nat) { |t| <= max && |t| <= U32_MAX }

  predicate ParticipantFits(p: ParticipantSpec, limits: Limits) {
    && p.id <= U64_MAX && TextFits(p.name, limits.maxLabelBytes) && TextFits(p.domain, limits.maxMetadataBytes)
    && p.priority <= U32_MAX && p.executionBudgetUnits <= U32_MAX && RequirementFits(p.compatibility)
  }

  lemma ParticipantEncodes(p: ParticipantSpec, limits: Limits)
    ensures ParticipantOf(ParticipantValue(p)) == p
    ensures Conforms(ParticipantShape(limits), ParticipantValue(p)) <==> ParticipantFits(p, limits)
  {
    Widths();
    RolesRoundTrip(p.roles);
    OverrideEncodes(p.selectableOverride);
    RequirementEncodes(p.compatibility);
  }

  lemma ParticipantDecodes(v: Value, limits: Limits)
    requires Conforms(ParticipantShape(limits), v)
    ensures ParticipantValue(ParticipantOf(v)) == v
  {
    MaskRoundTrip(NumOf(At(v, 2)));
    OverrideDecodes(At(v, 7));
    RequirementDecodes(At(v, 8));
  }

  function ParticipantTo(): ParticipantSpec -> Value { (p: ParticipantSpec) => ParticipantValue(p) }
  function ParticipantFrom(): Value -> ParticipantSpec { (v: Value) => ParticipantOf(v) }

  predicate ParticipantsFit(ps: seq<ParticipantSpec>, limits: Limits) {
    |ps| <= limits.maxParticipantsPerEnsemble && |ps| <= U32_MAX && forall i :: 0 <= i < |ps| ==> ParticipantFits(ps[i], limits)
  }

  lemma ParticipantsEncode(ps: seq<ParticipantSpec>, limits: Limits)
    ensures MapFrom(ParticipantFrom(), MapTo(ParticipantTo(), ps)) == ps
    ensures Conforms(Many(limits.maxParticipantsPerEnsemble, ParticipantShape(limits)), List(MapTo(ParticipantTo(), ps)))
            <==> ParticipantsFit(ps, limits)
  {
    forall i | 0 <= i < |ps|
      ensures ParticipantFrom()(ParticipantTo()(ps[i])) == ps[i]
      ensures Conforms(ParticipantShape(limits), ParticipantTo()(ps[i])) <==> ParticipantFits(ps[i], limits)
    {
      ParticipantEncodes(ps[i], limits);
    }
    MapRoundTrip(ParticipantTo(), ParticipantFrom(), ps);
    ListConforms(limits.maxParticipantsPerEnsemble, ParticipantShape(limits), ParticipantTo(), ps);
  }

  lemma ParticipantsDecode(vs: seq<Value>, limits: Limits)
    requires forall v :: v in vs ==> Conforms(ParticipantShape(limits), v)
    ensures MapTo(ParticipantTo(), MapFrom(ParticipantFrom(), vs)) == vs
  {
    forall i | 0 <= i < |vs| ensures ParticipantTo()(ParticipantFrom()(vs[i])) == vs[i] {
      assert vs[i] in vs;
      ParticipantDecodes(vs[i], limits);
    }
    MapFromRoundTrip(ParticipantTo(), ParticipantFrom(), vs);
  }

  // ---- Stages -----------------------------------------------------------------------------------------------------------

  predicate IdsFit(ids: seq<nat>, max: nat) {
    |ids| <= max && |ids| <= U32_MAX && forall i :: 0 <= i < |ids| ==> ids[i] <= U64_MAX
  }

  lemma IdsEncode(ids: seq<nat>, max: nat)
    ensures MapFrom(NatFrom(), MapTo(NatTo(), ids)) == ids
    ensures Conforms(Many(max, U64()), List(MapTo(NatTo(), ids))) <==> IdsFit(ids, max)
  {
    Widths();
    MapRoundTrip(NatTo(), NatFrom(), ids);
    ListConforms(max, U64(), NatTo(), ids);
  }

  lemma IdsDecode(vs: seq<Value>)
    requires forall v :: v in vs ==> Conforms(U64(), v)
    ensures MapTo(NatTo(), MapFrom(NatFrom(), vs)) == vs
  {
    forall i | 0 <= i < |vs| ensures NatTo()(NatFrom()(vs[i])) == vs[i] {
      assert vs[i] in vs;
    }
    MapFromRoundTrip(NatTo(), NatFrom(), vs);
  }

  predicate TextsFit(ts: seq<Text>, max: nat, bytes: nat) {
    |ts| <= max && |ts| <= U32_MAX && forall i :: 0 <= i < |ts| ==> TextFits(ts[i], bytes)
  }

  lemma TextsEncode(ts: seq<Text>, max: nat, bytes: nat)
    ensures MapFrom(TextFrom(), MapTo(TextTo(), ts)) == ts
    ensures Conforms(Many(max, Blob(bytes)), List(MapTo(TextTo(), ts))) <==> TextsFit(ts, max, bytes)
  {
    MapRoundTrip(TextTo(), TextFrom(), ts);
    ListConforms(max, Blob(bytes), TextTo(), ts);
  }

  lemma TextsDecode(vs: seq<Value>, bytes: nat)
    requires forall v :: v in vs ==> Conforms(Blob(bytes), v)
    ensures MapTo(TextTo(), MapFrom(TextFrom(), vs)) == vs
  {
    forall i | 0 <= i < |vs| ensures TextTo()(TextFrom()(vs[i])) == vs[i] {
      assert vs[i] in vs;
    }
    MapFromRoundTrip(TextTo(), TextFrom(), vs);
  }

  function StageShape(limits: Limits): Shape {
    Record([U64(), Blob(limits.maxLabelBytes), Enum(2), Many(limits.maxParallelBranches, U64()),
      Many(limits.maxParticipantsPerEnsemble, Blob(limits.maxMetadataBytes)), Flag()])
  }

  function StageValue(st: Stage): Value {
    Tuple([Num(st.id), Raw(st.name), Num(ModeCode(st.mode)), List(MapTo(NatTo(), st.participants)),
      List(MapTo(TextTo(), st.requiredDomains)), FlagValue(st.fallbackStage)])
  }

  function StageOf(v: Value): Stage {
    Stage(NumOf(At(v, 0)), RawOf(At(v, 1)), ModeOf(NumOf(At(v, 2))), MapFrom(NatFrom(), ItemsOf(At(v, 3))),
          MapFrom(TextFrom(), ItemsOf(At(v, 4))), FlagOf(At(v, 5)))
  }

  predicate StageFits(st: Stage, limits: Limits) {
    && st.id <= U64_MAX && TextFits(st.name, limits.maxLabelBytes) && IdsFit(st.participants, limits.maxParallelBranches)
    && TextsFit(st.requiredDomains, limits.maxParticipantsPerEnsemble, limits.maxMetadataBytes)
  }

  lemma StageEncodes(st: Stage, limits: Limits)
    ensures StageOf(StageValue(st)) == st
    ensures Conforms(StageShape(limits), StageValue(st)) <==> StageFits(st, limits)
  {
    Widths();
    IdsEncode(st.participants, limits.maxParallelBranches);
    TextsEncode(st.requiredDomains, limits.maxParticipantsPerEnsemble, limits.maxMetadataBytes);
  }

  lemma StageDecodes(v: Value, limits: Limits)
    requires Conforms(StageShape(limits), v)
    ensures StageValue(StageOf(v)) == v
  {
    IdsDecode(ItemsOf(At(v, 3)));
    TextsDecode(ItemsOf(At(v, 4)), limits.maxMetadataBytes);
  }

  function StageTo(): Stage -> Value { (st: Stage) => StageValue(st) }
  function StageFrom(): Value -> Stage { (v: Value) => StageOf(v) }

  predicate StagesFit(sts: seq<Stage>, limits: Limits) {
    |sts| <= limits.maxStagesPerEnsemble && |sts| <= U32_MAX && forall i :: 0 <= i < |sts| ==> StageFits(sts[i], limits)
  }

  lemma StagesEncode(sts: seq<Stage>, limits: Limits)
    ensures MapFrom(StageFrom(), MapTo(StageTo(), sts)) == sts
    ensures Conforms(Many(limits.maxStagesPerEnsemble, StageShape(limits)), List(MapTo(StageTo(), sts))) <==> StagesFit(sts, limits)
  {
    forall i | 0 <= i < |sts|
      ensures StageFrom()(StageTo()(sts[i])) == sts[i]
      ensures Conforms(StageShape(limits), StageTo()(sts[i])) <==> StageFits(sts[i], limits)
    {
      StageEncodes(sts[i], limits);
    }
    MapRoundTrip(StageTo(), StageFrom(), sts);
    ListConforms(limits.maxStagesPerEnsemble, StageShape(limits), StageTo(), sts);
  }

  lemma StagesDecode(vs: seq<Value>, limits: Limits)
    requires forall v :: v in vs ==> Conforms(StageShape(limits), v)
    ensures MapTo(StageTo(), MapFrom(StageFrom(), vs)) == vs
  {
    forall i | 0 <= i < |vs| ensures StageTo()(StageFrom()(vs[i])) == vs[i] {
      assert vs[i] in vs;
      StageDecodes(vs[i], limits);
    }
    MapFromRoundTrip(StageTo(), StageFrom(), vs);
  }

  // ---- Policies -----------------------------------------------------------------------------------------------------------

  function QuotaShape(): Shape { Record([Enum(5), U32()]) }
  function QuotaValue(q: RoleQuota): Value { Tuple([Num(RoleCode(q.role)), Num(q.minCount)]) }
  function QuotaOf(v: Value): RoleQuota { RoleQuota(RoleOf(NumOf(At(v, 0))), NumOf(At(v, 1))) }
  function QuotaTo(): RoleQuota -> Value { (q: RoleQuota) => QuotaValue(q) }
  function QuotaFrom(): Value -> RoleQuota { (v: Value) => QuotaOf(v) }

  lemma QuotaEncodes(q: RoleQuota)
    ensures QuotaOf(QuotaValue(q)) == q
    ensures Conforms(QuotaShape(), QuotaValue(q)) <==> q.minCount <= U32_MAX
  {
    Widths();
    EnumerationsRoundTrip();
  }

  lemma QuotaDecodes(v: Value)
    requires Conforms(QuotaShape(), v)
    ensures QuotaValue(QuotaOf(v)) == v
  {
    EnumerationsRoundTrip();
  }

  predicate QuotasFit(qs: seq<RoleQuota>, max: nat) {
    |qs| <= max && |qs| <= U32_MAX && forall i :: 0 <= i < |qs| ==> qs[i].minCount <= U32_MAX
  }

  lemma QuotasEncode(qs: seq<RoleQuota>, max: nat)
    ensures MapFrom(QuotaFrom(), MapTo(QuotaTo(), qs)) == qs
    ensures Conforms(Many(max, QuotaShape()), List(MapTo(QuotaTo(), qs))) <==> QuotasFit(qs, max)
  {
    forall i | 0 <= i < |qs|
      ensures QuotaFrom()(QuotaTo()(qs[i])) == qs[i]
      ensures Conforms(QuotaShape(), QuotaTo()(qs[i])) <==> qs[i].minCount <= U32_MAX
    {
      QuotaEncodes(qs[i]);
    }
    MapRoundTrip(QuotaTo(), QuotaFrom(), qs);
    ListConforms(max, QuotaShape(), QuotaTo(), qs);
  }

  lemma QuotasDecode(vs: seq<Value>)
    requires forall v :: v in vs ==> Conforms(QuotaShape(), v)
    ensures MapTo(QuotaTo(), MapFrom(QuotaFrom(), vs)) == vs
  {
    forall i | 0 <= i < |vs| ensures QuotaTo()(QuotaFrom()(vs[i])) == vs[i] {
      assert vs[i] in vs;
      QuotaDecodes(vs[i]);
    }
    MapFromRoundTrip(QuotaTo(), QuotaFrom(), vs);
  }

  function QuorumShape(limits: Limits): Shape {
    Record([U32(), Many(limits.maxRoleQuotaEntries, QuotaShape()), U32(), U32(), U32(), Enum(5), Flag(), Flag(), Flag(),
      Flag(), U32(), U32()])
  }

  function QuorumValue(q: QuorumPolicy): Value {
    Tuple([Num(q.minParticipants), List(MapTo(QuotaTo(), q.roleQuota)), Num(q.minEvaluations), Num(q.minValidCandidates),
      Num(q.consensusThresholdPercent), Num(BasisCode(q.voteBasis)), FlagValue(q.countAbstentions),
      FlagValue(q.countOptionalParticipants), FlagValue(q.countFailedInDenominator),
      FlagValue(q.countUnavailableInDenominator), Num(q.maxFailures), Num(q.maxAbstentions)])
  }

  function QuorumOf(v: Value): QuorumPolicy {
    QuorumPolicy(NumOf(At(v, 0)), MapFrom(QuotaFrom(), ItemsOf(At(v, 1))), NumOf(At(v, 2)), NumOf(At(v, 3)), NumOf(At(v, 4)),
                 BasisOf(NumOf(At(v, 5))), FlagOf(At(v, 6)), FlagOf(At(v, 7)), FlagOf(At(v, 8)), FlagOf(At(v, 9)), NumOf(At(v, 10)),
                 NumOf(At(v, 11)))
  }

  predicate QuorumFits(q: QuorumPolicy, limits: Limits) {
    && q.minParticipants <= U32_MAX && QuotasFit(q.roleQuota, limits.maxRoleQuotaEntries) && q.minEvaluations <= U32_MAX
    && q.minValidCandidates <= U32_MAX && q.consensusThresholdPercent <= U32_MAX && q.maxFailures <= U32_MAX
    && q.maxAbstentions <= U32_MAX
  }

  lemma QuorumRebuilds(q: QuorumPolicy, limits: Limits)
    ensures QuorumOf(QuorumValue(q)) == q
  {
    EnumerationsRoundTrip();
    QuotasEncode(q.roleQuota, limits.maxRoleQuotaEntries);
  }

  lemma QuorumConforms(q: QuorumPolicy, limits: Limits)
    ensures Conforms(QuorumShape(limits), QuorumValue(q)) <==> QuorumFits(q, limits)
  {
    Widths();
    EnumerationsRoundTrip();
    QuotasEncode(q.roleQuota, limits.maxRoleQuotaEntries);
    var v := QuorumValue(q).values;
    assert v[0] == Num(q.minParticipants) && v[1] == List(MapTo(QuotaTo(), q.roleQuota)) && v[2] == Num(q.minEvaluations);
    assert v[3] == Num(q.minValidCandidates) && v[4] == Num(q.consensusThresholdPercent);
    assert v[10] == Num(q.maxFailures) && v[11] == Num(q.maxAbstentions);
  }

  lemma QuorumEncodes(q: QuorumPolicy, limits: Limits)
    ensures QuorumOf(QuorumValue(q)) == q
    ensures Conforms(QuorumShape(limits), QuorumValue(q)) <==> QuorumFits(q, limits)
  {
    QuorumRebuilds(q, limits);
    QuorumConforms(q, limits);
  }

  lemma QuorumDecodes(v: Value, limits: Limits)
    requires Conforms(QuorumShape(limits), v)
    ensures QuorumValue(QuorumOf(v)) == v
  {
    EnumerationsRoundTrip();
    QuotasDecode(ItemsOf(At(v, 1)));
  }

  function AggregationShape(): Shape {
    Record([Enum(6), Flag(), Flag(), Flag(), U64(), U64()])
  }

  function AggregationValue(a: AggregationPolicy<nat>): Value {
    Tuple([Num(AggregationCode(a.kind)), FlagValue(a.useWeights), FlagValue(a.requireVerificationPass),
      FlagValue(a.requireJudgeAcceptance), Num(a.minAggregateScore), Num(a.minJudgeAcceptanceRatio)])
  }

  function AggregationPolicyOf(v: Value): AggregationPolicy<nat> {
    AggregationPolicy(AggregationOf(NumOf(At(v, 0))), FlagOf(At(v, 1)), FlagOf(At(v, 2)), FlagOf(At(v, 3)), NumOf(At(v, 4)), NumOf(At(v, 5)))
  }

  predicate AggregationFits(a: AggregationPolicy<nat>) { a.minAggregateScore <= U64_MAX && a.minJudgeAcceptanceRatio <= U64_MAX }

  lemma AggregationEncodes(a: AggregationPolicy<nat>)
    ensures AggregationPolicyOf(AggregationValue(a)) == a
    ensures Conforms(AggregationShape(), AggregationValue(a)) <==> AggregationFits(a)
  {
    Widths();
    EnumerationsRoundTrip();
  }

  lemma AggregationDecodes(v: Value)
    requires Conforms(AggregationShape(), v)
    ensures AggregationValue(AggregationPolicyOf(v)) == v
  {
    EnumerationsRoundTrip();
  }

  function FactorTo(): Factor -> Value { (f: Factor) => Num(FactorCode(f)) }
  function FactorFrom(): Value -> Factor { (v: Value) => FactorOf(NumOf(v)) }
  function TriggerTo(): Trigger -> Value { (t: Trigger) => Num(TriggerCode(t)) }
  function TriggerFrom(): Value -> Trigger { (v: Value) => TriggerOf(NumOf(v)) }

  lemma FactorsEncode(fs: seq<Factor>)
    ensures MapFrom(FactorFrom(), MapTo(FactorTo(), fs)) == fs
    ensures Conforms(Many(16, Enum(13)), List(MapTo(FactorTo(), fs))) <==> |fs| <= 16
  {
    Widths();
    EnumerationsRoundTrip();
    MapRoundTrip(FactorTo(), FactorFrom(), fs);
    ListConforms(16, Enum(13), FactorTo(), fs);
  }

  lemma FactorsDecode(vs: seq<Value>)
    requires forall v :: v in vs ==> Conforms(Enum(13), v)
    ensures MapTo(FactorTo(), MapFrom(FactorFrom(), vs)) == vs
  {
    forall i | 0 <= i < |vs| ensures FactorTo()(FactorFrom()(vs[i])) == vs[i] {
      assert vs[i] in vs;
      EnumerationsRoundTrip();
    }
    MapFromRoundTrip(FactorTo(), FactorFrom(), vs);
  }

  lemma TriggersEncode(ts: seq<Trigger>)
    ensures MapFrom(TriggerFrom(), MapTo(TriggerTo(), ts)) == ts
    ensures Conforms(Many(8, Enum(8)), List(MapTo(TriggerTo(), ts))) <==> |ts| <= 8
  {
    Widths();
    EnumerationsRoundTrip();
    MapRoundTrip(TriggerTo(), TriggerFrom(), ts);
    ListConforms(8, Enum(8), TriggerTo(), ts);
  }

  lemma TriggersDecode(vs: seq<Value>)
    requires forall v :: v in vs ==> Conforms(Enum(8), v)
    ensures MapTo(TriggerTo(), MapFrom(TriggerFrom(), vs)) == vs
  {
    forall i | 0 <= i < |vs| ensures TriggerTo()(TriggerFrom()(vs[i])) == vs[i] {
      assert vs[i] in vs;
      EnumerationsRoundTrip();
    }
    MapFromRoundTrip(TriggerTo(), TriggerFrom(), vs);
  }

  function ArbitrationShape(): Shape {
    Record([Many(16, Enum(13)), Enum(4), Flag(), U32()])
  }

  function ArbitrationValue(a: ArbitrationPolicy): Value {
    Tuple([List(MapTo(FactorTo(), a.factors)), Num(TieCode(a.tieBreak)), FlagValue(a.requireUniqueWinner), Num(a.maxSelected)])
  }

  function ArbitrationOf(v: Value): ArbitrationPolicy {
    ArbitrationPolicy(MapFrom(FactorFrom(), ItemsOf(At(v, 0))), TieOf(NumOf(At(v, 1))), FlagOf(At(v, 2)), NumOf(At(v, 3)))
  }

  predicate ArbitrationFits(a: ArbitrationPolicy) { |a.factors| <= 16 && a.maxSelected <= U32_MAX }

  lemma ArbitrationEncodes(a: ArbitrationPolicy)
    ensures ArbitrationOf(ArbitrationValue(a)) == a
    ensures Conforms(ArbitrationShape(), ArbitrationValue(a)) <==> ArbitrationFits(a)
  {
    Widths();
    EnumerationsRoundTrip();
    FactorsEncode(a.factors);
  }

  lemma ArbitrationDecodes(v: Value)
    requires Conforms(ArbitrationShape(), v)
    ensures ArbitrationValue(ArbitrationOf(v)) == v
  {
    EnumerationsRoundTrip();
    FactorsDecode(ItemsOf(At(v, 0)));
  }

  function FallbackShape(limits: Limits): Shape {
    Record([Flag(), Many(8, Enum(8)), Many(limits.maxParticipantsPerEnsemble, U64()), Flag(), U32()])
  }

  function FallbackValue(f: FallbackPolicy): Value {
    Tuple([FlagValue(f.enabled), List(MapTo(TriggerTo(), f.triggers)), List(MapTo(NatTo(), f.participants)),
      FlagValue(f.eagerSpeculative), Num(f.maxDepth)])
  }

  function FallbackOf(v: Value): FallbackPolicy {
    FallbackPolicy(FlagOf(At(v, 0)), MapFrom(TriggerFrom(), ItemsOf(At(v, 1))), MapFrom(NatFrom(), ItemsOf(At(v, 2))), FlagOf(At(v, 3)),
                   NumOf(At(v, 4)))
  }

  predicate FallbackFits(f: FallbackPolicy, limits: Limits) {
    |f.triggers| <= 8 && IdsFit(f.participants, limits.maxParticipantsPerEnsemble) && f.maxDepth <= U32_MAX
  }

  lemma FallbackEncodes(f: FallbackPolicy, limits: Limits)
    ensures FallbackOf(FallbackValue(f)) == f
    ensures Conforms(FallbackShape(limits), FallbackValue(f)) <==> FallbackFits(f, limits)
  {
    Widths();
    TriggersEncode(f.triggers);
    IdsEncode(f.participants, limits.maxParticipantsPerEnsemble);
  }

  lemma FallbackDecodes(v: Value, limits: Limits)
    requires Conforms(FallbackShape(limits), v)
    ensures FallbackValue(FallbackOf(v)) == v
  {
    TriggersDecode(ItemsOf(At(v, 1)));
    IdsDecode(ItemsOf(At(v, 2)));
  }

  function FlagsShape(): Shape { Record([Flag(), Flag(), Flag()]) }
  function FlagsValue(a: bool, b: bool, c: bool): Value { Tuple([FlagValue(a), FlagValue(b), FlagValue(c)]) }

  function RetryShape(): Shape { Record([U32(), Flag(), Flag(), Flag(), Flag(), Flag(), Flag()]) }

  function RetryValue(r: RetryPolicy): Value {
    Tuple([Num(r.maxAttempts), FlagValue(r.retryOnUnavailable), FlagValue(r.retryOnTransportError),
           FlagValue(r.retryOnMalformedCandidate), FlagValue(r.retryOnParticipantFailed), FlagValue(r.replaceParticipant),
           FlagValue(r.rerunEvaluations)])
  }

  function RetryOf(v: Value): RetryPolicy {
    RetryPolicy(NumOf(At(v, 0)), FlagOf(At(v, 1)), FlagOf(At(v, 2)), FlagOf(At(v, 3)), FlagOf(At(v, 4)), FlagOf(At(v, 5)),
                FlagOf(At(v, 6)))
  }

  function CompletionValue(c: CompletionPolicy): Value {
    FlagsValue(c.requireConsensus, c.requireAllRequiredParticipants, c.allowPartialResults)
  }

  function CompletionOf(v: Value): CompletionPolicy {
    CompletionPolicy(FlagOf(At(v, 0)), FlagOf(At(v, 1)), FlagOf(At(v, 2)))
  }

  function CancellationValue(k: CancellationPolicy): Value {
    FlagsValue(k.cancelOnRequiredFailure, k.cancelOnQuorumImpossible, k.preserveCommittedResults)
  }

  function CancellationOf(v: Value): CancellationPolicy {
    CancellationPolicy(FlagOf(At(v, 0)), FlagOf(At(v, 1)), FlagOf(At(v, 2)))
  }

  lemma RetryEncodes(r: RetryPolicy)
    ensures RetryOf(RetryValue(r)) == r
    ensures Conforms(RetryShape(), RetryValue(r)) <==> r.maxAttempts <= U32_MAX
  {
    Widths();
  }

  lemma RetryDecodes(v: Value)
    requires Conforms(RetryShape(), v)
    ensures RetryValue(RetryOf(v)) == v
  {
  }

  lemma FlagsEncode(c: CompletionPolicy, k: CancellationPolicy)
    ensures CompletionOf(CompletionValue(c)) == c && Conforms(FlagsShape(), CompletionValue(c))
    ensures CancellationOf(CancellationValue(k)) == k && Conforms(FlagsShape(), CancellationValue(k))
  {
    Widths();
  }

  lemma FlagsDecode(v: Value)
    requires Conforms(FlagsShape(), v)
    ensures CompletionValue(CompletionOf(v)) == v && CancellationValue(CancellationOf(v)) == v
  {
  }

  /** The criterion bound is computed in 32 bits. */
  function CriterionBound(limits: Limits): nat { (limits.maxRoleQuotaEntries * 4) % (U32_MAX + 1) }

  function EvidenceShape(limits: Limits): Shape {
    Record([Word(4, 0, limits.maxCandidatePayloadBytes, ResourceLimitExceeded), U32(), Flag(),
      Many(CriterionBound(limits), CriterionShape()), Flag(), Flag()])
  }

  function EvidenceValue(e: Evidence): Value {
    Tuple([Num(e.minCandidatePayloadBytes), Num(e.minEvaluationsPerCandidate), FlagValue(e.requireRationale),
      List(MapTo(CriterionTo(), e.mandatoryCriteria)), FlagValue(e.unknownVerificationIsFailure),
      FlagValue(e.abstentionIsFailure)])
  }

  function EvidenceOf(v: Value): Evidence {
    Evidence(NumOf(At(v, 0)), NumOf(At(v, 1)), FlagOf(At(v, 2)), MapFrom(CriterionFrom(), ItemsOf(At(v, 3))), FlagOf(At(v, 4)),
             FlagOf(At(v, 5)))
  }

  predicate EvidenceFits(e: Evidence, limits: Limits) {
    && e.minCandidatePayloadBytes <= limits.maxCandidatePayloadBytes && e.minCandidatePayloadBytes <= U32_MAX
    && e.minEvaluationsPerCandidate <= U32_MAX && CriteriaFit(e.mandatoryCriteria, CriterionBound(limits))
  }

  lemma EvidenceEncodes(e: Evidence, limits: Limits)
    ensures EvidenceOf(EvidenceValue(e)) == e
    ensures Conforms(EvidenceShape(limits), EvidenceValue(e)) <==> EvidenceFits(e, limits)
  {
    Widths();
    CriteriaEncode(e.mandatoryCriteria, CriterionBound(limits));
  }

  lemma EvidenceDecodes(v: Value, limits: Limits)
    requires Conforms(EvidenceShape(limits), v)
    ensures EvidenceValue(EvidenceOf(v)) == v
  {
    CriteriaDecode(ItemsOf(At(v, 3)));
  }

  // ---- The specification -------------------------------------------------------------------------------------------------

  /** Reserved word, identity, generation, names, task class, fingerprint. */
  function HeadShape(limits: Limits): Shape {
    Record([Word(4, 0, 0, UnsupportedVersion), U64(), U64(), Blob(limits.maxLabelBytes), Blob(limits.maxMetadataBytes), U32(),
      U64()])
  }

  function HeadValue(s: WireSpec): Value {
    Tuple([Num(0), Num(s.id), Num(s.generation), Raw(s.name), Raw(s.taskClass), Num(s.taskClassId), Num(s.fingerprint)])
  }

  function MembersShape(limits: Limits): Shape {
    Record([Many(limits.maxParticipantsPerEnsemble, ParticipantShape(limits)),
      Many(limits.maxStagesPerEnsemble, StageShape(limits))])
  }

  function MembersValue(s: WireSpec): Value {
    Tuple([List(MapTo(ParticipantTo(), s.participants)), List(MapTo(StageTo(), s.stages))])
  }

  function DecisionShape(limits: Limits): Shape {
    Record([QuorumShape(limits), AggregationShape(), ArbitrationShape(), FallbackShape(limits)])
  }

  function DecisionValue(s: WireSpec): Value {
    Tuple([QuorumValue(s.quorum), AggregationValue(s.aggregation), ArbitrationValue(s.arbitration), FallbackValue(s.fallback)])
  }

  function ConductShape(limits: Limits): Shape {
    Record([FlagsShape(), RetryShape(), FlagsShape(), EvidenceShape(limits)])
  }

  function ConductValue(s: WireSpec): Value {
    Tuple([CompletionValue(s.completion), RetryValue(s.retry), CancellationValue(s.cancellation), EvidenceValue(s.evidence)])
  }

  function TailShape(): Shape {
    Record([Many(16, CriterionShape()), RequirementShape(), U32(), U64()])
  }

  function TailValue(s: WireSpec): Value {
    Tuple([List(MapTo(CriterionTo(), s.judgingCriteria)), RequirementValue(s.requirements), Num(s.overallBudgetUnits),
      Num(s.deterministicSeed)])
  }

  function SpecShape(limits: Limits): Shape {
    Record([HeadShape(limits), MembersShape(limits), DecisionShape(limits), ConductShape(limits), TailShape()])
  }

  function SpecValue(s: WireSpec): Value {
    Tuple([HeadValue(s), MembersValue(s), DecisionValue(s), ConductValue(s), TailValue(s)])
  }

  function Assemble(h: Value, m: Value, d: Value, c: Value, t: Value): WireSpec {
    EnsembleSpec(
      NumOf(At(h, 1)), NumOf(At(h, 2)), RawOf(At(h, 3)), RawOf(At(h, 4)), NumOf(At(h, 5)),
      MapFrom(ParticipantFrom(), ItemsOf(At(m, 0))), MapFrom(StageFrom(), ItemsOf(At(m, 1))),
      QuorumOf(At(d, 0)), AggregationPolicyOf(At(d, 1)), ArbitrationOf(At(d, 2)), FallbackOf(At(d, 3)),
      CompletionOf(At(c, 0)), RetryOf(At(c, 1)), CancellationOf(At(c, 2)), EvidenceOf(At(c, 3)),
      MapFrom(CriterionFrom(), ItemsOf(At(t, 0))), RequirementOf(At(t, 1)), NumOf(At(t, 2)), NumOf(At(t, 3)), NumOf(At(h, 6)))
  }

  function SpecOf(v: Value): WireSpec {
    Assemble(At(v, 0), At(v, 1), At(v, 2), At(v, 3), At(v, 4))
  }

  /** What the format can hold: machine widths, and the counts and lengths the decoder admits. */
  predicate Fits(s: WireSpec, limits: Limits) {
    && s.id <= U64_MAX && s.generation <= U64_MAX && TextFits(s.name, limits.maxLabelBytes)
    && TextFits(s.taskClass, limits.maxMetadataBytes) && s.taskClassId <= U32_MAX && s.fingerprint <= U64_MAX
    && ParticipantsFit(s.participants, limits) && StagesFit(s.stages, limits)
    && QuorumFits(s.quorum, limits) && AggregationFits(s.aggregation) && ArbitrationFits(s.arbitration)
    && FallbackFits(s.fallback, limits) && s.retry.maxAttempts <= U32_MAX && EvidenceFits(s.evidence, limits)
    && CriteriaFit(s.judgingCriteria, 16) && RequirementFits(s.requirements)
    && s.overallBudgetUnits <= U32_MAX && s.deterministicSeed <= U64_MAX
  }

  lemma HeadConforms(s: WireSpec, limits: Limits)
    ensures Conforms(HeadShape(limits), HeadValue(s)) <==>
              && s.id <= U64_MAX && s.generation <= U64_MAX && TextFits(s.name, limits.maxLabelBytes)
              && TextFits(s.taskClass, limits.maxMetadataBytes) && s.taskClassId <= U32_MAX && s.fingerprint <= U64_MAX
  {
    Widths();
    var v := HeadValue(s).values;
    assert v[1] == Num(s.id) && v[2] == Num(s.generation) && v[3] == Raw(s.name) && v[4] == Raw(s.taskClass);
    assert v[5] == Num(s.taskClassId) && v[6] == Num(s.fingerprint);
  }

  lemma MembersConform(s: WireSpec, limits: Limits)
    ensures Conforms(MembersShape(limits), MembersValue(s)) <==> ParticipantsFit(s.participants, limits) && StagesFit(s.stages, limits)
  {
    ParticipantsEncode(s.participants, limits);
    StagesEncode(s.stages, limits);
    var v := MembersValue(s).values;
    assert v[0] == List(MapTo(ParticipantTo(), s.participants)) && v[1] == List(MapTo(StageTo(), s.stages));
  }

  lemma DecisionConforms(s: WireSpec, limits: Limits)
    ensures Conforms(DecisionShape(limits), DecisionValue(s)) <==>
              QuorumFits(s.quorum, limits) && AggregationFits(s.aggregation) && ArbitrationFits(s.arbitration) && FallbackFits(s.fallback, limits)
  {
    QuorumEncodes(s.quorum, limits);
    AggregationEncodes(s.aggregation);
    ArbitrationEncodes(s.arbitration);
    FallbackEncodes(s.fallback, limits);
    RecordOfFour(DecisionShape(limits), DecisionValue(s));
  }

  lemma ConductConforms(s: WireSpec, limits: Limits)
    ensures Conforms(ConductShape(limits), ConductValue(s)) <==> s.retry.maxAttempts <= U32_MAX && EvidenceFits(s.evidence, limits)
  {
    FlagsEncode(s.completion, s.cancellation);
    RetryEncodes(s.retry);
    EvidenceEncodes(s.evidence, limits);
    RecordOfFour(ConductShape(limits), ConductValue(s));
  }

  lemma RecordOfFour(shape: Shape, v: Value)
    requires shape.Record? && |shape.fields| == 4 && v.Tuple? && |v.values| == 4
    ensures Conforms(shape, v) <==>
              && Conforms(shape.fields[0], v.values[0]) && Conforms(shape.fields[1], v.values[1])
              && Conforms(shape.fields[2], v.values[2]) && Conforms(shape.fields[3], v.values[3])
  {
  }

  lemma TailConforms(s: WireSpec)
    ensures Conforms(TailShape(), TailValue(s)) <==>
              && CriteriaFit(s.judgingCriteria, 16) && RequirementFits(s.requirements)
              && s.overallBudgetUnits <= U32_MAX && s.deterministicSeed <= U64_MAX
  {
    Widths();
    CriteriaEncode(s.judgingCriteria, 16);
    RequirementEncodes(s.requirements);
    var v := TailValue(s).values;
    assert v[0] == List(MapTo(CriterionTo(), s.judgingCriteria)) && v[1] == RequirementValue(s.requirements);
    assert v[2] == Num(s.overallBudgetUnits) && v[3] == Num(s.deterministicSeed);
  }

  /** A specification's value conforms exactly when the specification fits. */
  lemma SpecConforms(s: WireSpec, limits: Limits)
    ensures Conforms(SpecShape(limits), SpecValue(s)) <==> Fits(s, limits)
  {
    HeadConforms(s, limits);
    MembersConform(s, limits);
    DecisionConforms(s, limits);
    ConductConforms(s, limits);
    TailConforms(s);
    RecordOfFive(SpecShape(limits), SpecValue(s));
  }

  lemma RecordOfFive(shape: Shape, v: Value)
    requires shape.Record? && |shape.fields| == 5 && v.Tuple? && |v.values| == 5
    ensures Conforms(shape, v) <==>
              && Conforms(shape.fields[0], v.values[0]) && Conforms(shape.fields[1], v.values[1])
              && Conforms(shape.fields[2], v.values[2]) && Conforms(shape.fields[3], v.values[3])
              && Conforms(shape.fields[4], v.values[4])
  {
  }

  lemma MembersRead(s: WireSpec, m: Value, limits: Limits)
    requires m == MembersValue(s)
    ensures MapFrom(ParticipantFrom(), ItemsOf(At(m, 0))) == s.participants && MapFrom(StageFrom(), ItemsOf(At(m, 1))) == s.stages
  {
    ParticipantsEncode(s.participants, limits);
    StagesEncode(s.stages, limits);
  }

  lemma DecisionRead(s: WireSpec, d: Value, limits: Limits)
    requires d == DecisionValue(s)
    ensures QuorumOf(At(d, 0)) == s.quorum && AggregationPolicyOf(At(d, 1)) == s.aggregation
    ensures ArbitrationOf(At(d, 2)) == s.arbitration && FallbackOf(At(d, 3)) == s.fallback
  {
    QuorumEncodes(s.quorum, limits);
    AggregationEncodes(s.aggregation);
    ArbitrationEncodes(s.arbitration);
    FallbackEncodes(s.fallback, limits);
  }

  lemma ConductRead(s: WireSpec, c: Value, limits: Limits)
    requires c == ConductValue(s)
    ensures CompletionOf(At(c, 0)) == s.completion && RetryOf(At(c, 1)) == s.retry
    ensures CancellationOf(At(c, 2)) == s.cancellation && EvidenceOf(At(c, 3)) == s.evidence
  {
    FlagsEncode(s.completion, s.cancellation);
    RetryEncodes(s.retry);
    EvidenceEncodes(s.evidence, limits);
  }

  lemma TailRead(s: WireSpec, t: Value)
    requires t == TailValue(s)
    ensures MapFrom(CriterionFrom(), ItemsOf(At(t, 0))) == s.judgingCriteria && RequirementOf(At(t, 1)) == s.requirements
    ensures NumOf(At(t, 2)) == s.overallBudgetUnits && NumOf(At(t, 3)) == s.deterministicSeed
  {
    CriteriaEncode(s.judgingCriteria, 16);
    RequirementEncodes(s.requirements);
  }

  lemma HeadRead(s: WireSpec, h: Value)
    requires h == HeadValue(s)
    ensures NumOf(At(h, 1)) == s.id && NumOf(At(h, 2)) == s.generation && RawOf(At(h, 3)) == s.name && RawOf(At(h, 4)) == s.taskClass
    ensures NumOf(At(h, 5)) == s.taskClassId && NumOf(At(h, 6)) == s.fingerprint
  {
  }

  lemma AssembleReads(s: WireSpec, h: Value, m: Value, d: Value, c: Value, t: Value, limits: Limits)
    requires h == HeadValue(s) && m == MembersValue(s) && d == DecisionValue(s) && c == ConductValue(s) && t == TailValue(s)
    ensures Assemble(h, m, d, c, t) == s
  {
    HeadRead(s, h);
    MembersRead(s, m, limits);
    DecisionRead(s, d, limits);
    ConductRead(s, c, limits);
    TailRead(s, t);
  }

  lemma SpecParts(s: WireSpec)
    ensures var v := SpecValue(s);
            At(v, 0) == HeadValue(s) && At(v, 1) == MembersValue(s) && At(v, 2) == DecisionValue(s) && At(v, 3) == ConductValue(s)
            && At(v, 4) == TailValue(s)
  {
  }

  lemma SpecRebuilds(s: WireSpec, limits: Limits)
    ensures SpecOf(SpecValue(s)) == s
  {
    SpecParts(s);
    AssembleReads(s, HeadValue(s), MembersValue(s), DecisionValue(s), ConductValue(s), TailValue(s), limits);
  }

  lemma HeadRebuilds(h: Value, m: Value, d: Value, c: Value, t: Value, limits: Limits)
    requires Conforms(HeadShape(limits), h)
    ensures HeadValue(Assemble(h, m, d, c, t)) == h
  {
  }

  lemma MembersRebuild(h: Value, m: Value, d: Value, c: Value, t: Value, limits: Limits)
    requires Conforms(MembersShape(limits), m)
    ensures MembersValue(Assemble(h, m, d, c, t)) == m
  {
    ParticipantsDecode(ItemsOf(At(m, 0)), limits);
    StagesDecode(ItemsOf(At(m, 1)), limits);
  }

  lemma DecisionValueIs(s: WireSpec, d: Value)
    requires d.Tuple? && |d.values| == 4
    requires QuorumValue(s.quorum) == d.values[0] && AggregationValue(s.aggregation) == d.values[1]
    requires ArbitrationValue(s.arbitration) == d.values[2] && FallbackValue(s.fallback) == d.values[3]
    ensures DecisionValue(s) == d
  {
    assert d.values == [d.values[0], d.values[1], d.values[2], d.values[3]];
  }

  lemma DecisionParts(q: Value, a: Value, r: Value, f: Value, limits: Limits)
    requires Conforms(QuorumShape(limits), q) && Conforms(AggregationShape(), a) && Conforms(ArbitrationShape(), r)
    requires Conforms(FallbackShape(limits), f)
    ensures QuorumValue(QuorumOf(q)) == q && AggregationValue(AggregationPolicyOf(a)) == a
    ensures ArbitrationValue(ArbitrationOf(r)) == r && FallbackValue(FallbackOf(f)) == f
  {
    QuorumDecodes(q, limits);
    AggregationDecodes(a);
    ArbitrationDecodes(r);
    FallbackDecodes(f, limits);
  }

  lemma DecisionRebuilds(h: Value, m: Value, d: Value, c: Value, t: Value, limits: Limits)
    requires Conforms(DecisionShape(limits), d)
    ensures DecisionValue(Assemble(h, m, d, c, t)) == d
  {
    RecordOfFour(DecisionShape(limits), d);
    DecisionParts(d.values[0], d.values[1], d.values[2], d.values[3], limits);
    DecisionValueIs(Assemble(h, m, d, c, t), d);
  }

  lemma ConductValueIs(s: WireSpec, c: Value)
    requires c.Tuple? && |c.values| == 4
    requires CompletionValue(s.completion) == c.values[0] && RetryValue(s.retry) == c.values[1]
    requires CancellationValue(s.cancellation) == c.values[2] && EvidenceValue(s.evidence) == c.values[3]
    ensures ConductValue(s) == c
  {
    assert c.values == [c.values[0], c.values[1], c.values[2], c.values[3]];
  }

  lemma ConductParts(f: Value, r: Value, k: Value, e: Value, limits: Limits)
    requires Conforms(FlagsShape(), f) && Conforms(RetryShape(), r) && Conforms(FlagsShape(), k) && Conforms(EvidenceShape(limits), e)
    ensures CompletionValue(CompletionOf(f)) == f && RetryValue(RetryOf(r)) == r
    ensures CancellationValue(CancellationOf(k)) == k && EvidenceValue(EvidenceOf(e)) == e
  {
    FlagsDecode(f);
    RetryDecodes(r);
    FlagsDecode(k);
    EvidenceDecodes(e, limits);
  }

  lemma ConductRebuilds(h: Value, m: Value, d: Value, c: Value, t: Value, limits: Limits)
    requires Conforms(ConductShape(limits), c)
    ensures ConductValue(Assemble(h, m, d, c, t)) == c
  {
    RecordOfFour(ConductShape(limits), c);
    ConductParts(c.values[0], c.values[1], c.values[2], c.values[3], limits);
    ConductValueIs(Assemble(h, m, d, c, t), c);
  }

  lemma TailRebuilds(h: Value, m: Value, d: Value, c: Value, t: Value)
    requires Conforms(TailShape(), t)
    ensures TailValue(Assemble(h, m, d, c, t)) == t
  {
    RecordOfFour(TailShape(), t);
    CriteriaDecode(ItemsOf(t.values[0]));
    RequirementDecodes(t.values[1]);
    TailValueIs(Assemble(h, m, d, c, t), t);
  }

  lemma TailValueIs(s: WireSpec, t: Value)
    requires t.Tuple? && |t.values| == 4
    requires List(MapTo(CriterionTo(), s.judgingCriteria)) == t.values[0] && RequirementValue(s.requirements) == t.values[1]
    requires Num(s.overallBudgetUnits) == t.values[2] && Num(s.deterministicSeed) == t.values[3]
    ensures TailValue(s) == t
  {
    assert t.values == [t.values[0], t.values[1], t.values[2], t.values[3]];
  }

  lemma PartsConform(v: Value, limits: Limits)
    requires Conforms(SpecShape(limits), v)
    ensures Conforms(HeadShape(limits), At(v, 0)) && Conforms(MembersShape(limits), At(v, 1)) && Conforms(DecisionShape(limits), At(v, 2))
    ensures Conforms(ConductShape(limits), At(v, 3)) && Conforms(TailShape(), At(v, 4))
    ensures v == Tuple([At(v, 0), At(v, 1), At(v, 2), At(v, 3), At(v, 4)])
  {
    RecordOfFive(SpecShape(limits), v);
    assert v.values == [v.values[0], v.values[1], v.values[2], v.values[3], v.values[4]];
  }

  lemma ValueRebuilds(v: Value, limits: Limits)
    requires Conforms(SpecShape(limits), v)
    ensures SpecValue(SpecOf(v)) == v
  {
    PartsConform(v, limits);
    PartsRebuild(At(v, 0), At(v, 1), At(v, 2), At(v, 3), At(v, 4), limits);
  }

  lemma PartsRebuild(h: Value, m: Value, d: Value, c: Value, t: Value, limits: Limits)
    requires Conforms(HeadShape(limits), h) && Conforms(MembersShape(limits), m) && Conforms(DecisionShape(limits), d)
    requires Conforms(ConductShape(limits), c) && Conforms(TailShape(), t)
    ensures SpecValue(Assemble(h, m, d, c, t)) == Tuple([h, m, d, c, t])
  {
    HeadRebuilds(h, m, d, c, t, limits);
    MembersRebuild(h, m, d, c, t, limits);
    DecisionRebuilds(h, m, d, c, t, limits);
    ConductRebuilds(h, m, d, c, t, limits);
    TailRebuilds(h, m, d, c, t);
  }

  // ---- Encoding and decoding -----------------------------------------------------------------------------------------------

  function EncodeSpec(s: WireSpec, limits: Limits): seq<byte> {
    Print(SpecShape(limits), SpecValue(s))
  }

  /** Parse, refuse trailing bytes, validate. */
  function DecodeSpec(data: seq<byte>, limits: Limits): Outcome<WireSpec> {
    match ParseAll(SpecShape(limits), data)
    case Err(error) => Err(error)
    case Ok(v) =>
      match SpecFault(SpecOf(v), limits)
      case Some(error) => Err(error)
      case None => Ok(SpecOf(v))
  }

  /**
   The specification codec is a bijection between the valid specifications the format can hold and
   the byte strings the decoder accepts: `data` decodes to `s` exactly when `s` is valid, fits, and
   encodes to `data`.
   */
  lemma DecodesExactlyWhen(data: seq<byte>, s: WireSpec, limits: Limits)
    ensures DecodeSpec(data, limits) == Ok(s) <==> SpecFault(s, limits).None? && Fits(s, limits) && data == EncodeSpec(s, limits)
  {
    var shape := SpecShape(limits);
    if DecodeSpec(data, limits) == Ok(s) {
      var v := ParseAll(shape, data).value;
      ParseAllExactlyWhen(shape, data, v);
      ValueRebuilds(v, limits);
      SpecConforms(s, limits);
    }
    if SpecFault(s, limits).None? && Fits(s, limits) && data == EncodeSpec(s, limits) {
      SpecConforms(s, limits);
      ParseAllExactlyWhen(shape, data, SpecValue(s));
      SpecRebuilds(s, limits);
    }
  }

  /** Decoding an encoded specification gives it back. */
  lemma DecodeOfEncodeSpec(s: WireSpec, limits: Limits)
    requires SpecFault(s, limits).None? && Fits(s, limits)
    ensures DecodeSpec(EncodeSpec(s, limits), limits) == Ok(s)
  {
    DecodesExactlyWhen(EncodeSpec(s, limits), s, limits);
  }

  /** Every accepted byte string re-encodes to itself. */
  lemma EncodeOfDecodeSpec(data: seq<byte>, limits: Limits)
    requires DecodeSpec(data, limits).Ok?
    ensures EncodeSpec(DecodeSpec(data, limits).value, limits) == data
  {
    DecodesExactlyWhen(data, DecodeSpec(data, limits).value, limits);
  }

  // ---- The codec through the streams --------------------------------------------------------------------------------------

  method WriteSpec(s: WireSpec, limits: Limits) returns (data: seq<byte>)
    requires Fits(s, limits)
    ensures data == Written([], limits.maxPersistenceBytes, SpecShape(limits), SpecValue(s))
    ensures |EncodeSpec(s, limits)| <= limits.maxPersistenceBytes ==> data == EncodeSpec(s, limits)
  {
    SpecConforms(s, limits);
    if |EncodeSpec(s, limits)| <= limits.maxPersistenceBytes {
      WritingPrints([], limits.maxPersistenceBytes, SpecShape(limits), SpecValue(s));
      assert [] + EncodeSpec(s, limits) == EncodeSpec(s, limits);
    }
    var out := new Encoder(limits.maxPersistenceBytes);
    Write(out, SpecShape(limits), SpecValue(s));
    data := out.buffer;
  }

  method ReadSpec(data: seq<byte>, limits: Limits) returns (r: Outcome<WireSpec>)
    ensures r == DecodeSpec(data, limits)
  {
    var v := ReadAll(data, SpecShape(limits));
    if v.Err? {
      return Err(v.error);
    }
    var s := SpecOf(v.value);
    var fault := SpecFault(s, limits);
    if fault.Some? {
      return Err(fault.value);
    }
    r := Ok(s);
  }
}
