/** Authority envelopes and the relation between two of them (lattice.rs). */
module Lattice {
  import opened Bytes
  import opened Wrappers

  datatype SubsetRelation = Equal | Narrower | Wider | Incomparable

  function FromFlags(equal: bool, selfSubset: bool, legacySubset: bool): SubsetRelation {
    if equal then Equal else if selfSubset then Narrower else if legacySubset then Wider else Incomparable
  }

  /** The relation of two totally ordered values, the smaller one being the narrower. */
  function Compared(current: int, previous: int): SubsetRelation {
    if current == previous then Equal else if current < previous then Narrower else Wider
  }

  predicate Within(r: SubsetRelation) { r == Equal || r == Narrower }

  function Flip(r: SubsetRelation): SubsetRelation {
    match r
    case Equal => Equal
    case Narrower => Wider
    case Wider => Narrower
    case Incomparable => Incomparable
  }

  datatype DecisionOutcome = Deny | RequireApproval | Allow | Error | Unknown | Unsupported

  function AuthorityRank(o: DecisionOutcome): int {
    match o
    case Allow => 2
    case RequireApproval => 1
    case _ => 0
  }

  function OutcomeRelation(a: DecisionOutcome, b: DecisionOutcome): SubsetRelation {
    Compared(AuthorityRank(a), AuthorityRank(b))
  }

  datatype ResourceScope =
    | AllResources
    | ExplicitSet(resources: set<RegisteredId>)
    | Hierarchy(segments: seq<RegisteredId>)

  function ResourceRelation(a: ResourceScope, b: ResourceScope): SubsetRelation {
    match (a, b)
    case (AllResources, AllResources) => Equal
    case (AllResources, _) => Wider
    case (_, AllResources) => Narrower
    case (ExplicitSet(x), ExplicitSet(y)) => FromFlags(x == y, x <= y, y <= x)
    case (Hierarchy(x), Hierarchy(y)) => FromFlags(x == y, y <= x, x <= y)
    case _ => Incomparable
  }

  function EffectRelation(a: set<RegisteredId>, b: set<RegisteredId>): SubsetRelation {
    FromFlags(a == b, a <= b, b <= a)
  }

  datatype TimeWindow = TimeWindow(starts: Option<i64>, ends: Option<i64>)

  predicate ValidWindow(w: TimeWindow) {
    w.starts.Some? && w.ends.Some? ==> w.starts.value <= w.ends.value
  }

  predicate LowerIsNarrower(current: Option<i64>, previous: Option<i64>) {
    previous.None? || (current.Some? && current.value >= previous.value)
  }

  predicate UpperIsNarrower(current: Option<i64>, previous: Option<i64>) {
    previous.None? || (current.Some? && current.value <= previous.value)
  }

  function WindowRelation(a: TimeWindow, b: TimeWindow): SubsetRelation {
    if !ValidWindow(a) || !ValidWindow(b) then Incomparable
    else FromFlags(a == b,
                   LowerIsNarrower(a.starts, b.starts) && UpperIsNarrower(a.ends, b.ends),
                   LowerIsNarrower(b.starts, a.starts) && UpperIsNarrower(b.ends, a.ends))
  }

  function OptionalMaxRelation(a: Option<nat>, b: Option<nat>): SubsetRelation {
    match (a, b)
    case (None, None) => Equal
    case (Some(_), None) => Narrower
    case (None, Some(_)) => Wider
    case (Some(x), Some(y)) => Compared(x, y)
  }

  datatype DelegationBound = DelegationBound(allowed: bool, maxDepth: nat)

  function DelegationRelation(a: DelegationBound, b: DelegationBound): SubsetRelation {
    match (a.allowed, b.allowed)
    case (false, false) => Equal
    case (false, true) => Narrower
    case (true, false) => Wider
    case (true, true) => Compared(a.maxDepth, b.maxDepth)
  }

  datatype FinancialBoundKind = MaximumDebit | MaximumCredit | MaximumAbsoluteTransfer | MinimumRequiredCredit

  datatype FinancialBound = FinancialBound(
    assetId: RegisteredId, registryVersion: u32, kind: FinancialBoundKind, minorUnits: nat)

  function FinancialBoundRelation(a: FinancialBound, b: FinancialBound): SubsetRelation {
    if a.assetId != b.assetId || a.registryVersion != b.registryVersion || a.kind != b.kind then Incomparable
    else if a.kind.MinimumRequiredCredit? then Compared(b.minorUnits, a.minorUnits)
    else Compared(a.minorUnits, b.minorUnits)
  }

  function FinancialRelation(a: Option<FinancialBound>, b: Option<FinancialBound>): SubsetRelation {
    match (a, b)
    case (None, None) => Equal
    case (Some(_), None) => Narrower
    case (None, Some(_)) => Wider
    case (Some(x), Some(y)) => FinancialBoundRelation(x, y)
  }

  datatype ApprovalRequirement =
    | NoApproval
    | OneAuthorizedApprover
    | MultiParty(quorum: nat)
    | RegisteredPolicy(policyHash: SemanticDigest)

  function ApprovalRelation(a: ApprovalRequirement, b: ApprovalRequirement): SubsetRelation {
    match (a, b)
    case (NoApproval, NoApproval) => Equal
    case (NoApproval, _) => Wider
    case (_, NoApproval) => Narrower
    case (OneAuthorizedApprover, OneAuthorizedApprover) => Equal
    case (OneAuthorizedApprover, MultiParty(_)) => Wider
    case (MultiParty(_), OneAuthorizedApprover) => Narrower
    case (MultiParty(x), MultiParty(y)) => Compared(y, x)
    case (RegisteredPolicy(x), RegisteredPolicy(y)) => if x == y then Equal else Incomparable
    case _ => Incomparable
  }

  function EvidenceRelation(a: set<RegisteredId>, b: set<RegisteredId>): SubsetRelation {
    FromFlags(a == b, b <= a, a <= b)
  }

  datatype RiskTier = Low | Moderate | High | Critical

  function RiskRank(t: RiskTier): int {
    match t
    case Low => 0
    case Moderate => 1
    case High => 2
    case Critical => 3
  }

  datatype OfflineRestriction = OfflineRestriction(readAllowed: bool, deferredEffectAllowed: bool)

  function OfflineRelation(a: OfflineRestriction, b: OfflineRestriction): SubsetRelation {
    FromFlags(a == b,
              (a.readAllowed ==> b.readAllowed) && (a.deferredEffectAllowed ==> b.deferredEffectAllowed),
              (b.readAllowed ==> a.readAllowed) && (b.deferredEffectAllowed ==> a.deferredEffectAllowed))
  }

  datatype AuthorityEnvelope = AuthorityEnvelope(
    outcome: DecisionOutcome,
    resourceScope: ResourceScope,
    effectScope: set<RegisteredId>,
    timeWindow: TimeWindow,
    usageBound: Option<nat>,
    delegationBound: DelegationBound,
    financialBound: Option<FinancialBound>,
    approvalRequirement: ApprovalRequirement,
    evidenceRequirements: set<RegisteredId>,
    riskTierCeiling: RiskTier,
    offlineRestriction: OfflineRestriction)

  /** The eleven named dimensions, in the order of their names. */
  datatype Dimension =
    | DimApproval | DimDelegation | DimEffect | DimEvidence | DimFinancial | DimOffline
    | DimOutcome | DimResource | DimRisk | DimTime | DimUsage

  const DIMENSIONS: seq<Dimension> := [
    DimApproval, DimDelegation, DimEffect, DimEvidence, DimFinancial, DimOffline,
    DimOutcome, DimResource, DimRisk, DimTime, DimUsage]

  function Relation(d: Dimension, a: AuthorityEnvelope, b: AuthorityEnvelope): SubsetRelation {
    match d
    case DimApproval => ApprovalRelation(a.approvalRequirement, b.approvalRequirement)
    case DimDelegation => DelegationRelation(a.delegationBound, b.delegationBound)
    case DimEffect => EffectRelation(a.effectScope, b.effectScope)
    case DimEvidence => EvidenceRelation(a.evidenceRequirements, b.evidenceRequirements)
    case DimFinancial => FinancialRelation(a.financialBound, b.financialBound)
    case DimOffline => OfflineRelation(a.offlineRestriction, b.offlineRestriction)
    case DimOutcome => OutcomeRelation(a.outcome, b.outcome)
    case DimResource => ResourceRelation(a.resourceScope, b.resourceScope)
    case DimRisk => Compared(RiskRank(a.riskTierCeiling), RiskRank(b.riskTierCeiling))
    case DimTime => WindowRelation(a.timeWindow, b.timeWindow)
    case DimUsage => OptionalMaxRelation(a.usageBound, b.usageBound)
  }

  /** `compare_for_shadow_cutover`: the relation in every dimension. */
  type ShadowComparison = map<Dimension, SubsetRelation>

  function Compare(a: AuthorityEnvelope, b: AuthorityEnvelope): (r: ShadowComparison)
    ensures forall d: Dimension :: d in r && r[d] == Relation(d, a, b)
  {
    map d: Dimension | true :: Relation(d, a, b)
  }

  predicate CutoverSafe(c: ShadowComparison) {
    forall d | d in c :: Within(c[d])
  }

  /** `blocking_dimensions`, listed in the order of `names`. */
  function Blocking(c: ShadowComparison, names: seq<Dimension>): (r: seq<Dimension>)
    requires forall d :: d in names ==> d in c
  {
    if names == [] then []
    else (if Within(c[names[0]]) then [] else [names[0]]) + Blocking(c, names[1..])
  }

  /** Exactly the dimensions that are not within are listed, so a comparison is safe
      iff nothing blocks it. */
  lemma {:induction false} BlockingExact(c: ShadowComparison, names: seq<Dimension>)
    requires forall d :: d in names ==> d in c
    ensures forall d :: d in Blocking(c, names) <==> d in names && !Within(c[d])
  {
    if names != [] {
      BlockingExact(c, names[1..]);
      assert names == [names[0]] + names[1..];
    }
  }

  lemma SafeIffNothingBlocks(a: AuthorityEnvelope, b: AuthorityEnvelope)
    ensures CutoverSafe(Compare(a, b)) <==> Blocking(Compare(a, b), DIMENSIONS) == []
  {
    var c := Compare(a, b);
    var blocking := Blocking(c, DIMENSIONS);
    BlockingExact(c, DIMENSIONS);
    if blocking != [] {
      assert blocking[0] in blocking;
    }
    assert DIMENSIONS[0] in DIMENSIONS;
    forall d | d in c && blocking == [] ensures Within(c[d]) {
      EveryDimension(d);
      assert d !in blocking;
    }
  }

  lemma EveryDimension(d: Dimension)
    ensures d in DIMENSIONS
  {
    match d
    case DimApproval => assert DIMENSIONS[0] == d;
    case DimDelegation => assert DIMENSIONS[1] == d;
    case DimEffect => assert DIMENSIONS[2] == d;
    case DimEvidence => assert DIMENSIONS[3] == d;
    case DimFinancial => assert DIMENSIONS[4] == d;
    case DimOffline => assert DIMENSIONS[5] == d;
    case DimOutcome => assert DIMENSIONS[6] == d;
    case DimResource => assert DIMENSIONS[7] == d;
    case DimRisk => assert DIMENSIONS[8] == d;
    case DimTime => assert DIMENSIONS[9] == d;
    case DimUsage => assert DIMENSIONS[10] == d;
  }

  // ----- the relation is an order

  /** Comparing the other way round turns narrower into wider and keeps the rest. */
  lemma RelationDual(d: Dimension, a: AuthorityEnvelope, b: AuthorityEnvelope)
    ensures Relation(d, b, a) == Flip(Relation(d, a, b))
  {
    if d == DimResource && a.resourceScope.Hierarchy? && b.resourceScope.Hierarchy? {
      PrefixAntisymmetric(a.resourceScope.segments, b.resourceScope.segments);
    }
  }

  lemma PrefixAntisymmetric<T>(a: seq<T>, b: seq<T>)
    ensures a <= b && b <= a ==> a == b
  {
  }

  lemma RelationTransitive(d: Dimension, a: AuthorityEnvelope, b: AuthorityEnvelope, c: AuthorityEnvelope)
    requires Within(Relation(d, a, b)) && Within(Relation(d, b, c))
    ensures Within(Relation(d, a, c))
  {
  }

  /** A chain of safe cutovers is safe end to end. */
  lemma SafeCutoversCompose(a: AuthorityEnvelope, b: AuthorityEnvelope, c: AuthorityEnvelope)
    requires CutoverSafe(Compare(a, b)) && CutoverSafe(Compare(b, c))
    ensures CutoverSafe(Compare(a, c))
  {
    hide Relation, Compare;
    forall d: Dimension ensures Within(Relation(d, a, c)) {
      assert Within(Compare(a, b)[d]) && Within(Compare(b, c)[d]);
      RelationTransitive(d, a, b, c);
    }
  }

  /** An envelope may replace itself iff its time window is valid. */
  lemma SelfCutover(a: AuthorityEnvelope)
    ensures CutoverSafe(Compare(a, a)) <==> ValidWindow(a.timeWindow)
  {
    hide Compare;
    var c := Compare(a, a);
    assert c[DimTime] == WindowRelation(a.timeWindow, a.timeWindow);
    forall d: Dimension | ValidWindow(a.timeWindow) ensures Within(Relation(d, a, a)) {
    }
  }

  /** Safe both ways means equal in every dimension. */
  lemma SafeBothWays(a: AuthorityEnvelope, b: AuthorityEnvelope)
    ensures CutoverSafe(Compare(a, b)) && CutoverSafe(Compare(b, a)) <==>
            forall d: Dimension :: Relation(d, a, b) == Equal
  {
    hide Relation, Compare;
    forall d: Dimension ensures Relation(d, b, a) == Flip(Relation(d, a, b)) {
      RelationDual(d, a, b);
    }
    assert CutoverSafe(Compare(a, b)) <==> forall d: Dimension :: Within(Relation(d, a, b)) by {
      var c := Compare(a, b);
      assert forall d: Dimension :: d in c && c[d] == Relation(d, a, b);
    }
    assert CutoverSafe(Compare(b, a)) <==> forall d: Dimension :: Within(Relation(d, b, a)) by {
      var c := Compare(b, a);
      assert forall d: Dimension :: d in c && c[d] == Relation(d, b, a);
    }
  }

  // ----- what a narrower envelope permits

  datatype Target = Resource(id: RegisteredId) | Path(segments: seq<RegisteredId>)
  datatype Amount = Amount(assetId: RegisteredId, registryVersion: u32, kind: FinancialBoundKind, minorUnits: nat)

  /** One use of authority, as the bounds of an envelope see it. */
  datatype Use = Use(
    target: Target, effect: RegisteredId, at: int, count: nat, delegationDepth: nat,
    amounts: set<Amount>, evidence: set<RegisteredId>, risk: RiskTier, offlineRead: bool, deferred: bool)

  predicate InWindow(w: TimeWindow, at: int) {
    && (w.starts.Some? ==> w.starts.value <= at)
    && (w.ends.Some? ==> at <= w.ends.value)
  }

  predicate InScope(s: ResourceScope, t: Target) {
    match s
    case AllResources => true
    case ExplicitSet(rs) => t.Resource? && t.id in rs
    case Hierarchy(segments) => t.Path? && segments <= t.segments
  }

  /** Amounts stay on the right side of the bound; a minimum must be met by some amount. */
  predicate WithinFinancial(b: Option<FinancialBound>, amounts: set<Amount>) {
    match b
    case None => true
    case Some(x) =>
      var same := (m: Amount) => m.assetId == x.assetId && m.registryVersion == x.registryVersion && m.kind == x.kind;
      if x.kind.MinimumRequiredCredit? then exists m | m in amounts :: same(m) && m.minorUnits >= x.minorUnits
      else forall m | m in amounts :: same(m) ==> m.minorUnits <= x.minorUnits
  }

  predicate Permits(e: AuthorityEnvelope, u: Use) {
    && InScope(e.resourceScope, u.target)
    && u.effect in e.effectScope
    && InWindow(e.timeWindow, u.at)
    && (e.usageBound.Some? ==> u.count <= e.usageBound.value)
    && (u.delegationDepth > 0 ==> e.delegationBound.allowed && u.delegationDepth <= e.delegationBound.maxDepth)
    && WithinFinancial(e.financialBound, u.amounts)
    && e.evidenceRequirements <= u.evidence
    && RiskRank(u.risk) <= RiskRank(e.riskTierCeiling)
    && (u.offlineRead ==> e.offlineRestriction.readAllowed)
    && (u.deferred ==> e.offlineRestriction.deferredEffectAllowed)
  }

  /** The point of the comparison: a safe cutover permits no use the legacy envelope did not. */
  lemma SafeCutoverPermitsNoMore(a: AuthorityEnvelope, b: AuthorityEnvelope, u: Use)
    requires CutoverSafe(Compare(a, b)) && Permits(a, u)
    ensures Permits(b, u)
  {
    hide Compare, InScope, InWindow, WithinFinancial, ResourceRelation, EffectRelation, WindowRelation, FinancialRelation;
    hide OptionalMaxRelation, DelegationRelation, EvidenceRelation, OfflineRelation, RiskRank, Compared, FromFlags;
    var c := Compare(a, b);
    assert forall d: Dimension :: Within(c[d]) && c[d] == Relation(d, a, b);
    assert Within(c[DimResource]) && Within(c[DimEffect]) && Within(c[DimTime]) && Within(c[DimUsage]);
    assert Within(c[DimDelegation]) && Within(c[DimFinancial]) && Within(c[DimEvidence]);
    assert Within(c[DimRisk]) && Within(c[DimOffline]);
    ScopePermitsNoMore(a.resourceScope, b.resourceScope, u.target);
    SetsPermitNoMore(a, b);
    BoundsPermitNoMore(a, b, u);
    FinancialPermitsNoMore(a.financialBound, b.financialBound, u.amounts);
    WindowPermitsNoMore(a.timeWindow, b.timeWindow, u.at);
  }

  lemma ScopePermitsNoMore(a: ResourceScope, b: ResourceScope, t: Target)
    requires Within(ResourceRelation(a, b)) && InScope(a, t)
    ensures InScope(b, t)
  {
  }

  lemma SetsPermitNoMore(a: AuthorityEnvelope, b: AuthorityEnvelope)
    requires Within(EffectRelation(a.effectScope, b.effectScope))
    requires Within(EvidenceRelation(a.evidenceRequirements, b.evidenceRequirements))
    ensures a.effectScope <= b.effectScope && b.evidenceRequirements <= a.evidenceRequirements
  {
  }

  lemma BoundsPermitNoMore(a: AuthorityEnvelope, b: AuthorityEnvelope, u: Use)
    requires Within(Relation(DimUsage, a, b)) && Within(Relation(DimDelegation, a, b))
    requires Within(Relation(DimRisk, a, b)) && Within(Relation(DimOffline, a, b)) && Permits(a, u)
    ensures b.usageBound.Some? ==> u.count <= b.usageBound.value
    ensures u.delegationDepth > 0 ==> b.delegationBound.allowed && u.delegationDepth <= b.delegationBound.maxDepth
    ensures RiskRank(u.risk) <= RiskRank(b.riskTierCeiling)
    ensures u.offlineRead ==> b.offlineRestriction.readAllowed
    ensures u.deferred ==> b.offlineRestriction.deferredEffectAllowed
  {
    hide InScope, InWindow, WithinFinancial, ResourceRelation, EffectRelation, WindowRelation, FinancialRelation;
  }

  lemma FinancialPermitsNoMore(a: Option<FinancialBound>, b: Option<FinancialBound>, amounts: set<Amount>)
    requires Within(FinancialRelation(a, b)) && WithinFinancial(a, amounts)
    ensures WithinFinancial(b, amounts)
  {
  }

  lemma WindowPermitsNoMore(a: TimeWindow, b: TimeWindow, at: int)
    requires Within(WindowRelation(a, b)) && InWindow(a, at)
    ensures InWindow(b, at)
  {
  }

  /** For valid windows the relation is inclusion of instants, exactly. */
  lemma WindowIsInclusion(a: TimeWindow, b: TimeWindow)
    requires ValidWindow(a) && ValidWindow(b)
    ensures Within(WindowRelation(a, b)) <==> forall t: int :: InWindow(a, t) ==> InWindow(b, t)
  {
    if forall t: int :: InWindow(a, t) ==> InWindow(b, t) {
      var low := if a.starts.Some? then a.starts.value else I64_MIN - 1;
      var high := if a.ends.Some? then a.ends.value else I64_MAX + 1;
      assert InWindow(a, low) && InWindow(a, high);
      assert InWindow(b, low) && InWindow(b, high);
    }
  }
}
