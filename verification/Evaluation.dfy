/** The core decision: a chain of fail-closed checks over one snapshot (evaluation.rs). */
module Evaluation {
  import opened Bytes
  import opened Wrappers
  import opened Lattice
  import Dependency
  import opened Order

  type AuthorityStatus = Dependency.AuthorityStatus
  type DependencyRef = Dependency.DependencyRef
  type Bundle = Dependency.Bundle

  datatype GenerationVector = GenerationVector(
    principalGeneration: i64, membershipGeneration: i64, organizationGeneration: i64, policyGeneration: i64,
    entitlementGeneration: i64, credentialRevision: i64, principalGlobalRevocationEpoch: i64,
    organizationRevocationEpoch: i64)

  predicate NonNegative(g: GenerationVector) {
    && g.principalGeneration >= 0 && g.membershipGeneration >= 0 && g.organizationGeneration >= 0
    && g.policyGeneration >= 0 && g.entitlementGeneration >= 0 && g.credentialRevision >= 0
    && g.principalGlobalRevocationEpoch >= 0 && g.organizationRevocationEpoch >= 0
  }

  function EncodeGenerations(g: GenerationVector): (r: bytes)
    ensures |r| == 64
  {
    I64(g.principalGeneration) + (I64(g.membershipGeneration) + (I64(g.organizationGeneration)
      + (I64(g.policyGeneration) + (I64(g.entitlementGeneration) + (I64(g.credentialRevision)
      + (I64(g.principalGlobalRevocationEpoch) + I64(g.organizationRevocationEpoch)))))))
  }

  lemma GenerationsInjective(a: GenerationVector, b: GenerationVector)
    requires EncodeGenerations(a) == EncodeGenerations(b)
    ensures a == b
  {
    hide I64;
    var a7, b7 := I64(a.organizationRevocationEpoch), I64(b.organizationRevocationEpoch);
    var a6, b6 := I64(a.principalGlobalRevocationEpoch) + a7, I64(b.principalGlobalRevocationEpoch) + b7;
    var a5, b5 := I64(a.credentialRevision) + a6, I64(b.credentialRevision) + b6;
    var a4, b4 := I64(a.entitlementGeneration) + a5, I64(b.entitlementGeneration) + b5;
    var a3, b3 := I64(a.policyGeneration) + a4, I64(b.policyGeneration) + b4;
    var a2, b2 := I64(a.organizationGeneration) + a3, I64(b.organizationGeneration) + b3;
    var a1, b1 := I64(a.membershipGeneration) + a2, I64(b.membershipGeneration) + b2;
    CancelI64(a.principalGeneration, a1, b.principalGeneration, b1);
    CancelI64(a.membershipGeneration, a2, b.membershipGeneration, b2);
    CancelI64(a.organizationGeneration, a3, b.organizationGeneration, b3);
    CancelI64(a.policyGeneration, a4, b.policyGeneration, b4);
    CancelI64(a.entitlementGeneration, a5, b.entitlementGeneration, b5);
    CancelI64(a.credentialRevision, a6, b.credentialRevision, b6);
    CancelI64(a.principalGlobalRevocationEpoch, a7, b.principalGlobalRevocationEpoch, b7);
    I64Injective(a.organizationRevocationEpoch, b.organizationRevocationEpoch);
  }

  datatype AuthorityContext = AuthorityContext(
    authorityContextId: StableId, principalId: StableId, organizationId: StableId, membershipId: StableId,
    authenticatorId: StableId, status: AuthorityStatus, issuedAtEpochMs: i64, expiresAtEpochMs: i64,
    revokedAtEpochMs: Option<i64>, boundGenerations: GenerationVector)

  datatype CoreAuthorityState = CoreAuthorityState(
    principalStatus: AuthorityStatus, organizationStatus: AuthorityStatus, membershipStatus: AuthorityStatus,
    authenticatorStatus: AuthorityStatus, authenticatorValidFromEpochMs: i64,
    authenticatorValidUntilEpochMs: Option<i64>, liveGenerations: GenerationVector)

  datatype BindingSnapshot = BindingSnapshot(
    organizationId: StableId, capabilityId: RegisteredId, capabilityVersion: u32, policyHash: SemanticDigest,
    envelope: AuthorityEnvelope)

  datatype EvaluationInput = EvaluationInput(
    requestId: StableId, requestSemanticHash: SemanticDigest, authorityContext: AuthorityContext,
    currentState: CoreAuthorityState, binding: BindingSnapshot, requestedEnvelope: AuthorityEnvelope,
    dependencies: seq<DependencyRef>, evaluatedAtEpochMs: i64)

  datatype ReasonCode =
    CurrentAuthorityProven | AuthorityContextExpired | AuthorityContextRevoked | AuthorityContextInactive
    | PrincipalInactive | OrganizationInactive | MembershipInactive | AuthenticatorInactive | AuthenticatorExpired
    | StaleAuthorityGeneration | OrganizationMismatch | CapabilityMismatch | UnsupportedCapabilityVersion
    | RequestedAuthorityExceedsBinding | PolicyRequiresApproval | PolicyDenied | UnsupportedAuthoritySemantics
    | InvalidGenerationState | InvalidTimeWindow | DependencyVectorInvalid | PolicyDigestMismatch
    | InsufficientEntitlement | InsufficientEvidence | TrustOrRevocationDenied

  datatype CandidateDecision = CandidateDecision(
    requestId: StableId, principalId: StableId, organizationId: StableId, membershipId: StableId,
    authenticatorId: StableId, capabilityId: RegisteredId, capabilityVersion: u32, outcome: DecisionOutcome,
    reasonCodes: seq<ReasonCode>, effectiveEnvelope: Option<AuthorityEnvelope>, requestSemanticHash: SemanticDigest,
    evaluationSnapshotHash: SemanticDigest, policyBundleHash: SemanticDigest, dependencyBundle: Bundle,
    evaluatedGenerations: GenerationVector, evaluatedAtEpochMs: i64)

  const SNAPSHOT_DOMAIN := "ANAR-EVALUATION-SNAPSHOT-1"

  function SnapshotHash(sha: Sha256, input: EvaluationInput): SemanticDigest {
    var c := input.authorityContext;
    DomainHash(sha, SNAPSHOT_DOMAIN,
               c.authorityContextId + c.principalId + c.organizationId + c.membershipId + c.authenticatorId
               + EncodeGenerations(input.currentState.liveGenerations) + I64(input.evaluatedAtEpochMs))
  }

  function Candidate(sha: Sha256, input: EvaluationInput, outcome: DecisionOutcome, reason: ReasonCode,
                     envelope: Option<AuthorityEnvelope>, bundle: Bundle): CandidateDecision {
    CandidateDecision(
      input.requestId, input.authorityContext.principalId, input.authorityContext.organizationId,
      input.authorityContext.membershipId, input.authorityContext.authenticatorId, input.binding.capabilityId,
      input.binding.capabilityVersion, outcome, [reason], envelope, input.requestSemanticHash,
      SnapshotHash(sha, input), input.binding.policyHash, bundle, input.currentState.liveGenerations,
      input.evaluatedAtEpochMs)
  }

  function Denied(sha: Sha256, input: EvaluationInput, reason: ReasonCode, bundle: Bundle): CandidateDecision {
    Candidate(sha, input, Deny, reason, None, bundle)
  }

  function EmptyBundle(sha: Sha256): Bundle {
    Dependency.MakeBundle(sha, [])
  }

  /** `request_is_within_binding`: every dimension except the outcome. */
  predicate RequestWithinBinding(c: ShadowComparison) {
    forall d | d in c && d != DimOutcome :: Within(c[d])
  }

  predicate AuthenticatorCurrent(s: CoreAuthorityState, at: i64) {
    && s.authenticatorValidFromEpochMs <= at
    && (s.authenticatorValidUntilEpochMs.Some? ==> at < s.authenticatorValidUntilEpochMs.value)
  }

  /** The first check that denies, once the dependency vector is accepted. */
  function Obstacle(input: EvaluationInput): Option<ReasonCode> {
    var c, s, at := input.authorityContext, input.currentState, input.evaluatedAtEpochMs;
    if !NonNegative(c.boundGenerations) || !NonNegative(s.liveGenerations) then Some(InvalidGenerationState)
    else if c.status != Dependency.Active then Some(AuthorityContextInactive)
    else if c.revokedAtEpochMs.Some? then Some(AuthorityContextRevoked)
    else if c.expiresAtEpochMs <= at then Some(AuthorityContextExpired)
    else if s.principalStatus != Dependency.Active then Some(PrincipalInactive)
    else if s.organizationStatus != Dependency.Active then Some(OrganizationInactive)
    else if s.membershipStatus != Dependency.Active then Some(MembershipInactive)
    else if s.authenticatorStatus != Dependency.Active then Some(AuthenticatorInactive)
    else if !AuthenticatorCurrent(s, at) then Some(AuthenticatorExpired)
    else if c.boundGenerations != s.liveGenerations then Some(StaleAuthorityGeneration)
    else if c.organizationId != input.binding.organizationId then Some(OrganizationMismatch)
    else if input.binding.capabilityVersion == 0 then Some(UnsupportedCapabilityVersion)
    else if !ValidWindow(input.requestedEnvelope.timeWindow) then Some(InvalidTimeWindow)
    else if !RequestWithinBinding(Compare(input.requestedEnvelope, input.binding.envelope)) then
      Some(RequestedAuthorityExceedsBinding)
    else None
  }

  /** `evaluate`.  The check for an empty capability id is left out: no registered id is empty. */
  function Evaluate(sha: Sha256, input: EvaluationInput): CandidateDecision {
    match Dependency.Canonicalized(sha, input.dependencies)
    case Err(_) => Denied(sha, input, DependencyVectorInvalid, EmptyBundle(sha))
    case Ok(bundle) =>
      var obstacle := Obstacle(input);
      if obstacle.Some? then Denied(sha, input, obstacle.value, bundle)
      else
        match input.binding.envelope.outcome
        case Allow => Candidate(sha, input, Allow, CurrentAuthorityProven, Some(input.requestedEnvelope), bundle)
        case RequireApproval => Candidate(sha, input, RequireApproval, PolicyRequiresApproval, None, bundle)
        case Deny => Denied(sha, input, PolicyDenied, bundle)
        case _ => Denied(sha, input, UnsupportedAuthoritySemantics, bundle)
  }

  // ----- what a decision means

  /** Everything the core checks demand, as one statement about the snapshot. */
  ghost predicate BaseChecks(input: EvaluationInput) {
    var c, s, at := input.authorityContext, input.currentState, input.evaluatedAtEpochMs;
    && c.status == s.principalStatus == s.organizationStatus == s.membershipStatus == s.authenticatorStatus == Dependency.Active
    && c.revokedAtEpochMs == None && at < c.expiresAtEpochMs && AuthenticatorCurrent(s, at)
    && c.boundGenerations == s.liveGenerations && NonNegative(s.liveGenerations)
    && c.organizationId == input.binding.organizationId && input.binding.capabilityVersion != 0
    && (forall d: Dimension :: d != DimOutcome ==> Within(Relation(d, input.requestedEnvelope, input.binding.envelope)))
  }

  lemma NoObstacleIffBaseChecks(input: EvaluationInput)
    ensures Obstacle(input) == None <==> BaseChecks(input)
  {
    hide Relation, NonNegative, AuthenticatorCurrent;
    var c := Compare(input.requestedEnvelope, input.binding.envelope);
    assert RequestWithinBinding(c) <==> forall d: Dimension :: d != DimOutcome ==> Within(c[d]);
    WithinNeedsValidWindow(input.requestedEnvelope, input.binding.envelope);
    assert Within(c[DimTime]) ==> ValidWindow(input.requestedEnvelope.timeWindow);
  }

  lemma WithinNeedsValidWindow(a: AuthorityEnvelope, b: AuthorityEnvelope)
    ensures Within(Relation(DimTime, a, b)) ==> ValidWindow(a.timeWindow) && ValidWindow(b.timeWindow)
  {
  }

  /** ALLOW is decided iff the dependency vector is conflict-free, every base check holds and
      the binding's outcome is ALLOW. */
  lemma AllowIff(sha: Sha256, input: EvaluationInput)
    ensures Evaluate(sha, input).outcome == Allow <==>
            Dependency.Consistent(input.dependencies) && BaseChecks(input) && input.binding.envelope.outcome == Allow
  {
    hide BaseChecks, Obstacle, SnapshotHash, Dependency.Consistent, Dependency.FirstError, Dependency.MakeBundle;
    Dependency.SucceedsIffConsistent(sha, input.dependencies);
    NoObstacleIffBaseChecks(input);
    hide Dependency.Canonicalized, Dependency.Canonical, EmptyBundle, IsRegistered;
  }

  /** An ALLOW carries the requested envelope, which may replace the binding's in every
      dimension, the outcome included. */
  lemma AllowedEnvelopeIsSafe(sha: Sha256, input: EvaluationInput)
    requires Evaluate(sha, input).outcome == Allow
    ensures Evaluate(sha, input).effectiveEnvelope == Some(input.requestedEnvelope)
    ensures CutoverSafe(Compare(input.requestedEnvelope, input.binding.envelope))
  {
    hide Relation, SnapshotHash, Dependency.Consistent, Dependency.FirstError, Dependency.MakeBundle;
    AllowIff(sha, input);
    forall d: Dimension ensures Within(Relation(d, input.requestedEnvelope, input.binding.envelope)) {
      if d == DimOutcome { AnyOutcomeWithinAllow(input.requestedEnvelope, input.binding.envelope); }
    }
  }

  lemma AnyOutcomeWithinAllow(a: AuthorityEnvelope, b: AuthorityEnvelope)
    requires b.outcome == Allow
    ensures Within(Relation(DimOutcome, a, b))
  {
  }

  /** Every decision has one reason; only ALLOW carries an envelope, and the unsupported
      outcomes never leave the evaluator. */
  lemma FailsClosed(sha: Sha256, input: EvaluationInput)
    ensures var d := Evaluate(sha, input);
            && |d.reasonCodes| == 1 && d.outcome in {Allow, RequireApproval, Deny}
            && (d.effectiveEnvelope.Some? <==> d.outcome == Allow)
            && (d.outcome == Allow <==> d.reasonCodes == [CurrentAuthorityProven])
  {
    hide SnapshotHash, Obstacle, Dependency.Canonicalized, Dependency.MakeBundle;
    ObstacleIsDenial(input);
  }

  lemma ObstacleIsDenial(input: EvaluationInput)
    ensures Obstacle(input) != Some(CurrentAuthorityProven)
  {
  }

  /** The decision depends on the initial dependencies only as a set. */
  lemma EvaluateDependsOnElements(sha: Sha256, input: EvaluationInput, ds: seq<DependencyRef>)
    requires Elements(input.dependencies) == Elements(ds)
    ensures Evaluate(sha, input) == Evaluate(sha, input.(dependencies := ds))
  {
    hide Obstacle, Dependency.Canonicalized, Dependency.MakeBundle;
    Dependency.OutcomeDependsOnElements(sha, input.dependencies, ds);
    assert Obstacle(input) == Obstacle(input.(dependencies := ds)) by { ObstacleIgnoresDependencies(input, ds); }
  }

  lemma ObstacleIgnoresDependencies(input: EvaluationInput, ds: seq<DependencyRef>)
    ensures Obstacle(input) == Obstacle(input.(dependencies := ds))
  {
  }
}
