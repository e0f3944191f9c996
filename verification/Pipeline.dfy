/** The whole authority decision: entitlements, evidence, trust and policy feed the core
    evaluation, and every selected row becomes a dependency (pipeline.rs, domain.rs). */
module Pipeline {
  import opened Bytes
  import opened Order
  import opened Wrappers
  import opened Lattice
  import opened Selection
  import opened Evaluation
  import Dependency
  import Policy
  import Evidence

  datatype BindingStatus = BindingActive | BindingSuspended | BindingRevoked | BindingExpired

  datatype EntitlementBinding = EntitlementBinding(
    bindingId: StableId, organizationId: StableId, membershipId: Option<StableId>, principalId: Option<StableId>,
    entitlementRef: RegisteredId, sourceDigest: SemanticDigest, status: BindingStatus, validFromEpochMs: i64,
    validUntilEpochMs: Option<i64>, generation: i64)

  datatype PipelineInput = PipelineInput(
    evaluation: EvaluationInput,
    principalKind: Policy.PrincipalKind,
    membershipClass: Policy.MembershipClass,
    purpose: RegisteredId,
    policy: Policy.CompiledPolicy,
    requiredEntitlements: set<RegisteredId>,
    entitlementBindings: seq<EntitlementBinding>,
    evidenceRequirements: seq<Evidence.Requirement>,
    assertions: seq<Evidence.Assertion>,
    allowlist: Evidence.Allowlist,
    trustQuery: Evidence.TrustQuery,
    trustFacts: seq<Evidence.TrustFact>,
    revocations: seq<Evidence.RevocationFact>,
    revocationSnapshotComplete: bool,
    watermarkDependencyId: StableId)

  // ----- entitlements

  /** `ValidityWindow::contains`: half-open, and structurally valid. */
  predicate InValidity(b: EntitlementBinding, at: i64) {
    && (b.validUntilEpochMs.Some? ==> b.validFromEpochMs < b.validUntilEpochMs.value)
    && b.validFromEpochMs <= at && Evidence.Before(at, b.validUntilEpochMs)
  }

  predicate CurrentFor(b: EntitlementBinding, c: AuthorityContext, at: i64) {
    && b.organizationId == c.organizationId
    && (b.principalId.Some? ==> b.principalId.value == c.principalId)
    && (b.membershipId.Some? ==> b.membershipId.value == c.membershipId)
    && b.status == BindingActive && b.generation >= 0 && InValidity(b, at)
  }

  predicate Grants(input: EvaluationInput, ref: RegisteredId, b: EntitlementBinding) {
    b.entitlementRef == ref && CurrentFor(b, input.authorityContext, input.evaluatedAtEpochMs)
  }

  predicate LowerBinding(x: EntitlementBinding, y: EntitlementBinding) { LexLess(x.bindingId, y.bindingId) }

  function ChosenBinding(input: EvaluationInput, rows: seq<EntitlementBinding>, ref: RegisteredId): (c: Option<EntitlementBinding>)
    ensures c.Some? ==> c.value in rows && Grants(input, ref, c.value)
    ensures c.None? ==> forall b :: b in rows ==> !Grants(input, ref, b)
  {
    Best(rows, b => Grants(input, ref, b), LowerBinding)
  }

  function BindingRef(b: EntitlementBinding): DependencyRef {
    Dependency.DependencyRef(Dependency.EntitlementBinding, b.bindingId, Some(b.organizationId), Some(b.generation),
                             Some(b.sourceDigest), Some(Dependency.Active))
  }

  function AssertionRef(a: Evidence.Assertion): DependencyRef {
    Dependency.DependencyRef(Dependency.ExternalStateAssertion, a.assertionId, Some(a.organizationId), None,
                             Some(a.payloadDigest), Some(Dependency.Active))
  }

  function FactRef(f: Evidence.TrustFact): DependencyRef {
    Dependency.DependencyRef(Dependency.ExternalTrustFact, f.factId, f.organizationId, None,
                             Some(f.sourceDigest), Some(Dependency.Active))
  }

  function WatermarkRef(input: PipelineInput, watermark: SemanticDigest): DependencyRef {
    Dependency.DependencyRef(Dependency.ExternalRevocationWatermark, input.watermarkDependencyId,
                             Some(input.evaluation.authorityContext.organizationId), None, Some(watermark),
                             Some(Dependency.Active))
  }

  /** The dependency vector after a gathering loop, and the reason it denied, if it did. */
  datatype Gathering = Gathering(failure: Option<ReasonCode>, dependencies: seq<DependencyRef>)

  function GatherEntitlements(input: EvaluationInput, rows: seq<EntitlementBinding>, refs: seq<RegisteredId>,
                              ds: seq<DependencyRef>): Gathering {
    if refs == [] then Gathering(None, ds)
    else
      var chosen := ChosenBinding(input, rows, refs[0]);
      if chosen.None? then Gathering(Some(InsufficientEntitlement), ds)
      else GatherEntitlements(input, rows, refs[1..], ds + [BindingRef(chosen.value)])
  }

  function AssertionById(rows: seq<Evidence.Assertion>, id: StableId): Option<Evidence.Assertion> {
    Find(rows, (a: Evidence.Assertion) => a.assertionId == id)
  }

  function GatherAssertions(rows: seq<Evidence.Assertion>, ids: seq<StableId>, ds: seq<DependencyRef>): Gathering {
    if ids == [] then Gathering(None, ds)
    else
      var row := AssertionById(rows, ids[0]);
      if row.None? then Gathering(Some(InsufficientEvidence), ds)
      else GatherAssertions(rows, ids[1..], ds + [AssertionRef(row.value)])
  }

  function FactById(rows: seq<Evidence.TrustFact>, id: StableId): Option<Evidence.TrustFact> {
    Find(rows, (f: Evidence.TrustFact) => f.factId == id)
  }

  function GatherFacts(rows: seq<Evidence.TrustFact>, ids: seq<StableId>, ds: seq<DependencyRef>): Gathering {
    if ids == [] then Gathering(None, ds)
    else
      var row := FactById(rows, ids[0]);
      if row.None? then Gathering(Some(TrustOrRevocationDenied), ds)
      else GatherFacts(rows, ids[1..], ds + [FactRef(row.value)])
  }

  predicate IdLess(a: StableId, b: StableId) { LexLess(a, b) }

  lemma IdStrictTotal()
    ensures StrictTotal(IdLess)
  {
    hide LexLess;
    LexStrictTotal();
    forall a: StableId, b: StableId ensures a == b || IdLess(a, b) || IdLess(b, a) {
      assert a == b || LexLess(a, b) || LexLess(b, a);
    }
  }

  function SortedIds(s: set<StableId>): (r: seq<StableId>)
    ensures StrictlySorted(IdLess, r) && Elements(r) == s && |r| == |s|
  {
    IdStrictTotal();
    Sorted(IdLess, s)
  }

  // ----- the decision

  /** `deny_pipeline` */
  function DenyPipeline(sha: Sha256, input: EvaluationInput, reason: ReasonCode): CandidateDecision {
    match Dependency.Canonicalized(sha, input.dependencies)
    case Ok(bundle) => Denied(sha, input, reason, bundle)
    case Err(_) => Denied(sha, input, reason, EmptyBundle(sha))
  }

  function SettingOf(input: PipelineInput): Evidence.Setting {
    Evidence.Setting(input.evaluation.authorityContext.organizationId, input.assertions, input.allowlist,
                     input.evaluation.evaluatedAtEpochMs)
  }

  function FactsOf(input: PipelineInput, evidence: Evidence.VerifiedEvidence, trust: Evidence.VerifiedTrust): Policy.PolicyFacts {
    Policy.PolicyFacts(input.principalKind, input.membershipClass, input.purpose, input.requiredEntitlements,
                       evidence.assertionTypes, trust.facts, {}, true, input.evaluation.evaluatedAtEpochMs)
  }

  /** Everything the loops gather: the failure, or the dependencies with the two summaries. */
  datatype Gathered =
    | Refused(reason: ReasonCode, dependencies: seq<DependencyRef>)
    | Complete(dependencies: seq<DependencyRef>, evidence: Evidence.VerifiedEvidence, trust: Evidence.VerifiedTrust)

  function GatherTrust(sha: Sha256, input: PipelineInput, evidence: Evidence.VerifiedEvidence, ds: seq<DependencyRef>): Gathered {
    match Evidence.Resolution(sha, input.trustQuery, input.trustFacts, input.revocations)
    case Err(_) => Refused(TrustOrRevocationDenied, ds)
    case Ok(trust) =>
      var g := GatherFacts(input.trustFacts, SortedIds(trust.factIds), ds);
      if g.failure.Some? then Refused(g.failure.value, g.dependencies)
      else Complete(g.dependencies + [WatermarkRef(input, trust.revocationWatermark)], evidence, trust)
  }

  function GatherEvidence(sha: Sha256, input: PipelineInput, ds: seq<DependencyRef>): Gathered {
    match Evidence.Verification(sha, SettingOf(input), input.evidenceRequirements)
    case Err(_) => Refused(InsufficientEvidence, ds)
    case Ok(evidence) =>
      var g := GatherAssertions(input.assertions, SortedIds(evidence.assertionIds), ds);
      if g.failure.Some? then Refused(g.failure.value, g.dependencies)
      else GatherTrust(sha, input, evidence, g.dependencies)
  }

  function Gather(sha: Sha256, input: PipelineInput): Gathered {
    var refs := Evidence.SortedTypes(input.requiredEntitlements);
    var g := GatherEntitlements(input.evaluation, input.entitlementBindings, refs, input.evaluation.dependencies);
    if g.failure.Some? then Refused(g.failure.value, g.dependencies) else GatherEvidence(sha, input, g.dependencies)
  }

  /** The core evaluation's input once everything is gathered: the policy's outcome replaces the
      binding's. */
  function FinalInput(input: PipelineInput, g: Gathered): EvaluationInput
    requires g.Complete?
  {
    var e := input.evaluation;
    var outcome := Policy.Evaluation(input.policy, FactsOf(input, g.evidence, g.trust)).outcome;
    e.(dependencies := g.dependencies, binding := e.binding.(envelope := e.binding.envelope.(outcome := outcome)))
  }

  function Decide(sha: Sha256, input: PipelineInput): CandidateDecision {
    if input.evaluation.binding.policyHash != input.policy.semanticHash then
      DenyPipeline(sha, input.evaluation, PolicyDigestMismatch)
    else if !input.revocationSnapshotComplete then DenyPipeline(sha, input.evaluation, TrustOrRevocationDenied)
    else
      match Gather(sha, input)
      case Refused(reason, ds) => DenyPipeline(sha, input.evaluation.(dependencies := ds), reason)
      case Complete(ds, evidence, trust) => Evaluate(sha, FinalInput(input, Complete(ds, evidence, trust)))
  }

  /** `evaluate_authority_pipeline`, pushing onto one growing dependency vector. */
  method EvaluateAuthorityPipeline(sha: Sha256, input: PipelineInput) returns (r: CandidateDecision)
    ensures r == Decide(sha, input)
  {
    hide DenyPipeline, Evaluation.Evaluate, Evidence.Verification, Evidence.Resolution, Policy.Evaluation,
         GatherEntitlements, GatherAssertions, GatherFacts;
    var evaluation := input.evaluation;
    if evaluation.binding.policyHash != input.policy.semanticHash {
      return DenyPipeline(sha, evaluation, PolicyDigestMismatch);
    }
    if !input.revocationSnapshotComplete {
      return DenyPipeline(sha, evaluation, TrustOrRevocationDenied);
    }
    var refs := Evidence.SortedTypes(input.requiredEntitlements);
    var g := PushEntitlements(evaluation, input.entitlementBindings, refs, evaluation.dependencies);
    if g.failure.Some? {
      return DenyPipeline(sha, evaluation.(dependencies := g.dependencies), g.failure.value);
    }
    var verified := Evidence.VerifyRequiredEvidence(sha, SettingOf(input), input.evidenceRequirements);
    if verified.Err? {
      return DenyPipeline(sha, evaluation.(dependencies := g.dependencies), InsufficientEvidence);
    }
    var evidence := verified.value;
    g := PushAssertions(input.assertions, SortedIds(evidence.assertionIds), g.dependencies);
    if g.failure.Some? {
      return DenyPipeline(sha, evaluation.(dependencies := g.dependencies), g.failure.value);
    }
    var resolved := Evidence.ResolveTrustAndRevocation(sha, input.trustQuery, input.trustFacts, input.revocations);
    if resolved.Err? {
      return DenyPipeline(sha, evaluation.(dependencies := g.dependencies), TrustOrRevocationDenied);
    }
    var trust := resolved.value;
    g := PushFacts(input.trustFacts, SortedIds(trust.factIds), g.dependencies);
    if g.failure.Some? {
      return DenyPipeline(sha, evaluation.(dependencies := g.dependencies), g.failure.value);
    }
    var dependencies := g.dependencies + [WatermarkRef(input, trust.revocationWatermark)];
    var policy := Policy.Evaluate(input.policy, FactsOf(input, evidence, trust));
    var binding := evaluation.binding.(envelope := evaluation.binding.envelope.(outcome := policy.outcome));
    return Evaluate(sha, evaluation.(dependencies := dependencies, binding := binding));
  }

  method PushEntitlements(input: EvaluationInput, rows: seq<EntitlementBinding>, refs: seq<RegisteredId>,
                          ds: seq<DependencyRef>) returns (g: Gathering)
    ensures g == GatherEntitlements(input, rows, refs, ds)
  {
    hide ChosenBinding;
    var dependencies := ds;
    for i := 0 to |refs|
      invariant GatherEntitlements(input, rows, refs[i..], dependencies) == GatherEntitlements(input, rows, refs, ds)
    {
      assert refs[i..][1..] == refs[i + 1..];
      var binding := ChosenBinding(input, rows, refs[i]);
      if binding.None? {
        return Gathering(Some(InsufficientEntitlement), dependencies);
      }
      dependencies := dependencies + [BindingRef(binding.value)];
    }
    return Gathering(None, dependencies);
  }

  method PushAssertions(rows: seq<Evidence.Assertion>, ids: seq<StableId>, ds: seq<DependencyRef>) returns (g: Gathering)
    ensures g == GatherAssertions(rows, ids, ds)
  {
    hide AssertionById;
    var dependencies := ds;
    for i := 0 to |ids|
      invariant GatherAssertions(rows, ids[i..], dependencies) == GatherAssertions(rows, ids, ds)
    {
      assert ids[i..][1..] == ids[i + 1..];
      var row := AssertionById(rows, ids[i]);
      if row.None? {
        return Gathering(Some(InsufficientEvidence), dependencies);
      }
      dependencies := dependencies + [AssertionRef(row.value)];
    }
    return Gathering(None, dependencies);
  }

  method PushFacts(rows: seq<Evidence.TrustFact>, ids: seq<StableId>, ds: seq<DependencyRef>) returns (g: Gathering)
    ensures g == GatherFacts(rows, ids, ds)
  {
    hide FactById;
    var dependencies := ds;
    for i := 0 to |ids|
      invariant GatherFacts(rows, ids[i..], dependencies) == GatherFacts(rows, ids, ds)
    {
      assert ids[i..][1..] == ids[i + 1..];
      var row := FactById(rows, ids[i]);
      if row.None? {
        return Gathering(Some(TrustOrRevocationDenied), dependencies);
      }
      dependencies := dependencies + [FactRef(row.value)];
    }
    return Gathering(None, dependencies);
  }
}
