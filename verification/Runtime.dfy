/** The finalizer runtime: one mutex-protected state, each method one atomic step (finalizer.rs).
    Every interleaving of calls from any number of threads is a sequence of these steps. */
module Runtime {
  import opened Bytes
  import opened Evaluation
  import opened Lattice
  import opened Receipt
  import opened Wrappers
  import Dependency

  const MAX_SEQUENCE: i64 := 9_223_372_036_854_775_806

  datatype CurrentDependency = CurrentDependency(
    generation: Option<i64>, digest: Option<SemanticDigest>, status: Option<AuthorityStatus>)

  datatype RuntimeState = RuntimeState(
    principalId: StableId, organizationId: StableId, membershipId: StableId, authenticatorId: StableId,
    principalGlobalSequence: i64, organizationDecisionSequence: i64, principalGlobalRevocationEpoch: i64,
    organizationRevocationEpoch: i64, liveGenerations: GenerationVector, membershipStatus: AuthorityStatus)

  datatype Grant = Grant(
    mutationGrantId: StableId, decisionReceiptId: StableId, actorPrincipalId: StableId, organizationId: StableId,
    capabilityId: RegisteredId, targetType: RegisteredId, targetRef: StableId, targetDigest: SemanticDigest,
    purposeCode: RegisteredId, effectScopeHash: SemanticDigest, issuedAtEpochMs: i64, expiresAtEpochMs: i64,
    consumedAtEpochMs: Option<i64>, revokedAtEpochMs: Option<i64>)

  datatype MutationEvent = MutationEvent(
    eventId: StableId, mutationGrantId: StableId, decisionReceiptId: StableId, actorPrincipalId: StableId,
    targetType: RegisteredId, targetRef: StableId, capabilityId: RegisteredId, purposeCode: RegisteredId,
    preGeneration: i64, postGeneration: i64, preRevocationEpoch: i64, postRevocationEpoch: i64,
    recordedAtEpochMs: i64)

  datatype Revocation = Revocation(
    grantId: StableId, eventId: StableId, actor: StableId, organization: StableId, target: StableId,
    targetDigest: SemanticDigest, purpose: RegisteredId, effectScopeHash: SemanticDigest, now: i64)

  datatype RuntimeError =
    InvalidInitialState | SequenceExhausted | CoreBindingMismatch | StaleAuthorityRetryRequired
    | DependencyUnavailable | DependencyStale | ReceiptFailed(cause: ReceiptError) | IdempotencyConflict
    | InvalidGrant | GrantUnavailable | DecisionReceiptUnavailable | EffectTimeAuthorityStale
    | MutationTargetMismatch

  /** What the mutex protects. */
  datatype Inner = Inner(
    state: RuntimeState, dependencies: map<Dependency.DependencyKey, CurrentDependency>,
    receipts: map<StableId, DecisionReceipt>, grants: map<StableId, Grant>, events: seq<MutationEvent>)

  datatype Call =
    SetDependency(dependency: Dependency.DependencyRef, current: CurrentDependency)
    | Finalize(candidate: CandidateDecision, material: ReceiptMaterial)
    | InstallGrant(grant: Grant)
    | Revoke(request: Revocation)

  datatype Reply = Done | Receipted(receipt: DecisionReceipt) | Recorded(event: MutationEvent) | Failed(error: RuntimeError)

  // ----- the checks

  predicate InitialStateValid(s: RuntimeState) {
    && NonNegative(s.liveGenerations)
    && 0 <= s.principalGlobalSequence <= MAX_SEQUENCE
    && 0 <= s.organizationDecisionSequence <= MAX_SEQUENCE
    && 0 <= s.principalGlobalRevocationEpoch <= MAX_SEQUENCE
    && 0 <= s.organizationRevocationEpoch <= MAX_SEQUENCE
  }

  predicate RetryMatches(r: DecisionReceipt, c: CandidateDecision, m: ReceiptMaterial) {
    && r.requestId == c.requestId && r.requestSemanticHash == c.requestSemanticHash
    && r.evaluationSnapshotHash == c.evaluationSnapshotHash && r.policyBundleHash == c.policyBundleHash
    && r.dependencyBundleHash == c.dependencyBundle.digest && r.receiptId == m.receiptId
    && r.decisionId == m.decisionId && r.authorityContextHash == m.authorityContextHash
    && r.calSemanticHash == m.calSemanticHash && r.evidenceBundleHash == m.evidenceBundleHash
    && r.effectiveCapabilityHash == m.effectiveCapabilityHash && r.specSha256 == m.specSha256
    && r.issuedAtEpochMs == m.issuedAtEpochMs && r.validUntilEpochMs == m.validUntilEpochMs
  }

  /** `require_core_state`. */
  function CoreError(s: RuntimeState, c: CandidateDecision): Option<RuntimeError> {
    if s.principalId != c.principalId || s.organizationId != c.organizationId
       || s.membershipId != c.membershipId || s.authenticatorId != c.authenticatorId
    then Some(CoreBindingMismatch)
    else if s.liveGenerations != c.evaluatedGenerations || s.membershipStatus != Dependency.Active
    then Some(StaleAuthorityRetryRequired)
    else None
  }

  type Current = map<Dependency.DependencyKey, CurrentDependency>

  function OneDependencyError(current: Current, d: Dependency.DependencyRef): Option<RuntimeError> {
    var key := Dependency.KeyOf(d);
    if key !in current then Some(DependencyUnavailable)
    else if d.expectedGeneration != current[key].generation || d.expectedDigest != current[key].digest
            || d.expectedStatus != current[key].status
    then Some(DependencyStale)
    else None
  }

  /** The first of the given dependencies that is missing or has changed. */
  function DependencyError(current: Current, ds: seq<Dependency.DependencyRef>): Option<RuntimeError> {
    if ds == [] then None
    else
      var first := OneDependencyError(current, ds[0]);
      if first.Some? then first else DependencyError(current, ds[1..])
  }

  /** Everything `finalize` checks before it takes sequence numbers. */
  function Refusal(s: Inner, c: CandidateDecision): Option<RuntimeError> {
    var core := CoreError(s.state, c);
    if core.Some? then core else DependencyError(s.dependencies, c.dependencyBundle.dependencies)
  }

  function FinalizationOf(s: RuntimeState): FinalizationState {
    FinalizationState(
      s.principalId, s.organizationId, s.membershipId, s.authenticatorId, s.principalGlobalSequence,
      s.organizationDecisionSequence, s.principalGlobalRevocationEpoch, s.organizationRevocationEpoch,
      s.liveGenerations)
  }

  /** `checked_next`. */
  function CheckedNext(value: i64): Result<i64, RuntimeError> {
    if value >= MAX_SEQUENCE then Err(SequenceExhausted) else Ok(value + 1)
  }

  predicate GrantFits(g: Grant, q: Revocation) {
    && g.actorPrincipalId == q.actor && g.organizationId == q.organization && g.targetRef == q.target
    && g.targetDigest == q.targetDigest && g.purposeCode == q.purpose && g.effectScopeHash == q.effectScopeHash
    && g.targetType == Ascii("membership") && g.capabilityId == Ascii("identity.membership.revoke")
  }

  predicate GrantUsable(g: Grant, now: i64) {
    && g.consumedAtEpochMs.None? && g.revokedAtEpochMs.None? && now < g.expiresAtEpochMs && g.issuedAtEpochMs <= now
  }

  function GrantError(g: Grant, q: Revocation): Option<RuntimeError> {
    if !GrantFits(g, q) then Some(MutationTargetMismatch)
    else if !GrantUsable(g, q.now) then Some(GrantUnavailable)
    else None
  }

  predicate EffectAuthorized(r: DecisionReceipt, g: Grant, q: Revocation, s: RuntimeState) {
    && r.principalId == q.actor && r.organizationId == q.organization && r.capabilityId == g.capabilityId
    && r.outcome == Allow && q.now < r.validUntilEpochMs && r.liveGenerations == s.liveGenerations
  }

  predicate TargetActive(s: RuntimeState, q: Revocation) {
    && s.membershipId == q.target && s.organizationId == q.organization && s.membershipStatus == Dependency.Active
  }

  /** The first check that stops a revocation. */
  function RevocationError(s: Inner, q: Revocation): Option<RuntimeError> {
    if q.grantId !in s.grants then Some(GrantUnavailable)
    else
      var g := s.grants[q.grantId];
      var bad := GrantError(g, q);
      if bad.Some? then bad
      else if g.decisionReceiptId !in s.receipts then Some(DecisionReceiptUnavailable)
      else if !EffectAuthorized(s.receipts[g.decisionReceiptId], g, q, s.state) then Some(EffectTimeAuthorityStale)
      else if !TargetActive(s.state, q) then Some(MutationTargetMismatch)
      else if CheckedNext(s.state.liveGenerations.membershipGeneration).Err? then Some(SequenceExhausted)
      else if CheckedNext(s.state.organizationRevocationEpoch).Err? then Some(SequenceExhausted)
      else None
  }

  // ----- the steps

  /** `finalize`: both counters are taken before the second is checked and before issuing. */
  function FinalizeStep(sha: Sha256, s: Inner, c: CandidateDecision, m: ReceiptMaterial): (Inner, Reply) {
    if m.receiptId in s.receipts then
      (s, if RetryMatches(s.receipts[m.receiptId], c, m) then Receipted(s.receipts[m.receiptId])
          else Failed(IdempotencyConflict))
    else if Refusal(s, c).Some? then (s, Failed(Refusal(s, c).value))
    else if CheckedNext(s.state.principalGlobalSequence).Err? then (s, Failed(SequenceExhausted))
    else
      var s1 := TakePrincipal(s);
      if CheckedNext(s1.state.organizationDecisionSequence).Err? then (s1, Failed(SequenceExhausted))
      else
        var s2 := TakeOrganization(s1);
        match IssueSpec(sha, c, FinalizationOf(s2.state), m)
        case Err(e) => (s2, Failed(ReceiptFailed(e)))
        case Ok(r) => (s2.(receipts := s2.receipts[r.receiptId := r]), Receipted(r))
  }

  function TakePrincipal(s: Inner): Inner
    requires CheckedNext(s.state.principalGlobalSequence).Ok?
  {
    s.(state := s.state.(principalGlobalSequence := CheckedNext(s.state.principalGlobalSequence).value))
  }

  function TakeOrganization(s: Inner): Inner
    requires CheckedNext(s.state.organizationDecisionSequence).Ok?
  {
    s.(state := s.state.(organizationDecisionSequence := CheckedNext(s.state.organizationDecisionSequence).value))
  }

  /** `install_mutation_grant`: the grant is replaced even when the call reports a conflict. */
  function InstallStep(s: Inner, g: Grant): (Inner, Reply) {
    if g.expiresAtEpochMs <= g.issuedAtEpochMs then (s, Failed(InvalidGrant))
    else
      (s.(grants := s.grants[g.mutationGrantId := g]),
       if g.mutationGrantId in s.grants then Failed(IdempotencyConflict) else Done)
  }

  function RevokedState(s: RuntimeState): RuntimeState
    requires CheckedNext(s.liveGenerations.membershipGeneration).Ok?
    requires CheckedNext(s.organizationRevocationEpoch).Ok?
  {
    var epoch := s.organizationRevocationEpoch + 1;
    s.(liveGenerations := s.liveGenerations.(membershipGeneration := s.liveGenerations.membershipGeneration + 1,
                                             organizationRevocationEpoch := epoch),
       organizationRevocationEpoch := epoch,
       membershipStatus := Dependency.Revoked)
  }

  function EventOf(s: Inner, q: Revocation): MutationEvent
    requires RevocationError(s, q) == None
  {
    var g := s.grants[q.grantId];
    var generation, epoch := s.state.liveGenerations.membershipGeneration, s.state.organizationRevocationEpoch;
    MutationEvent(q.eventId, q.grantId, g.decisionReceiptId, q.actor, g.targetType, q.target, g.capabilityId,
                  q.purpose, generation, generation + 1, epoch, epoch + 1, q.now)
  }

  function RevokeStep(s: Inner, q: Revocation): (Inner, Reply) {
    var error := RevocationError(s, q);
    if error.Some? then (s, Failed(error.value))
    else
      (s.(state := RevokedState(s.state),
          grants := s.grants[q.grantId := s.grants[q.grantId].(consumedAtEpochMs := Some(q.now))],
          events := s.events + [EventOf(s, q)]),
       Recorded(EventOf(s, q)))
  }

  function Step(sha: Sha256, s: Inner, call: Call): (Inner, Reply) {
    match call
    case SetDependency(d, current) => (s.(dependencies := s.dependencies[Dependency.KeyOf(d) := current]), Done)
    case Finalize(c, m) => FinalizeStep(sha, s, c, m)
    case InstallGrant(g) => InstallStep(s, g)
    case Revoke(q) => RevokeStep(s, q)
  }

  // ----- the runtime

  class AuthorityRuntime {
    var state: RuntimeState
    var dependencies: map<Dependency.DependencyKey, CurrentDependency>
    var receiptsById: map<StableId, DecisionReceipt>
    var grants: map<StableId, Grant>
    var mutationEvents: seq<MutationEvent>

    ghost function Value(): Inner
      reads this
    {
      Inner(state, dependencies, receiptsById, grants, mutationEvents)
    }

    constructor (initial: RuntimeState)
      requires InitialStateValid(initial)
      ensures Value() == Inner(initial, map[], map[], map[], [])
    {
      state, dependencies, receiptsById, grants, mutationEvents := initial, map[], map[], map[], [];
    }

    /** `new`. */
    static method New(initial: RuntimeState) returns (r: Result<AuthorityRuntime, RuntimeError>)
      ensures r.Ok? <==> InitialStateValid(initial)
      ensures r.Err? ==> r.error == InvalidInitialState
      ensures r.Ok? ==> fresh(r.value) && r.value.Value() == Inner(initial, map[], map[], map[], [])
    {
      if !InitialStateValid(initial) { return Err(InvalidInitialState); }
      var runtime := new AuthorityRuntime(initial);
      return Ok(runtime);
    }

    method SetDependencyState(sha: Sha256, dependency: Dependency.DependencyRef, current: CurrentDependency)
      modifies this
      ensures Value() == Step(sha, old(Value()), SetDependency(dependency, current)).0
    {
      dependencies := dependencies[Dependency.KeyOf(dependency) := current];
    }

    method CheckDependencies(ds: seq<Dependency.DependencyRef>) returns (error: Option<RuntimeError>)
      ensures error == DependencyError(dependencies, ds)
    {
      for i := 0 to |ds|
        invariant DependencyError(dependencies, ds) == DependencyError(dependencies, ds[i..])
      {
        var key := Dependency.KeyOf(ds[i]);
        if key !in dependencies { return Some(DependencyUnavailable); }
        var current := dependencies[key];
        if ds[i].expectedGeneration != current.generation || ds[i].expectedDigest != current.digest
           || ds[i].expectedStatus != current.status { return Some(DependencyStale); }
        assert ds[i..][1..] == ds[i + 1..];
      }
      return None;
    }

    method FinalizeDecision(sha: Sha256, candidate: CandidateDecision, material: ReceiptMaterial)
      returns (reply: Reply)
      modifies this
      ensures (Value(), reply) == Step(sha, old(Value()), Finalize(candidate, material))
    {
      hide RetryMatches, CoreError, DependencyError, IssueError, Draft, Issued, Verified;
      if material.receiptId in receiptsById {
        var existing := receiptsById[material.receiptId];
        if RetryMatches(existing, candidate, material) { return Receipted(existing); }
        return Failed(IdempotencyConflict);
      }
      var core := CoreError(state, candidate);
      if core.Some? { return Failed(core.value); }
      var unavailable := CheckDependencies(candidate.dependencyBundle.dependencies);
      if unavailable.Some? { return Failed(unavailable.value); }
      var principal := CheckedNext(state.principalGlobalSequence);
      if principal.Err? { return Failed(principal.error); }
      state := state.(principalGlobalSequence := principal.value);
      var organization := CheckedNext(state.organizationDecisionSequence);
      if organization.Err? { return Failed(organization.error); }
      state := state.(organizationDecisionSequence := organization.value);
      var issued := Issue(sha, candidate, FinalizationOf(state), material);
      if issued.Err? { return Failed(ReceiptFailed(issued.error)); }
      var receipt := issued.value;
      IssuedVerifies(sha, candidate, FinalizationOf(state), material);
      var mismatch := Verify(sha, receipt);
      if mismatch.Some? { assert false; }
      receiptsById := receiptsById[receipt.receiptId := receipt];
      return Receipted(receipt);
    }

    method InstallMutationGrant(sha: Sha256, grant: Grant) returns (reply: Reply)
      modifies this
      ensures (Value(), reply) == Step(sha, old(Value()), InstallGrant(grant))
    {
      if grant.expiresAtEpochMs <= grant.issuedAtEpochMs { return Failed(InvalidGrant); }
      var replaced := grant.mutationGrantId in grants;
      grants := grants[grant.mutationGrantId := grant];
      if replaced { return Failed(IdempotencyConflict); }
      return Done;
    }

    /** The second look at the grant, after the state has changed, can never refuse: the lock is
        still held, so it is the grant that was checked before. */
    method ExecuteMembershipRevocation(sha: Sha256, q: Revocation) returns (reply: Reply)
      modifies this
      ensures (Value(), reply) == Step(sha, old(Value()), Revoke(q))
    {
      hide GrantFits, EffectAuthorized, Ascii;
      if q.grantId !in grants { return Failed(GrantUnavailable); }
      var grant := grants[q.grantId];
      var invalid := GrantError(grant, q);
      if invalid.Some? { return Failed(invalid.value); }
      if grant.decisionReceiptId !in receiptsById { return Failed(DecisionReceiptUnavailable); }
      var receipt := receiptsById[grant.decisionReceiptId];
      if !EffectAuthorized(receipt, grant, q, state) { return Failed(EffectTimeAuthorityStale); }
      if state.membershipId != q.target || state.organizationId != q.organization
         || state.membershipStatus != Dependency.Active { return Failed(MutationTargetMismatch); }
      var preGeneration := state.liveGenerations.membershipGeneration;
      var preEpoch := state.organizationRevocationEpoch;
      var generation := CheckedNext(preGeneration);
      if generation.Err? { return Failed(generation.error); }
      var epoch := CheckedNext(preEpoch);
      if epoch.Err? { return Failed(epoch.error); }

      state := state.(liveGenerations := state.liveGenerations.(membershipGeneration := generation.value));
      state := state.(liveGenerations := state.liveGenerations.(organizationRevocationEpoch := epoch.value));
      state := state.(organizationRevocationEpoch := epoch.value);
      state := state.(membershipStatus := Dependency.Revoked);

      var stored := grants[q.grantId];
      if stored.consumedAtEpochMs.Some? || stored.revokedAtEpochMs.Some? || stored.expiresAtEpochMs <= q.now {
        assert false;
      }
      grants := grants[q.grantId := stored.(consumedAtEpochMs := Some(q.now))];
      var event := MutationEvent(q.eventId, q.grantId, grant.decisionReceiptId, q.actor, grant.targetType, q.target,
                                 grant.capabilityId, q.purpose, preGeneration, generation.value, preEpoch,
                                 epoch.value, q.now);
      mutationEvents := mutationEvents + [event];
      return Recorded(event);
    }
  }
}
