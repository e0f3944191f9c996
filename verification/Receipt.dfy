/** Decision receipts: issuing, canonical bytes and verification (receipt.rs). */
module Receipt {
  import opened Bytes
  import opened Evaluation
  import opened Lattice
  import opened Wrappers
  import Dependency

  datatype FinalizationState = FinalizationState(
    principalId: StableId, organizationId: StableId, membershipId: StableId, authenticatorId: StableId,
    principalGlobalSequence: i64, organizationDecisionSequence: i64, principalGlobalRevocationEpoch: i64,
    organizationRevocationEpoch: i64, liveGenerations: GenerationVector)

  datatype ReceiptMaterial = ReceiptMaterial(
    receiptId: StableId, decisionId: StableId, authorityContextHash: SemanticDigest, calSemanticHash: SemanticDigest,
    evidenceBundleHash: SemanticDigest, effectiveCapabilityHash: Option<SemanticDigest>, specSha256: SemanticDigest,
    issuedAtEpochMs: i64, validUntilEpochMs: i64)

  datatype DecisionReceipt = DecisionReceipt(
    receiptId: StableId, decisionId: StableId, requestId: StableId, principalId: StableId, organizationId: StableId,
    membershipId: StableId, authenticatorId: StableId, capabilityId: RegisteredId, capabilityVersion: u32,
    outcome: DecisionOutcome, reasonCodes: seq<ReasonCode>, authorityContextHash: SemanticDigest,
    requestSemanticHash: SemanticDigest, calSemanticHash: SemanticDigest, evaluationSnapshotHash: SemanticDigest,
    effectiveCapabilityHash: Option<SemanticDigest>, policyBundleHash: SemanticDigest,
    evidenceBundleHash: SemanticDigest, dependencyBundleHash: SemanticDigest, specSha256: SemanticDigest,
    principalGlobalSequence: i64, organizationDecisionSequence: i64, principalGlobalRevocationEpoch: i64,
    organizationRevocationEpoch: i64, liveGenerations: GenerationVector, issuedAtEpochMs: i64,
    validUntilEpochMs: i64, canonicalBytes: bytes, receiptHash: SemanticDigest)

  datatype ReceiptError =
    FinalizationBindingMismatch | StaleFinalizationState | InvalidSequenceState | InvalidValidityWindow
    | MissingEffectiveCapabilityHash | UnexpectedEffectiveCapabilityHash | ReceiptHashMismatch

  const RECEIPT_DOMAIN := "ANAR-DECISION-RECEIPT-1"
  const RECEIPT_HASH_DOMAIN := "ANAR-DECISION-RECEIPT-HASH-1"

  // ----- codes

  function OutcomeCode(o: DecisionOutcome): byte {
    match o
    case Deny => 1
    case RequireApproval => 2
    case Allow => 3
    case Error => 4
    case Unknown => 5
    case Unsupported => 6
  }

  lemma OutcomeCodeInjective(a: DecisionOutcome, b: DecisionOutcome)
    requires OutcomeCode(a) == OutcomeCode(b)
    ensures a == b
  {
  }

  // The 24 names, in four groups that are proved apart.

  predicate AboutPolicy(r: ReasonCode) {
    || r.CurrentAuthorityProven? || r.PolicyRequiresApproval? || r.PolicyDenied?
    || r.PolicyDigestMismatch? || r.RequestedAuthorityExceedsBinding? || r.UnsupportedAuthoritySemantics?
  }

  predicate AboutContext(r: ReasonCode) {
    || r.AuthorityContextExpired? || r.AuthorityContextRevoked? || r.AuthorityContextInactive?
    || r.StaleAuthorityGeneration? || r.InvalidGenerationState? || r.InvalidTimeWindow?
  }

  predicate AboutHolder(r: ReasonCode) {
    || r.PrincipalInactive? || r.OrganizationInactive? || r.MembershipInactive?
    || r.AuthenticatorInactive? || r.AuthenticatorExpired? || r.OrganizationMismatch?
  }

  predicate AboutRequirement(r: ReasonCode) { !AboutPolicy(r) && !AboutContext(r) && !AboutHolder(r) }

  function PolicyName(r: ReasonCode): (name: string)
    requires AboutPolicy(r)
    ensures 13 <= |name| <= 35
  {
    match r
    case CurrentAuthorityProven => "CURRENT_AUTHORITY_PROVEN"
    case PolicyRequiresApproval => "POLICY_REQUIRES_APPROVAL"
    case PolicyDenied => "POLICY_DENIED"
    case PolicyDigestMismatch => "POLICY_DIGEST_MISMATCH"
    case RequestedAuthorityExceedsBinding => "REQUESTED_AUTHORITY_EXCEEDS_BINDING"
    case UnsupportedAuthoritySemantics => "UNSUPPORTED_AUTHORITY_SEMANTICS"
  }

  function ContextName(r: ReasonCode): (name: string)
    requires AboutContext(r)
    ensures 13 <= |name| <= 35
  {
    match r
    case AuthorityContextExpired => "AUTHORITY_CONTEXT_EXPIRED"
    case AuthorityContextRevoked => "AUTHORITY_CONTEXT_REVOKED"
    case AuthorityContextInactive => "AUTHORITY_CONTEXT_INACTIVE"
    case StaleAuthorityGeneration => "STALE_AUTHORITY_GENERATION"
    case InvalidGenerationState => "INVALID_GENERATION_STATE"
    case InvalidTimeWindow => "INVALID_TIME_WINDOW"
  }

  function HolderName(r: ReasonCode): (name: string)
    requires AboutHolder(r)
    ensures 13 <= |name| <= 35
  {
    match r
    case PrincipalInactive => "PRINCIPAL_INACTIVE"
    case OrganizationInactive => "ORGANIZATION_INACTIVE"
    case MembershipInactive => "MEMBERSHIP_INACTIVE"
    case AuthenticatorInactive => "AUTHENTICATOR_INACTIVE"
    case AuthenticatorExpired => "AUTHENTICATOR_EXPIRED"
    case OrganizationMismatch => "ORGANIZATION_MISMATCH"
  }

  function RequirementName(r: ReasonCode): (name: string)
    requires AboutRequirement(r)
    ensures 13 <= |name| <= 35
  {
    match r
    case CapabilityMismatch => "CAPABILITY_MISMATCH"
    case UnsupportedCapabilityVersion => "UNSUPPORTED_CAPABILITY_VERSION"
    case DependencyVectorInvalid => "DEPENDENCY_VECTOR_INVALID"
    case InsufficientEntitlement => "INSUFFICIENT_ENTITLEMENT"
    case InsufficientEvidence => "INSUFFICIENT_EVIDENCE"
    case TrustOrRevocationDenied => "TRUST_OR_REVOCATION_DENIED"
  }

  /** `as_str` */
  function ReasonName(r: ReasonCode): (name: string)
    ensures 13 <= |name| <= 35
  {
    if AboutPolicy(r) then PolicyName(r)
    else if AboutContext(r) then ContextName(r)
    else if AboutHolder(r) then HolderName(r)
    else RequirementName(r)
  }

  function ReasonBytes(r: ReasonCode): bytes {
    Ascii(ReasonName(r))
  }

  /** The length of a name and one of its characters tell the reasons apart. */
  function ReasonNamed(name: bytes): ReasonCode
    requires |name| >= 13
  {
    if |name| == 13 then PolicyDenied
    else if |name| == 18 then PrincipalInactive
    else if |name| == 19 then
      if name[0] == 'M' as int then MembershipInactive
      else if name[0] == 'C' as int then CapabilityMismatch else InvalidTimeWindow
    else if |name| == 21 then
      if name[13] == 'I' as int then OrganizationInactive
      else if name[13] == '_' as int then AuthenticatorExpired
      else if name[13] == 'M' as int then OrganizationMismatch else InsufficientEvidence
    else if |name| == 22 then
      if name[0] == 'A' as int then AuthenticatorInactive else PolicyDigestMismatch
    else if |name| == 24 then
      if name[2] == 'R' as int then CurrentAuthorityProven
      else if name[2] == 'L' as int then PolicyRequiresApproval
      else if name[2] == 'V' as int then InvalidGenerationState else InsufficientEntitlement
    else if |name| == 25 then
      if name[18] == 'E' as int then AuthorityContextExpired
      else if name[18] == 'R' as int then AuthorityContextRevoked else DependencyVectorInvalid
    else if |name| == 26 then
      if name[0] == 'A' as int then AuthorityContextInactive
      else if name[0] == 'S' as int then StaleAuthorityGeneration else TrustOrRevocationDenied
    else if |name| == 30 then UnsupportedCapabilityVersion
    else if |name| == 31 then UnsupportedAuthoritySemantics
    else RequestedAuthorityExceedsBinding
  }

  lemma PolicyNamed(r: ReasonCode)
    requires AboutPolicy(r)
    ensures ReasonNamed(Ascii(PolicyName(r))) == r
  {
  }

  lemma ContextNamed(r: ReasonCode)
    requires AboutContext(r)
    ensures ReasonNamed(Ascii(ContextName(r))) == r
  {
  }

  lemma HolderNamed(r: ReasonCode)
    requires AboutHolder(r)
    ensures ReasonNamed(Ascii(HolderName(r))) == r
  {
  }

  lemma RequirementNamed(r: ReasonCode)
    requires AboutRequirement(r)
    ensures ReasonNamed(Ascii(RequirementName(r))) == r
  {
  }

  lemma NamedByItsName(r: ReasonCode)
    ensures ReasonNamed(ReasonBytes(r)) == r
  {
    hide ReasonNamed, PolicyName, ContextName, HolderName, RequirementName, Ascii;
    if AboutPolicy(r) { PolicyNamed(r); }
    else if AboutContext(r) { ContextNamed(r); }
    else if AboutHolder(r) { HolderNamed(r); }
    else { RequirementNamed(r); }
  }

  // ----- canonical bytes

  function EncodeReasons(rs: seq<ReasonCode>): (out: bytes)
    decreases |rs|
  {
    if rs == [] then [] else EncodeReasons(rs[..|rs| - 1]) + Framed(ReasonBytes(rs[|rs| - 1]))
  }

  function EncodeHeader(r: DecisionReceipt): bytes {
    Framed(Ascii(RECEIPT_DOMAIN)) + (r.receiptId + (r.decisionId + (r.requestId + (r.principalId + (r.organizationId
      + (r.membershipId + (r.authenticatorId + (Framed(r.capabilityId) + (U32(r.capabilityVersion)
      + ([OutcomeCode(r.outcome)] + U32(|r.reasonCodes|)))))))))))
  }

  function EncodeDigests(r: DecisionReceipt): bytes {
    r.authorityContextHash + (r.requestSemanticHash + (r.calSemanticHash + (r.evaluationSnapshotHash
      + (Dependency.EncodeOptional(r.effectiveCapabilityHash) + (r.policyBundleHash + (r.evidenceBundleHash
      + (r.dependencyBundleHash + r.specSha256)))))))
  }

  function EncodeNumbers(r: DecisionReceipt): bytes {
    I64(r.principalGlobalSequence) + (I64(r.organizationDecisionSequence) + (I64(r.principalGlobalRevocationEpoch)
      + (I64(r.organizationRevocationEpoch) + (EncodeGenerations(r.liveGenerations)
      + (I64(r.issuedAtEpochMs) + I64(r.validUntilEpochMs))))))
  }

  /** `encode`: the canonical bytes as one value. */
  function Encode(r: DecisionReceipt): bytes {
    EncodeHeader(r) + (EncodeReasons(r.reasonCodes) + (EncodeDigests(r) + EncodeNumbers(r)))
  }

  /** `encode`: the buffer is appended to, field by field, with a loop over the reasons. */
  method EncodeReceipt(r: DecisionReceipt) returns (output: bytes)
    ensures output == Encode(r)
  {
    hide EncodeHeader, EncodeDigests, EncodeNumbers, Framed, ReasonBytes;
    output := AppendHeader(r);
    var header := output;
    for i := 0 to |r.reasonCodes|
      invariant output == header + EncodeReasons(r.reasonCodes[..i])
    {
      assert r.reasonCodes[..i + 1][..i] == r.reasonCodes[..i];
      output := output + Framed(ReasonBytes(r.reasonCodes[i]));
    }
    assert r.reasonCodes[..|r.reasonCodes|] == r.reasonCodes;
    var digests := AppendDigests(r);
    var numbers := AppendNumbers(r);
    output := output + digests + numbers;
    assert header == EncodeHeader(r);
  }

  method AppendHeader(r: DecisionReceipt) returns (output: bytes)
    ensures output == EncodeHeader(r)
  {
    hide Framed, Ascii, U32;
    output := Framed(Ascii(RECEIPT_DOMAIN));
    output := output + r.receiptId;
    output := output + r.decisionId;
    output := output + r.requestId;
    output := output + r.principalId;
    output := output + r.organizationId;
    output := output + r.membershipId;
    output := output + r.authenticatorId;
    output := output + Framed(r.capabilityId);
    output := output + U32(r.capabilityVersion);
    output := output + [OutcomeCode(r.outcome)];
    output := output + U32(|r.reasonCodes|);
  }

  method AppendDigests(r: DecisionReceipt) returns (output: bytes)
    ensures output == EncodeDigests(r)
  {
    output := r.authorityContextHash;
    output := output + r.requestSemanticHash;
    output := output + r.calSemanticHash;
    output := output + r.evaluationSnapshotHash;
    if r.effectiveCapabilityHash.Some? {
      output := output + [1];
      output := output + r.effectiveCapabilityHash.value;
    } else {
      output := output + [0];
    }
    output := output + r.policyBundleHash;
    output := output + r.evidenceBundleHash;
    output := output + r.dependencyBundleHash;
    output := output + r.specSha256;
  }

  method AppendNumbers(r: DecisionReceipt) returns (output: bytes)
    ensures output == EncodeNumbers(r)
  {
    hide I64, EncodeGenerations;
    output := I64(r.principalGlobalSequence);
    output := output + I64(r.organizationDecisionSequence);
    output := output + I64(r.principalGlobalRevocationEpoch);
    output := output + I64(r.organizationRevocationEpoch);
    output := output + EncodeGenerations(r.liveGenerations);
    output := output + I64(r.issuedAtEpochMs);
    output := output + I64(r.validUntilEpochMs);
  }

  // ----- issue and verify

  predicate Binds(c: CandidateDecision, f: FinalizationState) {
    && c.principalId == f.principalId && c.organizationId == f.organizationId
    && c.membershipId == f.membershipId && c.authenticatorId == f.authenticatorId
  }

  predicate SequencesValid(f: FinalizationState) {
    && f.principalGlobalSequence >= 0 && f.organizationDecisionSequence >= 0
    && f.principalGlobalRevocationEpoch >= 0 && f.organizationRevocationEpoch >= 0
    && NonNegative(f.liveGenerations)
  }

  function IssueError(c: CandidateDecision, f: FinalizationState, m: ReceiptMaterial): Option<ReceiptError> {
    if !Binds(c, f) then Some(FinalizationBindingMismatch)
    else if c.evaluatedGenerations != f.liveGenerations then Some(StaleFinalizationState)
    else if !SequencesValid(f) then Some(InvalidSequenceState)
    else if m.validUntilEpochMs <= m.issuedAtEpochMs then Some(InvalidValidityWindow)
    else if c.outcome == Allow && m.effectiveCapabilityHash.None? then Some(MissingEffectiveCapabilityHash)
    else if c.outcome != Allow && m.effectiveCapabilityHash.Some? then Some(UnexpectedEffectiveCapabilityHash)
    else None
  }

  /** The receipt before its bytes and hash are filled in. */
  function Draft(c: CandidateDecision, f: FinalizationState, m: ReceiptMaterial): DecisionReceipt {
    DecisionReceipt(
      m.receiptId, m.decisionId, c.requestId, c.principalId, c.organizationId, c.membershipId, c.authenticatorId,
      c.capabilityId, c.capabilityVersion, c.outcome, c.reasonCodes, m.authorityContextHash, c.requestSemanticHash,
      m.calSemanticHash, c.evaluationSnapshotHash, m.effectiveCapabilityHash, c.policyBundleHash,
      m.evidenceBundleHash, c.dependencyBundle.digest, m.specSha256, f.principalGlobalSequence,
      f.organizationDecisionSequence, f.principalGlobalRevocationEpoch, f.organizationRevocationEpoch,
      f.liveGenerations, m.issuedAtEpochMs, m.validUntilEpochMs, [], seq(32, _ => 0))
  }

  function Issued(sha: Sha256, c: CandidateDecision, f: FinalizationState, m: ReceiptMaterial): DecisionReceipt {
    var encoded := Encode(Draft(c, f, m));
    Draft(c, f, m).(canonicalBytes := encoded, receiptHash := DomainHash(sha, RECEIPT_HASH_DOMAIN, encoded))
  }

  function IssueSpec(sha: Sha256, c: CandidateDecision, f: FinalizationState, m: ReceiptMaterial):
    Result<DecisionReceipt, ReceiptError>
  {
    var error := IssueError(c, f, m);
    if error.Some? then Err(error.value) else Ok(Issued(sha, c, f, m))
  }

  method Issue(sha: Sha256, c: CandidateDecision, f: FinalizationState, m: ReceiptMaterial)
    returns (r: Result<DecisionReceipt, ReceiptError>)
    ensures r == IssueSpec(sha, c, f, m)
  {
    hide Encode, DomainHash;
    if !Binds(c, f) { return Err(FinalizationBindingMismatch); }
    if c.evaluatedGenerations != f.liveGenerations { return Err(StaleFinalizationState); }
    if !SequencesValid(f) { return Err(InvalidSequenceState); }
    if m.validUntilEpochMs <= m.issuedAtEpochMs { return Err(InvalidValidityWindow); }
    if c.outcome == Allow && m.effectiveCapabilityHash.None? { return Err(MissingEffectiveCapabilityHash); }
    if c.outcome != Allow && m.effectiveCapabilityHash.Some? { return Err(UnexpectedEffectiveCapabilityHash); }
    var receipt := Draft(c, f, m);
    var encoded := EncodeReceipt(receipt);
    receipt := receipt.(canonicalBytes := encoded);
    receipt := receipt.(receiptHash := DomainHash(sha, RECEIPT_HASH_DOMAIN, receipt.canonicalBytes));
    return Ok(receipt);
  }

  predicate Verified(sha: Sha256, r: DecisionReceipt) {
    Encode(r) == r.canonicalBytes && DomainHash(sha, RECEIPT_HASH_DOMAIN, Encode(r)) == r.receiptHash
  }

  method Verify(sha: Sha256, r: DecisionReceipt) returns (error: Option<ReceiptError>)
    ensures error == None <==> Verified(sha, r)
    ensures error.Some? ==> error.value == ReceiptHashMismatch
  {
    hide Encode, DomainHash;
    var encoded := EncodeReceipt(r);
    if encoded != r.canonicalBytes || DomainHash(sha, RECEIPT_HASH_DOMAIN, encoded) != r.receiptHash {
      return Some(ReceiptHashMismatch);
    }
    return None;
  }

  // ----- theorems

  /** The bytes and the hash are not themselves encoded. */
  lemma EncodeIgnoresSeal(r: DecisionReceipt, canonical: bytes, hash: SemanticDigest)
    ensures Encode(r.(canonicalBytes := canonical, receiptHash := hash)) == Encode(r)
  {
    hide Framed, U32, I64, EncodeReasons, EncodeGenerations, Ascii;
  }

  /** What issue returns always verifies, and holds the given values under the given id. */
  lemma IssuedVerifies(sha: Sha256, c: CandidateDecision, f: FinalizationState, m: ReceiptMaterial)
    ensures Verified(sha, Issued(sha, c, f, m))
  {
    hide Encode, DomainHash;
    var d := Draft(c, f, m);
    EncodeIgnoresSeal(d, Encode(d), DomainHash(sha, RECEIPT_HASH_DOMAIN, Encode(d)));
  }

  /** Issue succeeds exactly when the finalization state is the one evaluated, no number is
      negative, the window is not empty, and ALLOW alone carries a capability hash. */
  lemma IssueSucceedsIff(sha: Sha256, c: CandidateDecision, f: FinalizationState, m: ReceiptMaterial)
    ensures IssueSpec(sha, c, f, m).Ok? <==>
            (&& Binds(c, f) && c.evaluatedGenerations == f.liveGenerations && SequencesValid(f)
             && m.issuedAtEpochMs < m.validUntilEpochMs
             && (c.outcome == Allow <==> m.effectiveCapabilityHash.Some?))
  {
    hide Encode, DomainHash, NonNegative;
  }

  lemma {:induction false} ReasonsInjective(a: seq<ReasonCode>, b: seq<ReasonCode>, x: bytes, y: bytes)
    requires |a| == |b| && EncodeReasons(a) + x == EncodeReasons(b) + y
    ensures a == b && x == y
    decreases |a|
  {
    hide Framed, ReasonBytes, ReasonNamed;
    if a == [] {
      assert [] + x == x && [] + y == y;
    } else {
      var n := |a| - 1;
      var fa, fb := Framed(ReasonBytes(a[n])), Framed(ReasonBytes(b[n]));
      assert EncodeReasons(a) + x == EncodeReasons(a[..n]) + (fa + x);
      assert EncodeReasons(b) + y == EncodeReasons(b[..n]) + (fb + y);
      ReasonsInjective(a[..n], b[..n], fa + x, fb + y);
      CancelReason(a[n], x, b[n], y);
      assert a == a[..n] + [a[n]] && b == b[..n] + [b[n]];
    }
  }

  lemma CancelReason(a: ReasonCode, x: bytes, b: ReasonCode, y: bytes)
    requires Framed(ReasonBytes(a)) + x == Framed(ReasonBytes(b)) + y
    ensures a == b && x == y
  {
    hide Framed, ReasonNamed;
    ReasonLength(a);
    ReasonLength(b);
    hide ReasonBytes;
    CancelFramed(ReasonBytes(a), x, ReasonBytes(b), y);
    NamedByItsName(a);
    NamedByItsName(b);
  }

  lemma ReasonLength(r: ReasonCode)
    ensures 13 <= |ReasonBytes(r)| <= 35
  {
    hide ReasonName;
  }

  lemma HeaderInjective(a: DecisionReceipt, x: bytes, b: DecisionReceipt, y: bytes)
    requires |a.reasonCodes| < U32_BOUND && |b.reasonCodes| < U32_BOUND
    requires EncodeHeader(a) + x == EncodeHeader(b) + y
    ensures a.receiptId == b.receiptId && a.decisionId == b.decisionId && a.requestId == b.requestId
    ensures a.principalId == b.principalId && a.organizationId == b.organizationId
    ensures a.membershipId == b.membershipId && a.authenticatorId == b.authenticatorId
    ensures a.capabilityId == b.capabilityId && a.capabilityVersion == b.capabilityVersion
    ensures a.outcome == b.outcome && |a.reasonCodes| == |b.reasonCodes| && x == y
  {
    hide Framed, Ascii, U32, OutcomeCode, IsRegistered;
    var a10, b10 := U32(|a.reasonCodes|) + x, U32(|b.reasonCodes|) + y;
    var a9, b9 := [OutcomeCode(a.outcome)] + a10, [OutcomeCode(b.outcome)] + b10;
    var a8, b8 := U32(a.capabilityVersion) + a9, U32(b.capabilityVersion) + b9;
    var a7, b7 := Framed(a.capabilityId) + a8, Framed(b.capabilityId) + b8;
    var a6, b6 := a.authenticatorId + a7, b.authenticatorId + b7;
    var a5, b5 := a.membershipId + a6, b.membershipId + b6;
    var a4, b4 := a.organizationId + a5, b.organizationId + b5;
    var a3, b3 := a.principalId + a4, b.principalId + b4;
    var a2, b2 := a.requestId + a3, b.requestId + b3;
    var a1, b1 := a.decisionId + a2, b.decisionId + b2;
    var a0, b0 := a.receiptId + a1, b.receiptId + b1;
    HeaderNested(a, x);
    HeaderNested(b, y);
    hide EncodeHeader;
    CancelFixed(Framed(Ascii(RECEIPT_DOMAIN)), a0, Framed(Ascii(RECEIPT_DOMAIN)), b0);
    CancelFixed(a.receiptId, a1, b.receiptId, b1);
    CancelFixed(a.decisionId, a2, b.decisionId, b2);
    CancelFixed(a.requestId, a3, b.requestId, b3);
    CancelFixed(a.principalId, a4, b.principalId, b4);
    CancelFixed(a.organizationId, a5, b.organizationId, b5);
    CancelFixed(a.membershipId, a6, b.membershipId, b6);
    CancelFixed(a.authenticatorId, a7, b.authenticatorId, b7);
    RegisteredLength(a.capabilityId);
    RegisteredLength(b.capabilityId);
    CancelFramed(a.capabilityId, a8, b.capabilityId, b8);
    CancelU32(a.capabilityVersion, a9, b.capabilityVersion, b9);
    CancelFixed([OutcomeCode(a.outcome)], a10, [OutcomeCode(b.outcome)], b10);
    OutcomeCodeInjective(a.outcome, b.outcome);
    CancelU32(|a.reasonCodes|, x, |b.reasonCodes|, y);
  }

  lemma RegisteredLength(id: RegisteredId)
    ensures |id| <= 128
  {
  }

  /** The header followed by more bytes, with each field split off in turn. */
  lemma HeaderNested(r: DecisionReceipt, x: bytes)
    ensures EncodeHeader(r) + x
         == Framed(Ascii(RECEIPT_DOMAIN)) + (r.receiptId + (r.decisionId + (r.requestId + (r.principalId
            + (r.organizationId + (r.membershipId + (r.authenticatorId + (Framed(r.capabilityId)
            + (U32(r.capabilityVersion) + ([OutcomeCode(r.outcome)] + (U32(|r.reasonCodes|) + x)))))))))))
  {
    hide Framed, Ascii, U32, OutcomeCode;
  }

  lemma DigestsInjective(a: DecisionReceipt, x: bytes, b: DecisionReceipt, y: bytes)
    requires EncodeDigests(a) + x == EncodeDigests(b) + y
    ensures a.authorityContextHash == b.authorityContextHash && a.requestSemanticHash == b.requestSemanticHash
    ensures a.calSemanticHash == b.calSemanticHash && a.evaluationSnapshotHash == b.evaluationSnapshotHash
    ensures a.effectiveCapabilityHash == b.effectiveCapabilityHash && a.policyBundleHash == b.policyBundleHash
    ensures a.evidenceBundleHash == b.evidenceBundleHash && a.dependencyBundleHash == b.dependencyBundleHash
    ensures a.specSha256 == b.specSha256 && x == y
  {
    hide Dependency.EncodeOptional;
    var a8, b8 := a.specSha256 + x, b.specSha256 + y;
    var a7, b7 := a.dependencyBundleHash + a8, b.dependencyBundleHash + b8;
    var a6, b6 := a.evidenceBundleHash + a7, b.evidenceBundleHash + b7;
    var a5, b5 := a.policyBundleHash + a6, b.policyBundleHash + b6;
    var oa, ob := Dependency.EncodeOptional(a.effectiveCapabilityHash), Dependency.EncodeOptional(b.effectiveCapabilityHash);
    var a4, b4 := oa + a5, ob + b5;
    var a3, b3 := a.evaluationSnapshotHash + a4, b.evaluationSnapshotHash + b4;
    var a2, b2 := a.calSemanticHash + a3, b.calSemanticHash + b3;
    var a1, b1 := a.requestSemanticHash + a2, b.requestSemanticHash + b2;
    assert EncodeDigests(a) + x == a.authorityContextHash + a1;
    assert EncodeDigests(b) + y == b.authorityContextHash + b1;
    hide EncodeDigests;
    CancelFixed(a.authorityContextHash, a1, b.authorityContextHash, b1);
    CancelFixed(a.requestSemanticHash, a2, b.requestSemanticHash, b2);
    CancelFixed(a.calSemanticHash, a3, b.calSemanticHash, b3);
    CancelFixed(a.evaluationSnapshotHash, a4, b.evaluationSnapshotHash, b4);
    Dependency.CancelOptional(a.effectiveCapabilityHash, a5, b.effectiveCapabilityHash, b5);
    CancelFixed(a.policyBundleHash, a6, b.policyBundleHash, b6);
    CancelFixed(a.evidenceBundleHash, a7, b.evidenceBundleHash, b7);
    CancelFixed(a.dependencyBundleHash, a8, b.dependencyBundleHash, b8);
    CancelFixed(a.specSha256, x, b.specSha256, y);
  }

  lemma NumbersInjective(a: DecisionReceipt, b: DecisionReceipt)
    requires EncodeNumbers(a) == EncodeNumbers(b)
    ensures a.principalGlobalSequence == b.principalGlobalSequence
    ensures a.organizationDecisionSequence == b.organizationDecisionSequence
    ensures a.principalGlobalRevocationEpoch == b.principalGlobalRevocationEpoch
    ensures a.organizationRevocationEpoch == b.organizationRevocationEpoch
    ensures a.liveGenerations == b.liveGenerations
    ensures a.issuedAtEpochMs == b.issuedAtEpochMs && a.validUntilEpochMs == b.validUntilEpochMs
  {
    hide I64, EncodeGenerations;
    var a6, b6 := I64(a.validUntilEpochMs), I64(b.validUntilEpochMs);
    var a5, b5 := I64(a.issuedAtEpochMs) + a6, I64(b.issuedAtEpochMs) + b6;
    var a4, b4 := EncodeGenerations(a.liveGenerations) + a5, EncodeGenerations(b.liveGenerations) + b5;
    var a3, b3 := I64(a.organizationRevocationEpoch) + a4, I64(b.organizationRevocationEpoch) + b4;
    var a2, b2 := I64(a.principalGlobalRevocationEpoch) + a3, I64(b.principalGlobalRevocationEpoch) + b3;
    var a1, b1 := I64(a.organizationDecisionSequence) + a2, I64(b.organizationDecisionSequence) + b2;
    CancelI64(a.principalGlobalSequence, a1, b.principalGlobalSequence, b1);
    CancelI64(a.organizationDecisionSequence, a2, b.organizationDecisionSequence, b2);
    CancelI64(a.principalGlobalRevocationEpoch, a3, b.principalGlobalRevocationEpoch, b3);
    CancelI64(a.organizationRevocationEpoch, a4, b.organizationRevocationEpoch, b4);
    CancelFixed(EncodeGenerations(a.liveGenerations), a5, EncodeGenerations(b.liveGenerations), b5);
    GenerationsInjective(a.liveGenerations, b.liveGenerations);
    CancelI64(a.issuedAtEpochMs, a6, b.issuedAtEpochMs, b6);
    I64Injective(a.validUntilEpochMs, b.validUntilEpochMs);
  }

  /** A receipt can be read back from its bytes: receipts with equal bytes agree in every field
      except the seal, as long as the number of reasons fits its 32-bit length. */
  lemma EncodeInjective(a: DecisionReceipt, b: DecisionReceipt)
    requires |a.reasonCodes| < U32_BOUND && |b.reasonCodes| < U32_BOUND
    requires Encode(a) == Encode(b)
    ensures a.(canonicalBytes := b.canonicalBytes, receiptHash := b.receiptHash) == b
  {
    hide EncodeHeader, EncodeReasons, EncodeDigests, EncodeNumbers, IsRegistered;
    var xa, xb := EncodeDigests(a) + EncodeNumbers(a), EncodeDigests(b) + EncodeNumbers(b);
    HeaderInjective(a, EncodeReasons(a.reasonCodes) + xa, b, EncodeReasons(b.reasonCodes) + xb);
    ReasonsInjective(a.reasonCodes, b.reasonCodes, xa, xb);
    DigestsInjective(a, EncodeNumbers(a), b, EncodeNumbers(b));
    NumbersInjective(a, b);
  }

  /** Two verified receipts with one hash are one receipt, or what is hashed for each is a collision. */
  lemma HashIdentifiesReceipt(sha: Sha256, a: DecisionReceipt, b: DecisionReceipt)
    requires |a.reasonCodes| < U32_BOUND && |b.reasonCodes| < U32_BOUND
    requires Verified(sha, a) && Verified(sha, b) && a.receiptHash == b.receiptHash
    requires |a.canonicalBytes| < U64_BOUND && |b.canonicalBytes| < U64_BOUND
    ensures || a == b
            || (HashInput(RECEIPT_HASH_DOMAIN, a.canonicalBytes) != HashInput(RECEIPT_HASH_DOMAIN, b.canonicalBytes)
                && sha(HashInput(RECEIPT_HASH_DOMAIN, a.canonicalBytes)) == sha(HashInput(RECEIPT_HASH_DOMAIN, b.canonicalBytes)))
  {
    hide Encode, IsRegistered, HashInput, IsAscii;
    var x, y := HashInput(RECEIPT_HASH_DOMAIN, Encode(a)), HashInput(RECEIPT_HASH_DOMAIN, Encode(b));
    assert sha(x) == sha(y);
    if x == y {
      DomainIsAscii();
      HashInputInjective(RECEIPT_HASH_DOMAIN, Encode(a), RECEIPT_HASH_DOMAIN, Encode(b));
      EncodeInjective(a, b);
    }
  }

  lemma DomainIsAscii()
    ensures IsAscii(RECEIPT_HASH_DOMAIN) && |RECEIPT_HASH_DOMAIN| < U64_BOUND
  {
  }
}
