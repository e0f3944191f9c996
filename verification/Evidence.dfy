/** Selecting the evidence and the trust facts a decision rests on (evidence.rs, domain.rs). */
module Evidence {
  import opened Bytes
  import opened Order
  import opened Wrappers
  import opened Selection

  // ----- rows, with the columns the decision reads

  datatype Assertion = Assertion(
    assertionId: StableId, organizationId: StableId, assertionType: RegisteredId, objectRef: RegisteredId,
    objectDigest: SemanticDigest, issuerClass: RegisteredId, payloadDigest: SemanticDigest,
    provenanceDigest: SemanticDigest, issuedAtEpochMs: i64, validUntilEpochMs: Option<i64>,
    revokedAtEpochMs: Option<i64>)

  datatype TrustFact = TrustFact(
    factId: StableId, organizationId: Option<StableId>, subjectType: RegisteredId, subjectRef: RegisteredId,
    factType: RegisteredId, factValue: RegisteredId, sourceDigest: SemanticDigest, observedAtEpochMs: i64,
    validUntilEpochMs: Option<i64>)

  datatype RevocationFact = RevocationFact(
    revocationFactId: StableId, organizationId: Option<StableId>, targetType: RegisteredId, targetRef: RegisteredId,
    reasonCode: RegisteredId, effectiveAtEpochMs: i64)

  predicate Before(at: i64, limit: Option<i64>) {
    limit.Some? ==> at < limit.value
  }

  predicate AssertionCurrent(a: Assertion, at: i64) {
    a.issuedAtEpochMs <= at && Before(at, a.validUntilEpochMs) && Before(at, a.revokedAtEpochMs)
  }

  predicate FactCurrent(f: TrustFact, at: i64) {
    f.observedAtEpochMs <= at && Before(at, f.validUntilEpochMs)
  }

  predicate InOrganization(owner: Option<StableId>, organizationId: StableId) {
    owner.Some? ==> owner.value == organizationId
  }

  predicate DistinctAssertionIds(rows: seq<Assertion>) {
    forall i, j :: 0 <= i < j < |rows| ==> rows[i].assertionId != rows[j].assertionId
  }

  predicate DistinctFactIds(rows: seq<TrustFact>) {
    forall i, j :: 0 <= i < j < |rows| ==> rows[i].factId != rows[j].factId
  }

  // ----- evidence

  datatype Requirement = Requirement(assertionType: RegisteredId, objectRef: RegisteredId, objectDigest: SemanticDigest)

  type Allowlist = map<RegisteredId, set<RegisteredId>>

  predicate IssuerPermitted(allowlist: Allowlist, assertionType: RegisteredId, issuerClass: RegisteredId) {
    assertionType in allowlist && issuerClass in allowlist[assertionType]
  }

  class EvidenceIssuerAllowlist {
    var allowed: Allowlist

    constructor ()
      ensures allowed == map[]
    {
      allowed := map[];
    }

    /** `allow`: afterwards exactly one more pair is permitted, unless it already was. */
    method Allow(assertionType: RegisteredId, issuerClass: RegisteredId) returns (added: bool)
      modifies this
      ensures added == !IssuerPermitted(old(allowed), assertionType, issuerClass)
      ensures forall t, c :: IssuerPermitted(allowed, t, c) <==>
                IssuerPermitted(old(allowed), t, c) || (t == assertionType && c == issuerClass)
    {
      var classes := if assertionType in allowed then allowed[assertionType] else {};
      added := issuerClass !in classes;
      allowed := allowed[assertionType := classes + {issuerClass}];
    }
  }

  /** What every requirement of one decision is checked against. */
  datatype Setting = Setting(organizationId: StableId, assertions: seq<Assertion>, allowlist: Allowlist, at: i64)

  predicate Satisfies(s: Setting, r: Requirement, a: Assertion) {
    && a.organizationId == s.organizationId && a.assertionType == r.assertionType
    && a.objectRef == r.objectRef && a.objectDigest == r.objectDigest
    && AssertionCurrent(a, s.at) && IssuerPermitted(s.allowlist, a.assertionType, a.issuerClass)
  }

  predicate LowerAssertion(x: Assertion, y: Assertion) { LexLess(x.assertionId, y.assertionId) }

  function ChosenAssertion(s: Setting, r: Requirement): (c: Option<Assertion>)
    ensures c.Some? ==> c.value in s.assertions && Satisfies(s, r, c.value)
    ensures c.None? ==> forall a :: a in s.assertions ==> !Satisfies(s, r, a)
  {
    Best(s.assertions, a => Satisfies(s, r, a), LowerAssertion)
  }

  datatype EvidenceKey = EvidenceKey(assertionType: RegisteredId, objectRef: RegisteredId)

  function KeyOf(r: Requirement): EvidenceKey {
    EvidenceKey(r.assertionType, r.objectRef)
  }

  predicate EvidenceKeyLess(a: EvidenceKey, b: EvidenceKey) {
    LexLess(a.assertionType, b.assertionType) || (a.assertionType == b.assertionType && LexLess(a.objectRef, b.objectRef))
  }

  lemma EvidenceKeyStrictTotal()
    ensures StrictTotal(EvidenceKeyLess)
  {
    hide LexLess;
    LexStrictTotal();
    forall a, b ensures a == b || EvidenceKeyLess(a, b) || EvidenceKeyLess(b, a) {
      assert a.assertionType == b.assertionType || LexLess(a.assertionType, b.assertionType) || LexLess(b.assertionType, a.assertionType);
      assert a.objectRef == b.objectRef || LexLess(a.objectRef, b.objectRef) || LexLess(b.objectRef, a.objectRef);
    }
  }

  datatype EvidenceError = MissingOrUntrusted(assertionType: RegisteredId) | ContradictoryEvidence

  type Selected = map<EvidenceKey, Assertion>

  /** The selection loop over the first `n` requirements. */
  function Collect(s: Setting, rs: seq<Requirement>, n: nat): Result<Selected, EvidenceError>
    requires n <= |rs|
  {
    if n == 0 then Ok(map[])
    else
      var selected :- Collect(s, rs, n - 1);
      var r := rs[n - 1];
      var chosen := ChosenAssertion(s, r);
      if chosen.None? then Err(MissingOrUntrusted(r.assertionType))
      else if KeyOf(r) in selected && selected[KeyOf(r)].objectDigest != chosen.value.objectDigest then Err(ContradictoryEvidence)
      else Ok(selected[KeyOf(r) := chosen.value])
  }

  /** No two requirements ask for different digests of one object. */
  predicate Agree(rs: seq<Requirement>) {
    forall i, j :: 0 <= i < |rs| && 0 <= j < |rs| && KeyOf(rs[i]) == KeyOf(rs[j]) ==> rs[i] == rs[j]
  }

  predicate AllSatisfiable(s: Setting, rs: seq<Requirement>) {
    forall i :: 0 <= i < |rs| ==> ChosenAssertion(s, rs[i]).Some?
  }

  ghost predicate SelectedFor(s: Setting, rs: seq<Requirement>, m: Selected) {
    && (forall k :: k in m ==> exists i :: 0 <= i < |rs| && KeyOf(rs[i]) == k)
    && (forall i :: 0 <= i < |rs| ==> KeyOf(rs[i]) in m && ChosenAssertion(s, rs[i]) == Some(m[KeyOf(rs[i])]))
  }

  /** One more requirement, with a chosen assertion, agrees with the others iff its digest does. */
  lemma AgreeExtend(s: Setting, p: seq<Requirement>, r: Requirement, m: Selected)
    requires SelectedFor(s, p, m) && Agree(p) && ChosenAssertion(s, r).Some?
    ensures Agree(p + [r]) <==> (KeyOf(r) in m ==> m[KeyOf(r)].objectDigest == ChosenAssertion(s, r).value.objectDigest)
  {
    hide ChosenAssertion, Satisfies, IsRegistered;
    var q, n := p + [r], |p|;
    assert q[n] == r && forall i :: 0 <= i < n ==> q[i] == p[i];
    ChosenHasDigest(s, r);
    forall i | 0 <= i < n ensures ChosenAssertion(s, p[i]).value.objectDigest == p[i].objectDigest {
      ChosenHasDigest(s, p[i]);
    }
    if KeyOf(r) in m {
      var i :| 0 <= i < n && KeyOf(p[i]) == KeyOf(r);
      assert Agree(q) ==> q[i] == q[n];
      assert m[KeyOf(r)].objectDigest == r.objectDigest ==> forall k :: 0 <= k < n && KeyOf(p[k]) == KeyOf(r) ==> p[k] == r;
    } else {
      assert forall k :: 0 <= k < n ==> KeyOf(p[k]) != KeyOf(r);
    }
  }

  lemma SelectedExtend(s: Setting, p: seq<Requirement>, r: Requirement, m: Selected)
    requires SelectedFor(s, p, m) && Agree(p + [r]) && ChosenAssertion(s, r).Some?
    ensures SelectedFor(s, p + [r], m[KeyOf(r) := ChosenAssertion(s, r).value])
  {
    hide ChosenAssertion, IsRegistered;
    var q, n := p + [r], |p|;
    assert q[n] == r && forall i :: 0 <= i < n ==> q[i] == p[i];
    var m' := m[KeyOf(r) := ChosenAssertion(s, r).value];
    forall k | k in m' ensures exists i :: 0 <= i < |q| && KeyOf(q[i]) == k {
      if k == KeyOf(r) {
        assert KeyOf(q[n]) == k;
      } else {
        var i :| 0 <= i < n && KeyOf(p[i]) == k;
        assert KeyOf(q[i]) == k;
      }
    }
  }

  /** The loop succeeds iff every requirement has a matching assertion and no two contradict;
      then it selects, for each requirement, the matching assertion with the lowest id. */
  lemma {:induction false} CollectExact(s: Setting, rs: seq<Requirement>, n: nat)
    requires n <= |rs|
    ensures Collect(s, rs, n).Ok? <==> AllSatisfiable(s, rs[..n]) && Agree(rs[..n])
    ensures Collect(s, rs, n).Ok? ==> SelectedFor(s, rs[..n], Collect(s, rs, n).value)
  {
    hide ChosenAssertion, SelectedFor, Agree;
    if n == 0 {
      EmptySelection(s);
      assert rs[..0] == [];
    } else {
      CollectExact(s, rs, n - 1);
      var p, q, r := rs[..n - 1], rs[..n], rs[n - 1];
      assert q == p + [r];
      assert forall i :: 0 <= i < n - 1 ==> q[i] == p[i];
      assert q[n - 1] == r;
      AgreePrefix(p, r);
      if Collect(s, rs, n - 1).Ok? && ChosenAssertion(s, r).Some? {
        AgreeExtend(s, p, r, Collect(s, rs, n - 1).value);
        if Agree(q) { SelectedExtend(s, p, r, Collect(s, rs, n - 1).value); }
      }
    }
  }

  lemma EmptySelection(s: Setting)
    ensures SelectedFor(s, [], map[]) && Agree([])
  {
  }

  lemma AgreePrefix(p: seq<Requirement>, r: Requirement)
    ensures Agree(p + [r]) ==> Agree(p)
  {
    assert forall i :: 0 <= i < |p| ==> (p + [r])[i] == p[i];
  }

  lemma ChosenHasDigest(s: Setting, r: Requirement)
    ensures ChosenAssertion(s, r).Some? ==> ChosenAssertion(s, r).value.objectDigest == r.objectDigest
  {
  }

  datatype VerifiedEvidence = VerifiedEvidence(
    assertionIds: set<StableId>, assertionTypes: set<RegisteredId>, evidenceBundleHash: SemanticDigest)

  const EVIDENCE_DOMAIN := "ANAR-VERIFIED-EVIDENCE-BUNDLE-1"

  function EvidenceRecord(k: EvidenceKey, a: Assertion): bytes {
    a.assertionId + Framed(k.assertionType) + Framed(k.objectRef) + a.objectDigest + a.payloadDigest + a.provenanceDigest
  }

  function EvidenceRecords(m: Selected, keys: seq<EvidenceKey>): bytes
    requires forall k :: k in keys ==> k in m
  {
    if keys == [] then []
    else
      assert keys[0] in keys && forall k :: k in keys[1..] ==> k in keys;
      EvidenceRecord(keys[0], m[keys[0]]) + EvidenceRecords(m, keys[1..])
  }

  function SortedEvidenceKeys(m: Selected): (r: seq<EvidenceKey>)
    ensures Elements(r) == m.Keys && forall k :: k in r ==> k in m
  {
    EvidenceKeyStrictTotal();
    var r := Sorted(EvidenceKeyLess, m.Keys);
    assert forall k :: k in r ==> k in Elements(r);
    r
  }

  function Verified(sha: Sha256, m: Selected): VerifiedEvidence {
    var keys := SortedEvidenceKeys(m);
    VerifiedEvidence(
      set k | k in m :: m[k].assertionId,
      set k | k in m :: k.assertionType,
      DomainHash(sha, EVIDENCE_DOMAIN, U32(|m|) + EvidenceRecords(m, keys)))
  }

  function Verification(sha: Sha256, s: Setting, rs: seq<Requirement>): Result<VerifiedEvidence, EvidenceError> {
    var m :- Collect(s, rs, |rs|);
    Ok(Verified(sha, m))
  }

  /** `verify_required_evidence` */
  method VerifyRequiredEvidence(sha: Sha256, s: Setting, rs: seq<Requirement>) returns (r: Result<VerifiedEvidence, EvidenceError>)
    ensures r == Verification(sha, s, rs)
  {
    hide Satisfies, ChosenAssertion, DomainHash;
    if rs == [] {
      assert SortedEvidenceKeys(map[]) == [];
      return Ok(Verified(sha, map[]));
    }
    var selected: Selected := map[];
    for n := 0 to |rs|
      invariant Collect(s, rs, n) == Ok(selected)
    {
      var requirement := rs[n];
      var candidate := ChosenAssertion(s, requirement);
      if candidate.None? {
        CollectStops(s, rs, n + 1);
        return Err(MissingOrUntrusted(requirement.assertionType));
      }
      var key := KeyOf(requirement);
      if key in selected && selected[key].objectDigest != candidate.value.objectDigest {
        CollectStops(s, rs, n + 1);
        return Err(ContradictoryEvidence);
      }
      selected := selected[key := candidate.value];
    }
    var verified := Summarize(sha, selected);
    return Ok(verified);
  }

  lemma {:induction false} CollectStops(s: Setting, rs: seq<Requirement>, n: nat)
    requires n <= |rs| && Collect(s, rs, n).Err?
    ensures Collect(s, rs, |rs|) == Collect(s, rs, n)
    decreases |rs| - n
  {
    if n < |rs| { CollectStops(s, rs, n + 1); }
  }

  lemma RecordsFrom(m: Selected, keys: seq<EvidenceKey>, i: nat)
    requires i < |keys| && forall k :: k in keys ==> k in m
    ensures (forall k :: k in keys[i..] ==> k in m) && (forall k :: k in keys[i + 1..] ==> k in m) && keys[i] in m
    ensures EvidenceRecords(m, keys[i..]) == EvidenceRecord(keys[i], m[keys[i]]) + EvidenceRecords(m, keys[i + 1..])
  {
    hide EvidenceRecord, IsRegistered;
    assert keys[i] in keys && keys[i..][1..] == keys[i + 1..];
  }

  lemma NoRecords(m: Selected, encoded: bytes)
    ensures encoded + EvidenceRecords(m, []) == encoded
  {
  }

  /** The second loop: what was selected, and the hash of its records in key order. */
  method Summarize(sha: Sha256, m: Selected) returns (r: VerifiedEvidence)
    ensures r == Verified(sha, m)
  {
    hide DomainHash, EvidenceRecord, SortedEvidenceKeys, U32, IsRegistered, EvidenceRecords;
    var keys := SortedEvidenceKeys(m);
    var encoded := U32(|m|);
    for i := 0 to |keys|
      invariant forall k :: k in keys[i..] ==> k in m
      invariant encoded + EvidenceRecords(m, keys[i..]) == U32(|m|) + EvidenceRecords(m, keys)
    {
      var k := keys[i];
      assert k in keys;
      RecordsFrom(m, keys, i);
      ghost var before, rest := encoded, EvidenceRecords(m, keys[i + 1..]);
      encoded := encoded + EvidenceRecord(k, m[k]);
      assert encoded + rest == before + (EvidenceRecord(k, m[k]) + rest);
    }
    NoRecords(m, encoded);
    assert keys[|keys|..] == [] && keys[0..] == keys;
    r := VerifiedEvidence(
      set k | k in m :: m[k].assertionId, set k | k in m :: k.assertionType, DomainHash(sha, EVIDENCE_DOMAIN, encoded));
  }

  // ----- trust

  datatype TrustQuery = TrustQuery(
    organizationId: StableId, subjectType: RegisteredId, subjectRef: RegisteredId,
    requiredFactTypes: set<RegisteredId>, freshnessNotBeforeEpochMs: i64, evaluatedAtEpochMs: i64)

  datatype TrustError = EffectivelyRevoked(reasonCode: RegisteredId) | MissingOrStaleFact(factType: RegisteredId)

  predicate Revokes(q: TrustQuery, r: RevocationFact) {
    && InOrganization(r.organizationId, q.organizationId)
    && r.targetType == q.subjectType && r.targetRef == q.subjectRef
    && r.effectiveAtEpochMs <= q.evaluatedAtEpochMs
  }

  predicate LowerRevocation(x: RevocationFact, y: RevocationFact) { LexLess(x.revocationFactId, y.revocationFactId) }

  predicate Supports(q: TrustQuery, factType: RegisteredId, f: TrustFact) {
    && InOrganization(f.organizationId, q.organizationId)
    && f.subjectType == q.subjectType && f.subjectRef == q.subjectRef && f.factType == factType
    && f.observedAtEpochMs >= q.freshnessNotBeforeEpochMs && FactCurrent(f, q.evaluatedAtEpochMs)
  }

  /** `max_by_key((observed, id))` keeps the last of equal maxima. */
  predicate NotOlderFact(x: TrustFact, y: TrustFact) {
    x.observedAtEpochMs > y.observedAtEpochMs
    || (x.observedAtEpochMs == y.observedAtEpochMs && !LexLess(x.factId, y.factId))
  }

  function ChosenFact(q: TrustQuery, facts: seq<TrustFact>, factType: RegisteredId): (c: Option<TrustFact>)
    ensures c.Some? ==> c.value in facts && Supports(q, factType, c.value)
    ensures c.None? ==> forall f :: f in facts ==> !Supports(q, factType, f)
  {
    Best(facts, f => Supports(q, factType, f), NotOlderFact)
  }

  function FirstRevocation(q: TrustQuery, revocations: seq<RevocationFact>): (c: Option<RevocationFact>)
    ensures c.Some? <==> exists r :: r in revocations && Revokes(q, r)
  {
    Best(revocations, r => Revokes(q, r), LowerRevocation)
  }

  type ChosenFacts = map<RegisteredId, TrustFact>

  predicate RegisteredLess(a: RegisteredId, b: RegisteredId) { LexLess(a, b) }

  lemma RegisteredStrictTotal()
    ensures StrictTotal(RegisteredLess)
  {
    hide LexLess, IsRegistered;
    LexStrictTotal();
    forall a: RegisteredId, b: RegisteredId ensures a == b || RegisteredLess(a, b) || RegisteredLess(b, a) {
      assert a == b || LexLess(a, b) || LexLess(b, a);
    }
  }

  function SortedTypes(s: set<RegisteredId>): (r: seq<RegisteredId>)
    ensures StrictlySorted(RegisteredLess, r) && Elements(r) == s && |r| == |s|
  {
    RegisteredStrictTotal();
    Sorted(RegisteredLess, s)
  }

  /** The first required type, in ascending order, that has no supporting fact. */
  function Missing(q: TrustQuery, facts: seq<TrustFact>, types: seq<RegisteredId>): (r: Option<RegisteredId>)
    ensures r.None? <==> forall t :: t in types ==> ChosenFact(q, facts, t).Some?
  {
    if types == [] then None
    else if ChosenFact(q, facts, types[0]).None? then Some(types[0])
    else Missing(q, facts, types[1..])
  }

  function Choices(q: TrustQuery, facts: seq<TrustFact>): ChosenFacts {
    map t | t in q.requiredFactTypes && ChosenFact(q, facts, t).Some? :: ChosenFact(q, facts, t).value
  }

  datatype VerifiedTrust = VerifiedTrust(
    factIds: set<StableId>, facts: set<(RegisteredId, RegisteredId)>, revocationWatermark: SemanticDigest)

  const WATERMARK_DOMAIN := "ANAR-TRUST-REVOCATION-WATERMARK-1"

  function TrustRecord(t: RegisteredId, f: TrustFact): bytes {
    f.factId + Framed(t) + Framed(f.factValue) + f.sourceDigest + I64(f.observedAtEpochMs)
  }

  function TrustRecords(m: ChosenFacts, types: seq<RegisteredId>): bytes
    requires forall t :: t in types ==> t in m
  {
    if types == [] then []
    else
      assert types[0] in types && forall t :: t in types[1..] ==> t in types;
      TrustRecord(types[0], m[types[0]]) + TrustRecords(m, types[1..])
  }

  function Trusted(sha: Sha256, m: ChosenFacts): VerifiedTrust {
    var types := SortedTypes(m.Keys);
    assert forall t :: t in types ==> t in Elements(types);
    VerifiedTrust(
      set t | t in m :: m[t].factId,
      set t | t in m :: (t, m[t].factValue),
      DomainHash(sha, WATERMARK_DOMAIN, U32(|m|) + TrustRecords(m, types)))
  }

  function Resolution(sha: Sha256, q: TrustQuery, facts: seq<TrustFact>, revocations: seq<RevocationFact>): Result<VerifiedTrust, TrustError> {
    var revoked := FirstRevocation(q, revocations);
    if revoked.Some? then Err(EffectivelyRevoked(revoked.value.reasonCode))
    else
      var missing := Missing(q, facts, SortedTypes(q.requiredFactTypes));
      if missing.Some? then Err(MissingOrStaleFact(missing.value)) else Ok(Trusted(sha, Choices(q, facts)))
  }

  /** `resolve_trust_and_revocation` */
  method ResolveTrustAndRevocation(sha: Sha256, q: TrustQuery, facts: seq<TrustFact>, revocations: seq<RevocationFact>)
    returns (r: Result<VerifiedTrust, TrustError>)
    ensures r == Resolution(sha, q, facts, revocations)
  {
    hide ChosenFact, DomainHash, Trusted, FirstRevocation;
    var revoked := FirstRevocation(q, revocations);
    if revoked.Some? {
      return Err(EffectivelyRevoked(revoked.value.reasonCode));
    }
    var missing, selected := SelectFacts(q, facts);
    if missing.Some? {
      return Err(MissingOrStaleFact(missing.value));
    }
    var trusted := SummarizeTrust(sha, selected);
    return Ok(trusted);
  }

  /** The selection loop: the first required type without a fact, or the fact chosen for each. */
  method SelectFacts(q: TrustQuery, facts: seq<TrustFact>) returns (missing: Option<RegisteredId>, selected: ChosenFacts)
    ensures missing == Missing(q, facts, SortedTypes(q.requiredFactTypes))
    ensures missing == None ==> selected == Choices(q, facts)
  {
    hide ChosenFact, RegisteredLess, IsRegistered, SortedTypes;
    var types := SortedTypes(q.requiredFactTypes);
    missing, selected := None, map[];
    for i := 0 to |types|
      invariant missing == None && Missing(q, facts, types[i..]) == Missing(q, facts, types)
      invariant forall j :: 0 <= j < i ==> types[j] in selected
      invariant forall t :: t in selected ==> t in q.requiredFactTypes && ChosenFact(q, facts, t) == Some(selected[t])
    {
      assert types[i] in Elements(types) && types[i..][1..] == types[i + 1..];
      var fact := ChosenFact(q, facts, types[i]);
      if fact.None? {
        return Some(types[i]), selected;
      }
      selected := selected[types[i] := fact.value];
    }
    forall t | t in q.requiredFactTypes ensures t in selected {
      assert t in Elements(types);
    }
  }

  lemma TrustRecordsFrom(m: ChosenFacts, types: seq<RegisteredId>, i: nat)
    requires i < |types| && forall t :: t in types ==> t in m
    ensures (forall t :: t in types[i..] ==> t in m) && (forall t :: t in types[i + 1..] ==> t in m) && types[i] in m
    ensures TrustRecords(m, types[i..]) == TrustRecord(types[i], m[types[i]]) + TrustRecords(m, types[i + 1..])
  {
    hide TrustRecord, IsRegistered;
    assert types[i] in types && types[i..][1..] == types[i + 1..];
  }

  lemma NoTrustRecords(m: ChosenFacts, encoded: bytes)
    ensures encoded + TrustRecords(m, []) == encoded
  {
  }

  method SummarizeTrust(sha: Sha256, m: ChosenFacts) returns (r: VerifiedTrust)
    ensures r == Trusted(sha, m)
  {
    hide DomainHash, TrustRecord, RegisteredLess, IsRegistered, TrustRecords, U32;
    var types := SortedTypes(m.Keys);
    assert forall t :: t in types <==> t in Elements(types);
    var encoded := U32(|m|);
    for i := 0 to |types|
      invariant forall t :: t in types[i..] ==> t in m
      invariant encoded + TrustRecords(m, types[i..]) == U32(|m|) + TrustRecords(m, types)
    {
      var t := types[i];
      TrustRecordsFrom(m, types, i);
      ghost var before, rest := encoded, TrustRecords(m, types[i + 1..]);
      encoded := encoded + TrustRecord(t, m[t]);
      assert encoded + rest == before + (TrustRecord(t, m[t]) + rest);
    }
    NoTrustRecords(m, encoded);
    assert types[|types|..] == [] && types[0..] == types;
    r := VerifiedTrust(
      set t | t in m :: m[t].factId, set t | t in m :: (t, m[t].factValue), DomainHash(sha, WATERMARK_DOMAIN, encoded));
  }

  // ----- independence of the order of rows

  /** No matching assertion has a lower id than the chosen one, repeated ids or not. */
  lemma {:induction false} LowestIsChosen(rows: seq<Assertion>, ok: Assertion -> bool, y: Assertion)
    requires y in rows && ok(y)
    ensures Best(rows, ok, LowerAssertion).Some? && !LowerAssertion(y, Best(rows, ok, LowerAssertion).value)
    decreases |rows|
  {
    hide LexLess;
    LexStrictTotal();
    var n := |rows| - 1;
    assert rows == rows[..n] + [rows[n]];
    var before := Best(rows[..n], ok, LowerAssertion);
    if y in rows[..n] { LowestIsChosen(rows[..n], ok, y); }
    assert !LowerAssertion(y, y);
    forall z: Assertion ensures LowerAssertion(y, rows[n]) && LowerAssertion(rows[n], z) ==> LowerAssertion(y, z) {
    }
  }

  /** The id of the chosen assertion depends on the rows as a set alone. */
  lemma ChosenIdSame(s: Setting, r: Requirement, rows: seq<Assertion>)
    requires Elements(s.assertions) == Elements(rows)
    ensures var c, d := ChosenAssertion(s, r), ChosenAssertion(s.(assertions := rows), r);
            c.Some? == d.Some? && (c.Some? ==> c.value.assertionId == d.value.assertionId)
  {
    hide LexLess;
    LexStrictTotal();
    var t := s.(assertions := rows);
    var f, g := (a: Assertion) => Satisfies(s, r, a), (a: Assertion) => Satisfies(t, r, a);
    var c, d := ChosenAssertion(s, r), ChosenAssertion(t, r);
    assert forall a :: a in s.assertions <==> a in Elements(s.assertions);
    assert forall a :: a in rows <==> a in Elements(rows);
    if c.Some? { LowestIsChosen(rows, g, c.value); }
    if d.Some? { LowestIsChosen(s.assertions, f, d.value); }
    if c.Some? { LexTrichotomy(c.value.assertionId, d.value.assertionId); }
  }

  /** Which row is chosen does depend on the order: of two different acceptable assertions with
      one id the first one wins. */
  lemma SharedIdsMakeOrderMatter(s: Setting, r: Requirement, x: Assertion, y: Assertion)
    requires x != y && x.assertionId == y.assertionId && Satisfies(s, r, x) && Satisfies(s, r, y)
    ensures ChosenAssertion(s.(assertions := [x, y]), r) == Some(x)
    ensures ChosenAssertion(s.(assertions := [y, x]), r) == Some(y)
  {
    var ok, beats := (a: Assertion) => Satisfies(s, r, a), LowerAssertion;
    LexTrichotomy(x.assertionId, y.assertionId);
    assert !LowerAssertion(x, y) && !LowerAssertion(y, x);
    ChosenIsBest(s, r, [x, y]);
    ChosenIsBest(s, r, [y, x]);
    FirstOfTwo(x, y, ok, beats);
    FirstOfTwo(y, x, ok, beats);
  }

  lemma ChosenIsBest(s: Setting, r: Requirement, rows: seq<Assertion>)
    ensures ChosenAssertion(s.(assertions := rows), r) == Best(rows, (a: Assertion) => Satisfies(s, r, a), LowerAssertion)
  {
    var t := s.(assertions := rows);
    SameTest(rows, (a: Assertion) => Satisfies(t, r, a), (a: Assertion) => Satisfies(s, r, a), LowerAssertion);
  }

  lemma AssertionIdsDecide(rows: seq<Assertion>)
    requires DistinctAssertionIds(rows)
    ensures NoRepeats(rows) && Decides(LowerAssertion, Elements(rows))
  {
    hide LexLess;
    LexStrictTotal();
    forall x, y | x in Elements(rows) && y in Elements(rows) && x != y ensures x.assertionId != y.assertionId {
      var i :| 0 <= i < |rows| && rows[i] == x;
      var j :| 0 <= j < |rows| && rows[j] == y;
    }
    forall x: Assertion, y: Assertion ensures x.assertionId == y.assertionId || LowerAssertion(x, y) || LowerAssertion(y, x) {
      assert x.assertionId == y.assertionId || LexLess(x.assertionId, y.assertionId) || LexLess(y.assertionId, x.assertionId);
    }
    forall x: Assertion, y: Assertion ensures !(LowerAssertion(x, y) && LowerAssertion(y, x)) {
      assert !LexLess(x.assertionId, x.assertionId);
    }
    forall x: Assertion, y: Assertion, z: Assertion | LowerAssertion(x, y) && LowerAssertion(y, z) ensures LowerAssertion(x, z) {
      assert LexLess(x.assertionId, y.assertionId) && LexLess(y.assertionId, z.assertionId);
    }
  }

  lemma FactIdsDecide(rows: seq<TrustFact>)
    requires DistinctFactIds(rows)
    ensures NoRepeats(rows) && Decides(NotOlderFact, Elements(rows))
  {
    hide LexLess;
    LexStrictTotal();
    forall x, y | x in Elements(rows) && y in Elements(rows) && x != y ensures x.factId != y.factId {
      var i :| 0 <= i < |rows| && rows[i] == x;
      var j :| 0 <= j < |rows| && rows[j] == y;
    }
    forall x: TrustFact, y: TrustFact ensures x.factId == y.factId || (LexLess(x.factId, y.factId) <==> !LexLess(y.factId, x.factId)) {
      assert x.factId == y.factId || LexLess(x.factId, y.factId) || LexLess(y.factId, x.factId);
      assert LexLess(x.factId, y.factId) && LexLess(y.factId, x.factId) ==> LexLess(x.factId, x.factId);
    }
    forall x, y, z | x in Elements(rows) && y in Elements(rows) && z in Elements(rows) && x != y && y != z && x != z
                     && NotOlderFact(x, y) && NotOlderFact(y, z)
      ensures NotOlderFact(x, z)
    {
      assert LexLess(x.factId, z.factId) && !LexLess(x.factId, y.factId) ==> LexLess(y.factId, z.factId) by {
        assert LexLess(y.factId, x.factId) || LexLess(x.factId, y.factId);
      }
    }
  }

  lemma ChosenAssertionDependsOnElements(s: Setting, r: Requirement, rows: seq<Assertion>)
    requires DistinctAssertionIds(s.assertions) && DistinctAssertionIds(rows) && Elements(s.assertions) == Elements(rows)
    ensures ChosenAssertion(s, r) == ChosenAssertion(s.(assertions := rows), r)
  {
    AssertionIdsDecide(s.assertions);
    AssertionIdsDecide(rows);
    var t := s.(assertions := rows);
    var f, g := a => Satisfies(s, r, a), a => Satisfies(t, r, a);
    assert forall a :: f(a) == g(a);
    BestDependsOnElements(s.assertions, rows, f, LowerAssertion);
    SameTest(rows, f, g, LowerAssertion);
  }

  lemma {:induction false} SameTest<T(!new)>(rows: seq<T>, f: T -> bool, g: T -> bool, beats: (T, T) -> bool)
    requires forall x :: f(x) == g(x)
    ensures Best(rows, f, beats) == Best(rows, g, beats)
  {
    if rows != [] { SameTest(rows[..|rows| - 1], f, g, beats); }
  }

  /** With distinct ids, the verified evidence does not depend on the order of the assertions
      or of the requirements; a failure in one order is a failure in every order. */
  lemma VerificationOrderIndependent(sha: Sha256, s: Setting, rs: seq<Requirement>, rows: seq<Assertion>, qs: seq<Requirement>)
    requires DistinctAssertionIds(s.assertions) && DistinctAssertionIds(rows)
    requires Elements(s.assertions) == Elements(rows) && Elements(rs) == Elements(qs)
    ensures var t := s.(assertions := rows);
            && Verification(sha, s, rs).Ok? == Verification(sha, t, qs).Ok?
            && Collect(s, rs, |rs|).Ok? == Collect(t, qs, |qs|).Ok?
            && (Verification(sha, s, rs).Ok? ==> Verification(sha, s, rs) == Verification(sha, t, qs))
            && (Verification(sha, s, rs).Ok? ==> Collect(s, rs, |rs|) == Collect(t, qs, |qs|))
  {
    hide ChosenAssertion, Verified;
    var t := s.(assertions := rows);
    forall r ensures ChosenAssertion(s, r) == ChosenAssertion(t, r) { ChosenAssertionDependsOnElements(s, r, rows); }
    CollectExact(s, rs, |rs|);
    CollectExact(t, qs, |qs|);
    assert rs[..|rs|] == rs && qs[..|qs|] == qs;
    assert forall r :: r in rs <==> r in Elements(rs);
    assert forall r :: r in qs <==> r in Elements(qs);
    if AllSatisfiable(t, qs) && Agree(qs) { SameRequirements(t, s, qs, rs); }
    if AllSatisfiable(s, rs) && Agree(rs) {
      SameRequirements(s, t, rs, qs);
      SameSelection(s, t, rs, qs, Collect(s, rs, |rs|).value, Collect(t, qs, |qs|).value);
    }
  }

  lemma SameRequirements(s: Setting, t: Setting, rs: seq<Requirement>, qs: seq<Requirement>)
    requires (forall r :: ChosenAssertion(s, r).Some? == ChosenAssertion(t, r).Some?) && (forall r :: r in qs ==> r in rs)
    requires AllSatisfiable(s, rs) && Agree(rs)
    ensures AllSatisfiable(t, qs) && Agree(qs)
  {
    hide ChosenAssertion;
    forall i | 0 <= i < |qs| ensures ChosenAssertion(t, qs[i]).Some? {
      assert qs[i] in qs;
      var j :| 0 <= j < |rs| && rs[j] == qs[i];
    }
    forall i, k | 0 <= i < |qs| && 0 <= k < |qs| && KeyOf(qs[i]) == KeyOf(qs[k]) ensures qs[i] == qs[k] {
      assert qs[i] in qs && qs[k] in qs;
      var j :| 0 <= j < |rs| && rs[j] == qs[i];
      var l :| 0 <= l < |rs| && rs[l] == qs[k];
    }
  }

  lemma SameSelection(s: Setting, t: Setting, rs: seq<Requirement>, qs: seq<Requirement>, m: Selected, n: Selected)
    requires (forall r :: ChosenAssertion(s, r) == ChosenAssertion(t, r)) && (forall r :: r in qs <==> r in rs)
    requires SelectedFor(s, rs, m) && SelectedFor(t, qs, n)
    ensures m == n
  {
    hide ChosenAssertion;
    forall k | k in m ensures k in n && n[k] == m[k] {
      var i :| 0 <= i < |rs| && KeyOf(rs[i]) == k;
      assert rs[i] in rs;
      var j :| 0 <= j < |qs| && qs[j] == rs[i];
    }
    forall k | k in n ensures k in m {
      var i :| 0 <= i < |qs| && KeyOf(qs[i]) == k;
      assert qs[i] in qs;
      var j :| 0 <= j < |rs| && rs[j] == qs[i];
    }
  }

  /** Whatever ids repeat, success, the selected ids and the evidence types do not depend on the
      order of the assertions or of the requirements. */
  lemma SelectionOrderIndependent(sha: Sha256, s: Setting, rs: seq<Requirement>, rows: seq<Assertion>, qs: seq<Requirement>)
    requires Elements(s.assertions) == Elements(rows) && Elements(rs) == Elements(qs)
    ensures var v, w := Verification(sha, s, rs), Verification(sha, s.(assertions := rows), qs);
            && v.Ok? == w.Ok?
            && (v.Ok? ==> v.value.assertionIds == w.value.assertionIds && v.value.assertionTypes == w.value.assertionTypes)
  {
    hide ChosenAssertion, DomainHash, SelectedFor, AllSatisfiable, Agree;
    var t := s.(assertions := rows);
    forall r ensures ChosenAssertion(s, r).Some? == ChosenAssertion(t, r).Some? { ChosenIdSame(s, r, rows); }
    CollectExact(s, rs, |rs|);
    CollectExact(t, qs, |qs|);
    assert rs[..|rs|] == rs && qs[..|qs|] == qs;
    assert forall r :: r in rs <==> r in Elements(rs);
    assert forall r :: r in qs <==> r in Elements(qs);
    if AllSatisfiable(t, qs) && Agree(qs) { SameRequirements(t, s, qs, rs); }
    if AllSatisfiable(s, rs) && Agree(rs) {
      SameRequirements(s, t, rs, qs);
      var m, n := Collect(s, rs, |rs|).value, Collect(t, qs, |qs|).value;
      SameSelectedIds(s, rows, rs, qs, m, n);
      assert m.Keys == n.Keys;
    }
  }

  lemma SameSelectedIds(s: Setting, rows: seq<Assertion>, rs: seq<Requirement>, qs: seq<Requirement>, m: Selected, n: Selected)
    requires Elements(s.assertions) == Elements(rows) && (forall r :: r in qs <==> r in rs)
    requires SelectedFor(s, rs, m) && SelectedFor(s.(assertions := rows), qs, n)
    ensures m.Keys == n.Keys && forall k :: k in m ==> m[k].assertionId == n[k].assertionId
  {
    hide ChosenAssertion;
    forall k | k in m ensures k in n && n[k].assertionId == m[k].assertionId {
      var i :| 0 <= i < |rs| && KeyOf(rs[i]) == k;
      assert rs[i] in rs;
      var j :| 0 <= j < |qs| && qs[j] == rs[i];
      ChosenIdSame(s, rs[i], rows);
    }
    forall k | k in n ensures k in m {
      var i :| 0 <= i < |qs| && KeyOf(qs[i]) == k;
      assert qs[i] in qs;
      var j :| 0 <= j < |rs| && rs[j] == qs[i];
    }
  }

  /** With distinct fact ids, neither the order of the facts nor that of the revocations matters. */
  lemma ResolutionOrderIndependent(sha: Sha256, q: TrustQuery, facts: seq<TrustFact>, revs: seq<RevocationFact>,
                                   facts': seq<TrustFact>, revs': seq<RevocationFact>)
    requires DistinctFactIds(facts) && DistinctFactIds(facts')
    requires Elements(facts) == Elements(facts') && Elements(revs) == Elements(revs')
    ensures Resolution(sha, q, facts, revs).Ok? == Resolution(sha, q, facts', revs').Ok?
    ensures Resolution(sha, q, facts, revs).Ok? ==> Resolution(sha, q, facts, revs) == Resolution(sha, q, facts', revs')
    ensures Choices(q, facts) == Choices(q, facts')
  {
    hide Trusted, Supports, Revokes, ChosenFact;
    forall t ensures ChosenFact(q, facts, t) == ChosenFact(q, facts', t) { ChosenFactDependsOnElements(q, facts, facts', t); }
    assert forall r :: r in revs <==> r in Elements(revs);
    assert forall r :: r in revs' <==> r in Elements(revs');
    assert FirstRevocation(q, revs).Some? == FirstRevocation(q, revs').Some?;
    assert Choices(q, facts) == Choices(q, facts');
  }

  lemma ChosenFactDependsOnElements(q: TrustQuery, facts: seq<TrustFact>, facts': seq<TrustFact>, t: RegisteredId)
    requires DistinctFactIds(facts) && DistinctFactIds(facts') && Elements(facts) == Elements(facts')
    ensures ChosenFact(q, facts, t) == ChosenFact(q, facts', t)
  {
    FactIdsDecide(facts);
    FactIdsDecide(facts');
    BestDependsOnElements(facts, facts', f => Supports(q, t, f), NotOlderFact);
  }

  /** Trust resolves iff nothing relevant is revoked and every required type has a current,
      fresh fact about the subject. */
  lemma ResolvesIff(sha: Sha256, q: TrustQuery, facts: seq<TrustFact>, revs: seq<RevocationFact>)
    ensures Resolution(sha, q, facts, revs).Ok? <==>
            && (forall r :: r in revs ==> !Revokes(q, r))
            && (forall t :: t in q.requiredFactTypes ==> exists f :: f in facts && Supports(q, t, f))
  {
    hide Trusted, Revokes, Supports;
    var types := SortedTypes(q.requiredFactTypes);
    assert forall t :: t in types <==> t in Elements(types);
    forall t ensures ChosenFact(q, facts, t).Some? <==> exists f :: f in facts && Supports(q, t, f) {
    }
  }
}
