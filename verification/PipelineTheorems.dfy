/** Main results about the authority decision: when it allows, and which rows its dependency
    bundle names. */
module PipelineTheorems {
  import opened Bytes
  import opened Order
  import opened Wrappers
  import opened Lattice
  import opened Selection
  import opened Evaluation
  import opened Pipeline
  import Dependency
  import Policy
  import Evidence

  // ----- what the gathering loops collect

  lemma {:induction false} EntitlementsGathered(input: EvaluationInput, rows: seq<EntitlementBinding>, refs: seq<RegisteredId>, ds: seq<DependencyRef>)
    ensures var g := GatherEntitlements(input, rows, refs, ds);
            && (g.failure == None <==> forall r :: r in refs ==> ChosenBinding(input, rows, r).Some?)
            && (g.failure.Some? ==> g.failure == Some(InsufficientEntitlement))
            && (g.failure == None ==> forall d :: d in g.dependencies <==>
                  d in ds || exists r :: r in refs && d == BindingRef(ChosenBinding(input, rows, r).value))
  {
    hide ChosenBinding;
    if refs != [] {
      var chosen := ChosenBinding(input, rows, refs[0]);
      assert refs == [refs[0]] + refs[1..];
      if chosen.Some? {
        EntitlementsGathered(input, rows, refs[1..], ds + [BindingRef(chosen.value)]);
      }
    }
  }

  lemma {:induction false} AssertionsGathered(rows: seq<Evidence.Assertion>, ids: seq<StableId>, ds: seq<DependencyRef>)
    requires forall id :: id in ids ==> AssertionById(rows, id).Some?
    ensures var g := GatherAssertions(rows, ids, ds);
            && g.failure == None
            && (forall d :: d in g.dependencies <==>
                  d in ds || exists id :: id in ids && d == AssertionRef(AssertionById(rows, id).value))
  {
    hide AssertionById;
    if ids != [] {
      assert ids == [ids[0]] + ids[1..];
      AssertionsGathered(rows, ids[1..], ds + [AssertionRef(AssertionById(rows, ids[0]).value)]);
    }
  }

  lemma {:induction false} FactsGathered(rows: seq<Evidence.TrustFact>, ids: seq<StableId>, ds: seq<DependencyRef>)
    requires forall id :: id in ids ==> FactById(rows, id).Some?
    ensures var g := GatherFacts(rows, ids, ds);
            && g.failure == None
            && (forall d :: d in g.dependencies <==>
                  d in ds || exists id :: id in ids && d == FactRef(FactById(rows, id).value))
  {
    hide FactById;
    if ids != [] {
      assert ids == [ids[0]] + ids[1..];
      FactsGathered(rows, ids[1..], ds + [FactRef(FactById(rows, ids[0]).value)]);
    }
  }

  /** Every id the evidence step selected belongs to a row, so the re-lookup never fails. */
  lemma SelectedAssertionsFound(sha: Sha256, input: PipelineInput)
    requires Evidence.Verification(sha, SettingOf(input), input.evidenceRequirements).Ok?
    ensures forall id :: id in SortedIds(Evidence.Verification(sha, SettingOf(input), input.evidenceRequirements).value.assertionIds) ==>
              AssertionById(input.assertions, id).Some?
  {
    hide Evidence.Satisfies, DomainHash, IdLess;
    var s, rs := SettingOf(input), input.evidenceRequirements;
    var m := Evidence.Collect(s, rs, |rs|).value;
    Evidence.CollectExact(s, rs, |rs|);
    assert rs[..|rs|] == rs;
    var ids := SortedIds(Evidence.Verified(sha, m).assertionIds);
    forall id | id in ids ensures AssertionById(input.assertions, id).Some? {
      assert id in Elements(ids);
      var k :| k in m && m[k].assertionId == id;
      var i :| 0 <= i < |rs| && Evidence.KeyOf(rs[i]) == k;
      assert Evidence.ChosenAssertion(s, rs[i]) == Some(m[k]);
    }
  }

  lemma SelectedFactsFound(sha: Sha256, input: PipelineInput)
    requires Evidence.Resolution(sha, input.trustQuery, input.trustFacts, input.revocations).Ok?
    ensures forall id :: id in SortedIds(Evidence.Resolution(sha, input.trustQuery, input.trustFacts, input.revocations).value.factIds) ==>
              FactById(input.trustFacts, id).Some?
  {
    hide Evidence.Supports, Evidence.Revokes, DomainHash, IdLess;
    var m := Evidence.Choices(input.trustQuery, input.trustFacts);
    var ids := SortedIds(Evidence.Trusted(sha, m).factIds);
    forall id | id in ids ensures FactById(input.trustFacts, id).Some? {
      assert id in Elements(ids);
      var t :| t in m && m[t].factId == id;
      assert Evidence.ChosenFact(input.trustQuery, input.trustFacts, t) == Some(m[t]);
    }
  }

  // ----- when the decision allows

  ghost predicate EntitlementsHeld(input: PipelineInput) {
    forall r :: r in input.requiredEntitlements ==>
      exists b :: b in input.entitlementBindings && Grants(input.evaluation, r, b)
  }

  ghost predicate EvidenceHeld(input: PipelineInput) {
    && Evidence.Agree(input.evidenceRequirements)
    && forall r :: r in input.evidenceRequirements ==>
         exists a :: a in input.assertions && Evidence.Satisfies(SettingOf(input), r, a)
  }

  ghost predicate TrustHeld(input: PipelineInput) {
    && (forall r :: r in input.revocations ==> !Evidence.Revokes(input.trustQuery, r))
    && (forall t :: t in input.trustQuery.requiredFactTypes ==>
          exists f :: f in input.trustFacts && Evidence.Supports(input.trustQuery, t, f))
  }

  lemma EvidenceVerifiesIff(sha: Sha256, input: PipelineInput)
    ensures Evidence.Verification(sha, SettingOf(input), input.evidenceRequirements).Ok? <==> EvidenceHeld(input)
  {
    hide Evidence.Satisfies, Evidence.Verified, SettingOf, Evidence.Agree;
    var s, rs := SettingOf(input), input.evidenceRequirements;
    Evidence.CollectExact(s, rs, |rs|);
    assert rs[..|rs|] == rs;
    assert s.assertions == input.assertions by { SettingRows(input); }
    forall r ensures Evidence.ChosenAssertion(s, r).Some? <==> exists a :: a in input.assertions && Evidence.Satisfies(s, r, a) {
    }
    assert Evidence.AllSatisfiable(s, rs) <==> forall r :: r in rs ==> Evidence.ChosenAssertion(s, r).Some?;
  }

  lemma SettingRows(input: PipelineInput)
    ensures SettingOf(input).assertions == input.assertions
  {
  }

  lemma EntitlementsIff(input: PipelineInput)
    ensures var refs := Evidence.SortedTypes(input.requiredEntitlements);
            GatherEntitlements(input.evaluation, input.entitlementBindings, refs, input.evaluation.dependencies).failure == None
            <==> EntitlementsHeld(input)
  {
    hide Grants, Evidence.RegisteredLess;
    var refs := Evidence.SortedTypes(input.requiredEntitlements);
    EntitlementsGathered(input.evaluation, input.entitlementBindings, refs, input.evaluation.dependencies);
    assert forall r :: r in refs <==> r in Elements(refs);
    forall r ensures ChosenBinding(input.evaluation, input.entitlementBindings, r).Some? <==>
        exists b :: b in input.entitlementBindings && Grants(input.evaluation, r, b) {
    }
  }

  /** Gathering completes iff entitlements, evidence and trust are all held. */
  lemma GatherCompletesIff(sha: Sha256, input: PipelineInput)
    ensures Gather(sha, input).Complete? <==> EntitlementsHeld(input) && EvidenceHeld(input) && TrustHeld(input)
  {
    hide GatherEntitlements, GatherAssertions, GatherFacts, Evidence.Verification, Evidence.Resolution,
         EntitlementsHeld, EvidenceHeld, TrustHeld;
    EntitlementsIff(input);
    EvidenceVerifiesIff(sha, input);
    TrustResolvesIff(sha, input);
    var refs := Evidence.SortedTypes(input.requiredEntitlements);
    var g := GatherEntitlements(input.evaluation, input.entitlementBindings, refs, input.evaluation.dependencies);
    if g.failure == None && EvidenceHeld(input) {
      SelectedAssertionsFound(sha, input);
      var evidence := Evidence.Verification(sha, SettingOf(input), input.evidenceRequirements).value;
      AssertionsGathered(input.assertions, SortedIds(evidence.assertionIds), g.dependencies);
      if TrustHeld(input) {
        SelectedFactsFound(sha, input);
        var trust := Evidence.Resolution(sha, input.trustQuery, input.trustFacts, input.revocations).value;
        var a := GatherAssertions(input.assertions, SortedIds(evidence.assertionIds), g.dependencies);
        FactsGathered(input.trustFacts, SortedIds(trust.factIds), a.dependencies);
      }
    }
  }

  lemma TrustResolvesIff(sha: Sha256, input: PipelineInput)
    ensures Evidence.Resolution(sha, input.trustQuery, input.trustFacts, input.revocations).Ok? <==> TrustHeld(input)
  {
    hide Evidence.Supports, Evidence.Revokes, Evidence.Resolution;
    Evidence.ResolvesIff(sha, input.trustQuery, input.trustFacts, input.revocations);
  }

  /** The facts the policy sees: required entitlements, required evidence types, and the fact
      chosen for each required type. */
  function DecisionFacts(input: PipelineInput): Policy.PolicyFacts {
    var choices := Evidence.Choices(input.trustQuery, input.trustFacts);
    Policy.PolicyFacts(input.principalKind, input.membershipClass, input.purpose, input.requiredEntitlements,
                       set r | r in input.evidenceRequirements :: r.assertionType,
                       set t | t in choices :: (t, choices[t].factValue),
                       {}, true, input.evaluation.evaluatedAtEpochMs)
  }

  lemma SelectedTypes(s: Evidence.Setting, rs: seq<Evidence.Requirement>, m: Evidence.Selected)
    requires Evidence.SelectedFor(s, rs, m)
    ensures (set k | k in m :: k.assertionType) == (set r | r in rs :: r.assertionType)
  {
    hide Evidence.ChosenAssertion, IsRegistered;
    var a, b := set k | k in m :: k.assertionType, set r | r in rs :: r.assertionType;
    forall t | t in a ensures t in b {
      var k :| k in m && k.assertionType == t;
      var i :| 0 <= i < |rs| && Evidence.KeyOf(rs[i]) == k;
      assert rs[i] in rs;
    }
    forall t | t in b ensures t in a {
      var r :| r in rs && r.assertionType == t;
      var i :| 0 <= i < |rs| && rs[i] == r;
      assert Evidence.KeyOf(rs[i]) in m;
    }
  }

  lemma VerifiedTypes(sha: Sha256, s: Evidence.Setting, rs: seq<Evidence.Requirement>)
    requires Evidence.Verification(sha, s, rs).Ok?
    ensures Evidence.Verification(sha, s, rs).value.assertionTypes == (set r | r in rs :: r.assertionType)
  {
    hide Evidence.ChosenAssertion, DomainHash, Evidence.Agree, Evidence.SelectedFor, Evidence.AllSatisfiable;
    Evidence.CollectExact(s, rs, |rs|);
    assert rs[..|rs|] == rs;
    SelectedTypes(s, rs, Evidence.Collect(s, rs, |rs|).value);
  }

  lemma GatheredFacts(sha: Sha256, input: PipelineInput)
    requires Gather(sha, input).Complete?
    ensures FactsOf(input, Gather(sha, input).evidence, Gather(sha, input).trust) == DecisionFacts(input)
  {
    hide GatherEntitlements, GatherAssertions, GatherFacts, Evidence.Verification, Evidence.FirstRevocation,
         Evidence.Missing, DomainHash, Evidence.Choices;
    VerifiedTypes(sha, SettingOf(input), input.evidenceRequirements);
  }

  /** The policy allows: some rule is the first whose condition holds of the facts, and its
      effect is ALLOW. */
  ghost predicate PolicyAllows(policy: Policy.CompiledPolicy, facts: Policy.PolicyFacts) {
    exists i :: Policy.IsFirstMatch(policy.program.rules, facts, i) && policy.program.rules[i].effect == Policy.AllowEffect
  }

  lemma PolicyOutcomeIsAllow(policy: Policy.CompiledPolicy, facts: Policy.PolicyFacts)
    requires policy.program.defaultEffect == Policy.DenyEffect
    ensures Policy.Evaluation(policy, facts).outcome == Allow <==> PolicyAllows(policy, facts)
  {
    hide Policy.Matches;
    var rules := policy.program.rules;
    var n := Policy.FirstMatch(rules, facts);
    assert n < |rules| ==> Policy.IsFirstMatch(rules, facts, n);
    forall i | Policy.IsFirstMatch(rules, facts, i) ensures i == n {
      assert Policy.Matches(rules[i].condition, facts);
      assert n <= i && Policy.Matches(rules[n].condition, facts);
      assert i <= n;
    }
  }

  lemma FinalBaseChecks(input: PipelineInput, g: Gathered)
    requires g.Complete?
    ensures BaseChecks(FinalInput(input, g)) <==> BaseChecks(input.evaluation)
  {
    hide NonNegative, AuthenticatorCurrent, Policy.Evaluation;
    var e, f := input.evaluation, FinalInput(input, g);
    forall d: Dimension | d != DimOutcome
      ensures Relation(d, f.requestedEnvelope, f.binding.envelope) == Relation(d, e.requestedEnvelope, e.binding.envelope)
    {
    }
  }

  lemma DenialDoesNotAllow(sha: Sha256, input: EvaluationInput, reason: ReasonCode)
    ensures DenyPipeline(sha, input, reason).outcome == Deny
  {
  }

  /** The decision is ALLOW iff the policy digest matches, the revocation snapshot is complete,
      entitlements, evidence and trust are held, the policy allows the facts, every base check
      holds, and the gathered dependency vector is conflict-free. */
  lemma DecidesAllowIff(sha: Sha256, input: PipelineInput)
    requires input.policy.program.defaultEffect == Policy.DenyEffect
    ensures Decide(sha, input).outcome == Allow <==>
            && input.evaluation.binding.policyHash == input.policy.semanticHash
            && input.revocationSnapshotComplete
            && EntitlementsHeld(input) && EvidenceHeld(input) && TrustHeld(input)
            && PolicyAllows(input.policy, DecisionFacts(input))
            && BaseChecks(input.evaluation)
            && Dependency.Consistent(Gather(sha, input).dependencies)
  {
    hide Gather, DenyPipeline, Evaluation.Evaluate, EntitlementsHeld, EvidenceHeld, TrustHeld, PolicyAllows,
         BaseChecks, Dependency.Consistent, DecisionFacts, FactsOf, Policy.Evaluation;
    GatherCompletesIff(sha, input);
    var g := Gather(sha, input);
    if g.Complete? {
      GatheredFacts(sha, input);
      PolicyOutcomeIsAllow(input.policy, DecisionFacts(input));
      FinalBaseChecks(input, g);
      AllowIff(sha, FinalInput(input, g));
    } else {
      DenialDoesNotAllow(sha, input.evaluation.(dependencies := g.dependencies), g.reason);
    }
    DenialDoesNotAllow(sha, input.evaluation, PolicyDigestMismatch);
    DenialDoesNotAllow(sha, input.evaluation, TrustOrRevocationDenied);
  }

  // ----- the rows the bundle names

  predicate DistinctBindingIds(rows: seq<EntitlementBinding>) {
    forall i, j :: 0 <= i < j < |rows| ==> rows[i].bindingId != rows[j].bindingId
  }

  ghost predicate DistinctIds(input: PipelineInput) {
    && DistinctBindingIds(input.entitlementBindings)
    && Evidence.DistinctAssertionIds(input.assertions)
    && Evidence.DistinctFactIds(input.trustFacts)
  }

  lemma AssertionByIdIs(rows: seq<Evidence.Assertion>, a: Evidence.Assertion)
    requires Evidence.DistinctAssertionIds(rows) && a in rows
    ensures AssertionById(rows, a.assertionId) == Some(a)
  {
    forall b | b in rows && b.assertionId == a.assertionId ensures b == a {
      var i :| 0 <= i < |rows| && rows[i] == a;
      var j :| 0 <= j < |rows| && rows[j] == b;
    }
    FindOnly(rows, (b: Evidence.Assertion) => b.assertionId == a.assertionId, a);
  }

  lemma FactByIdIs(rows: seq<Evidence.TrustFact>, f: Evidence.TrustFact)
    requires Evidence.DistinctFactIds(rows) && f in rows
    ensures FactById(rows, f.factId) == Some(f)
  {
    forall b | b in rows && b.factId == f.factId ensures b == f {
      var i :| 0 <= i < |rows| && rows[i] == f;
      var j :| 0 <= j < |rows| && rows[j] == b;
    }
    FindOnly(rows, (b: Evidence.TrustFact) => b.factId == f.factId, f);
  }

  ghost predicate ChosenBindingRef(input: PipelineInput, d: DependencyRef) {
    exists r :: r in input.requiredEntitlements
      && ChosenBinding(input.evaluation, input.entitlementBindings, r).Some?
      && d == BindingRef(ChosenBinding(input.evaluation, input.entitlementBindings, r).value)
  }

  ghost predicate ChosenFactRef(input: PipelineInput, d: DependencyRef) {
    exists t :: t in input.trustQuery.requiredFactTypes
      && Evidence.ChosenFact(input.trustQuery, input.trustFacts, t).Some?
      && d == FactRef(Evidence.ChosenFact(input.trustQuery, input.trustFacts, t).value)
  }

  /** `d` refers to a row the decision selected, or to the watermark. */
  ghost predicate SelectedRef(sha: Sha256, input: PipelineInput, d: DependencyRef) {
    || ChosenBindingRef(input, d)
    || ChosenRef(SettingOf(input), input.evidenceRequirements, d)
    || ChosenFactRef(input, d)
    || d == WatermarkRef(input, Evidence.Trusted(sha, Evidence.Choices(input.trustQuery, input.trustFacts)).revocationWatermark)
  }

  ghost predicate FoundRef(rows: seq<Evidence.Assertion>, ids: set<StableId>, d: DependencyRef) {
    exists id :: id in ids && AssertionById(rows, id).Some? && d == AssertionRef(AssertionById(rows, id).value)
  }

  ghost predicate ChosenRef(s: Evidence.Setting, rs: seq<Evidence.Requirement>, d: DependencyRef) {
    exists r :: r in rs && Evidence.ChosenAssertion(s, r).Some? && d == AssertionRef(Evidence.ChosenAssertion(s, r).value)
  }

  lemma SelectedRefs(s: Evidence.Setting, rs: seq<Evidence.Requirement>, m: Evidence.Selected, d: DependencyRef)
    requires Evidence.DistinctAssertionIds(s.assertions) && Evidence.SelectedFor(s, rs, m)
    ensures FoundRef(s.assertions, set k | k in m :: m[k].assertionId, d) <==> ChosenRef(s, rs, d)
  {
    hide Evidence.Satisfies, AssertionById, Evidence.DistinctAssertionIds;
    var ids := set k | k in m :: m[k].assertionId;
    if FoundRef(s.assertions, ids, d) {
      var id :| id in ids && AssertionById(s.assertions, id).Some? && d == AssertionRef(AssertionById(s.assertions, id).value);
      var k :| k in m && m[k].assertionId == id;
      var i :| 0 <= i < |rs| && Evidence.KeyOf(rs[i]) == k;
      AssertionByIdIs(s.assertions, m[k]);
      assert rs[i] in rs;
    }
    if ChosenRef(s, rs, d) {
      var r :| r in rs && Evidence.ChosenAssertion(s, r).Some? && d == AssertionRef(Evidence.ChosenAssertion(s, r).value);
      var i :| 0 <= i < |rs| && rs[i] == r;
      var a := m[Evidence.KeyOf(rs[i])];
      AssertionByIdIs(s.assertions, a);
      assert a.assertionId in ids;
    }
  }

  lemma AssertionRefsExact(sha: Sha256, input: PipelineInput, d: DependencyRef)
    requires DistinctIds(input) && Evidence.Verification(sha, SettingOf(input), input.evidenceRequirements).Ok?
    ensures FoundRef(input.assertions, Evidence.Verification(sha, SettingOf(input), input.evidenceRequirements).value.assertionIds, d)
            <==> ChosenRef(SettingOf(input), input.evidenceRequirements, d)
  {
    hide Evidence.ChosenAssertion, DomainHash, Evidence.Agree, Evidence.SelectedFor, Evidence.AllSatisfiable, FoundRef, ChosenRef,
         Evidence.DistinctAssertionIds;
    var s, rs := SettingOf(input), input.evidenceRequirements;
    Evidence.CollectExact(s, rs, |rs|);
    assert rs[..|rs|] == rs;
    SelectedRefs(s, rs, Evidence.Collect(s, rs, |rs|).value, d);
  }

  lemma FactRefsExact(sha: Sha256, input: PipelineInput, d: DependencyRef)
    requires DistinctIds(input) && Evidence.Resolution(sha, input.trustQuery, input.trustFacts, input.revocations).Ok?
    ensures var ids := SortedIds(Evidence.Resolution(sha, input.trustQuery, input.trustFacts, input.revocations).value.factIds);
            (exists id :: id in ids && FactById(input.trustFacts, id).Some? && d == FactRef(FactById(input.trustFacts, id).value))
            <==> ChosenFactRef(input, d)
  {
    hide Evidence.Supports, DomainHash, IdLess, FactById, Evidence.Missing, Evidence.FirstRevocation, Evidence.TrustRecords;
    hide Evidence.SortedTypes, FactRef, IsRegistered;
    var q, facts := input.trustQuery, input.trustFacts;
    var m := Evidence.Choices(q, facts);
    var ids := SortedIds(Evidence.Trusted(sha, m).factIds);
    if id :| id in ids && FactById(facts, id).Some? && d == FactRef(FactById(facts, id).value) {
      assert id in Elements(ids);
      var t :| t in m && m[t].factId == id;
      FactByIdIs(facts, m[t]);
    }
    if t :| t in q.requiredFactTypes && Evidence.ChosenFact(q, facts, t).Some? && d == FactRef(Evidence.ChosenFact(q, facts, t).value) {
      FactByIdIs(facts, m[t]);
      assert m[t].factId in Elements(ids);
    }
  }

  lemma EntitlementStage(input: PipelineInput, d: DependencyRef)
    requires EntitlementsHeld(input)
    ensures var refs := Evidence.SortedTypes(input.requiredEntitlements);
            d in GatherEntitlements(input.evaluation, input.entitlementBindings, refs, input.evaluation.dependencies).dependencies
            <==> d in input.evaluation.dependencies || ChosenBindingRef(input, d)
  {
    hide ChosenBinding, Evidence.RegisteredLess, IsRegistered, EntitlementsHeld;
    var refs := Evidence.SortedTypes(input.requiredEntitlements);
    EntitlementsIff(input);
    EntitlementsGathered(input.evaluation, input.entitlementBindings, refs, input.evaluation.dependencies);
    assert forall r :: r in refs <==> r in Elements(refs);
  }

  lemma EvidenceStage(sha: Sha256, input: PipelineInput, ds: seq<DependencyRef>, d: DependencyRef)
    requires DistinctIds(input) && Evidence.Verification(sha, SettingOf(input), input.evidenceRequirements).Ok?
    ensures var ids := SortedIds(Evidence.Verification(sha, SettingOf(input), input.evidenceRequirements).value.assertionIds);
            d in GatherAssertions(input.assertions, ids, ds).dependencies
            <==> d in ds || ChosenRef(SettingOf(input), input.evidenceRequirements, d)
  {
    hide Evidence.Verification, DistinctIds, IdLess, AssertionById, ChosenRef, GatherAssertions;
    var ids := SortedIds(Evidence.Verification(sha, SettingOf(input), input.evidenceRequirements).value.assertionIds);
    SelectedAssertionsFound(sha, input);
    AssertionsGathered(input.assertions, ids, ds);
    AssertionRefsExact(sha, input, d);
    assert forall id :: id in ids <==> id in Elements(ids);
  }

  lemma TrustStage(sha: Sha256, input: PipelineInput, ds: seq<DependencyRef>, d: DependencyRef)
    requires DistinctIds(input) && Evidence.Resolution(sha, input.trustQuery, input.trustFacts, input.revocations).Ok?
    ensures var trust := Evidence.Resolution(sha, input.trustQuery, input.trustFacts, input.revocations).value;
            && trust == Evidence.Trusted(sha, Evidence.Choices(input.trustQuery, input.trustFacts))
            && (d in GatherFacts(input.trustFacts, SortedIds(trust.factIds), ds).dependencies
                <==> d in ds || ChosenFactRef(input, d))
  {
    hide DistinctIds, IdLess, FactById, ChosenFactRef, GatherFacts, Evidence.Choices, Evidence.Trusted;
    var trust := Evidence.Resolution(sha, input.trustQuery, input.trustFacts, input.revocations).value;
    SelectedFactsFound(sha, input);
    FactsGathered(input.trustFacts, SortedIds(trust.factIds), ds);
    FactRefsExact(sha, input, d);
  }

  /** With distinct ids, the gathered vector is the initial one, a reference to every selected
      row, and the watermark, and nothing else. */
  lemma GatheredDependencies(sha: Sha256, input: PipelineInput, d: DependencyRef)
    requires DistinctIds(input) && Gather(sha, input).Complete?
    ensures d in Gather(sha, input).dependencies <==> d in input.evaluation.dependencies || SelectedRef(sha, input, d)
  {
    hide GatherEntitlements, GatherAssertions, GatherFacts, Evidence.Verification, Evidence.Resolution, Evidence.Trusted,
         DistinctIds, IdLess, Evidence.RegisteredLess, ChosenBindingRef, ChosenRef, ChosenFactRef, EntitlementsHeld;
    var refs := Evidence.SortedTypes(input.requiredEntitlements);
    var g := GatherEntitlements(input.evaluation, input.entitlementBindings, refs, input.evaluation.dependencies);
    EntitlementsIff(input);
    EntitlementStage(input, d);
    EvidenceStage(sha, input, g.dependencies, d);
    var evidence := Evidence.Verification(sha, SettingOf(input), input.evidenceRequirements).value;
    TrustStage(sha, input, GatherAssertions(input.assertions, SortedIds(evidence.assertionIds), g.dependencies).dependencies, d);
  }

  /** No initial record names a selected row, or the watermark, differently. */
  ghost predicate NoClash(sha: Sha256, input: PipelineInput) {
    forall d, e | d in input.evaluation.dependencies && Dependency.KeyOf(d) == Dependency.KeyOf(e) ::
      SelectedRef(sha, input, e) ==> d == e
  }

  lemma BindingRefsDiffer(input: PipelineInput, d: DependencyRef, e: DependencyRef)
    requires DistinctBindingIds(input.entitlementBindings) && ChosenBindingRef(input, d) && ChosenBindingRef(input, e) && d.id == e.id
    ensures d == e
  {
    hide Grants;
    var r :| r in input.requiredEntitlements && ChosenBinding(input.evaluation, input.entitlementBindings, r).Some?
             && d == BindingRef(ChosenBinding(input.evaluation, input.entitlementBindings, r).value);
    var q :| q in input.requiredEntitlements && ChosenBinding(input.evaluation, input.entitlementBindings, q).Some?
             && e == BindingRef(ChosenBinding(input.evaluation, input.entitlementBindings, q).value);
    var x, y := ChosenBinding(input.evaluation, input.entitlementBindings, r).value,
                ChosenBinding(input.evaluation, input.entitlementBindings, q).value;
    var i :| 0 <= i < |input.entitlementBindings| && input.entitlementBindings[i] == x;
    var j :| 0 <= j < |input.entitlementBindings| && input.entitlementBindings[j] == y;
  }

  lemma AssertionRefsDiffer(input: PipelineInput, d: DependencyRef, e: DependencyRef)
    requires Evidence.DistinctAssertionIds(input.assertions) && d.id == e.id
    requires ChosenRef(SettingOf(input), input.evidenceRequirements, d) && ChosenRef(SettingOf(input), input.evidenceRequirements, e)
    ensures d == e
  {
    hide Evidence.Satisfies;
    var s, rs := SettingOf(input), input.evidenceRequirements;
    var r :| r in rs && Evidence.ChosenAssertion(s, r).Some? && d == AssertionRef(Evidence.ChosenAssertion(s, r).value);
    var q :| q in rs && Evidence.ChosenAssertion(s, q).Some? && e == AssertionRef(Evidence.ChosenAssertion(s, q).value);
    AssertionByIdIs(input.assertions, Evidence.ChosenAssertion(s, r).value);
    AssertionByIdIs(input.assertions, Evidence.ChosenAssertion(s, q).value);
  }

  lemma FactRefsDiffer(input: PipelineInput, d: DependencyRef, e: DependencyRef)
    requires Evidence.DistinctFactIds(input.trustFacts) && ChosenFactRef(input, d) && ChosenFactRef(input, e) && d.id == e.id
    ensures d == e
  {
    hide Evidence.Supports;
    var q, facts := input.trustQuery, input.trustFacts;
    var t :| t in q.requiredFactTypes && Evidence.ChosenFact(q, facts, t).Some? && d == FactRef(Evidence.ChosenFact(q, facts, t).value);
    var u :| u in q.requiredFactTypes && Evidence.ChosenFact(q, facts, u).Some? && e == FactRef(Evidence.ChosenFact(q, facts, u).value);
    FactByIdIs(facts, Evidence.ChosenFact(q, facts, t).value);
    FactByIdIs(facts, Evidence.ChosenFact(q, facts, u).value);
  }

  lemma RefKinds(sha: Sha256, input: PipelineInput, d: DependencyRef)
    ensures ChosenBindingRef(input, d) ==> d.kind == Dependency.EntitlementBinding && !Dependency.Negative(d)
    ensures ChosenRef(SettingOf(input), input.evidenceRequirements, d) ==>
              d.kind == Dependency.ExternalStateAssertion && !Dependency.Negative(d)
    ensures ChosenFactRef(input, d) ==> d.kind == Dependency.ExternalTrustFact && !Dependency.Negative(d)
  {
    hide Evidence.Satisfies, Evidence.Supports, InValidity;
  }

  /** Selected references never conflict among themselves. */
  lemma SelectedRefsAgree(sha: Sha256, input: PipelineInput, d: DependencyRef, e: DependencyRef)
    requires DistinctIds(input) && SelectedRef(sha, input, d) && SelectedRef(sha, input, e)
    ensures !Dependency.Negative(d) && (Dependency.KeyOf(d) == Dependency.KeyOf(e) ==> d == e)
  {
    hide ChosenBindingRef, ChosenRef, ChosenFactRef, DomainHash;
    RefKinds(sha, input, d);
    RefKinds(sha, input, e);
    if Dependency.KeyOf(d) == Dependency.KeyOf(e) {
      if ChosenBindingRef(input, d) {
        BindingRefsDiffer(input, d, e);
      } else if ChosenRef(SettingOf(input), input.evidenceRequirements, d) {
        AssertionRefsDiffer(input, d, e);
      } else if ChosenFactRef(input, d) {
        FactRefsDiffer(input, d, e);
      }
    }
  }

  /** With distinct ids, the gathered vector is conflict-free iff the initial one is and clashes
      with no selected reference. */
  lemma ConflictFreeIff(sha: Sha256, input: PipelineInput)
    requires DistinctIds(input) && Gather(sha, input).Complete?
    ensures Dependency.Consistent(Gather(sha, input).dependencies)
            <==> Dependency.Consistent(input.evaluation.dependencies) && NoClash(sha, input)
  {
    hide Gather, SelectedRef, DistinctIds;
    var initial, ds := input.evaluation.dependencies, Gather(sha, input).dependencies;
    forall d ensures d in ds <==> d in initial || SelectedRef(sha, input, d) { GatheredDependencies(sha, input, d); }
    forall d, e | SelectedRef(sha, input, d) && SelectedRef(sha, input, e)
      ensures !Dependency.Negative(d) && (Dependency.KeyOf(d) == Dependency.KeyOf(e) ==> d == e)
    {
      SelectedRefsAgree(sha, input, d, e);
    }
    ConsistentMeans(ds);
    ConsistentMeans(initial);
  }

  lemma ConsistentMeans(ds: seq<DependencyRef>)
    ensures Dependency.Consistent(ds) <==>
              && (forall d :: d in ds ==> !Dependency.Negative(d))
              && (forall d, e | d in ds && e in ds && Dependency.KeyOf(d) == Dependency.KeyOf(e) :: d == e)
  {
    if Dependency.Consistent(ds) { Dependency.SameKeySameRecord(ds); }
    assert forall i :: 0 <= i < |ds| ==> ds[i] in ds;
  }

  /** The same equivalence with every condition on the input: with distinct ids the decision is
      ALLOW iff, besides the other checks, the initial vector is conflict-free and names no
      selected row differently. */
  lemma DecidesAllowIffOnInput(sha: Sha256, input: PipelineInput)
    requires DistinctIds(input) && input.policy.program.defaultEffect == Policy.DenyEffect
    ensures Decide(sha, input).outcome == Allow <==>
            && input.evaluation.binding.policyHash == input.policy.semanticHash
            && input.revocationSnapshotComplete
            && EntitlementsHeld(input) && EvidenceHeld(input) && TrustHeld(input)
            && PolicyAllows(input.policy, DecisionFacts(input))
            && BaseChecks(input.evaluation)
            && Dependency.Consistent(input.evaluation.dependencies) && NoClash(sha, input)
  {
    hide Gather, Decide, EntitlementsHeld, EvidenceHeld, TrustHeld, PolicyAllows, BaseChecks, Dependency.Consistent, DecisionFacts,
         DistinctIds, NoClash;
    DecidesAllowIff(sha, input);
    GatherCompletesIff(sha, input);
    if Gather(sha, input).Complete? { ConflictFreeIff(sha, input); }
  }

  /** With distinct ids, the bundle of an allowed decision holds the initial dependencies, a
      reference to every selected row, and the watermark, and nothing else. */
  lemma AllowedBundleNamesEveryRow(sha: Sha256, input: PipelineInput, d: DependencyRef)
    requires DistinctIds(input) && Decide(sha, input).outcome == Allow
    ensures d in Decide(sha, input).dependencyBundle.dependencies <==>
            d in input.evaluation.dependencies || SelectedRef(sha, input, d)
  {
    hide Gather, DenyPipeline, Obstacle, Policy.Evaluation, FactsOf, SelectedRef, DistinctIds, Dependency.Consistent,
         Dependency.FirstError, Dependency.Canonical, SnapshotHash, Dependency.CanonicalBytes, DomainHash;
    var g := Gather(sha, input);
    if !g.Complete? { DenialDoesNotAllow(sha, input.evaluation.(dependencies := g.dependencies), g.reason); }
    DenialDoesNotAllow(sha, input.evaluation, PolicyDigestMismatch);
    DenialDoesNotAllow(sha, input.evaluation, TrustOrRevocationDenied);
    var ds := g.dependencies;
    AllowIff(sha, FinalInput(input, g));
    Dependency.SucceedsIffConsistent(sha, ds);
    Dependency.CanonicalHolds(ds);
    var bundle := Decide(sha, input).dependencyBundle.dependencies;
    assert bundle == Dependency.Canonical(ds);
    assert d in bundle <==> d in Elements(bundle);
    assert d in ds <==> d in Elements(ds);
    GatheredDependencies(sha, input, d);
  }
}
