/** The order in which a decision's rows are listed (pipeline.rs, evidence.rs): when it does not
    matter, and exactly when it does. */
module PipelineOrder {
  import opened Bytes
  import opened Order
  import opened Wrappers
  import opened Lattice
  import opened Selection
  import opened Evaluation
  import opened Pipeline
  import opened PipelineTheorems
  import Dependency
  import Policy
  import Evidence

  // ----- the order of rows does not matter

  /** The same decision problem with its rows listed in another order. */
  ghost predicate Reordered(a: PipelineInput, b: PipelineInput) {
    && b == a.(evaluation := a.evaluation.(dependencies := b.evaluation.dependencies),
               entitlementBindings := b.entitlementBindings, evidenceRequirements := b.evidenceRequirements,
               assertions := b.assertions, trustFacts := b.trustFacts, revocations := b.revocations)
    && Elements(a.evaluation.dependencies) == Elements(b.evaluation.dependencies)
    && Elements(a.entitlementBindings) == Elements(b.entitlementBindings)
    && Elements(a.evidenceRequirements) == Elements(b.evidenceRequirements)
    && Elements(a.assertions) == Elements(b.assertions)
    && Elements(a.trustFacts) == Elements(b.trustFacts)
    && Elements(a.revocations) == Elements(b.revocations)
  }

  lemma BindingIdsDecide(rows: seq<EntitlementBinding>)
    requires DistinctBindingIds(rows)
    ensures NoRepeats(rows) && Decides(LowerBinding, Elements(rows))
  {
    hide LexLess;
    LexStrictTotal();
    forall x, y | x in Elements(rows) && y in Elements(rows) && x != y ensures x.bindingId != y.bindingId {
      var i :| 0 <= i < |rows| && rows[i] == x;
      var j :| 0 <= j < |rows| && rows[j] == y;
    }
    forall x: EntitlementBinding, y: EntitlementBinding ensures x.bindingId == y.bindingId || LowerBinding(x, y) || LowerBinding(y, x) {
      assert x.bindingId == y.bindingId || LexLess(x.bindingId, y.bindingId) || LexLess(y.bindingId, x.bindingId);
    }
    forall x: EntitlementBinding, y: EntitlementBinding ensures !(LowerBinding(x, y) && LowerBinding(y, x)) {
      assert !LexLess(x.bindingId, x.bindingId);
    }
    forall x: EntitlementBinding, y: EntitlementBinding, z: EntitlementBinding | LowerBinding(x, y) && LowerBinding(y, z)
      ensures LowerBinding(x, z)
    {
      assert LexLess(x.bindingId, y.bindingId) && LexLess(y.bindingId, z.bindingId);
    }
  }

  lemma ChosenBindingSame(a: PipelineInput, b: PipelineInput, r: RegisteredId)
    requires Reordered(a, b) && DistinctBindingIds(a.entitlementBindings) && DistinctBindingIds(b.entitlementBindings)
    ensures ChosenBinding(a.evaluation, a.entitlementBindings, r) == ChosenBinding(b.evaluation, b.entitlementBindings, r)
  {
    BindingIdsDecide(a.entitlementBindings);
    BindingIdsDecide(b.entitlementBindings);
    var f, g := (x: EntitlementBinding) => Grants(a.evaluation, r, x), (x: EntitlementBinding) => Grants(b.evaluation, r, x);
    assert forall x :: f(x) == g(x);
    BestDependsOnElements(a.entitlementBindings, b.entitlementBindings, f, LowerBinding);
    Evidence.SameTest(b.entitlementBindings, f, g, LowerBinding);
  }

  lemma ElementsAppend<T>(a: seq<T>, b: seq<T>, x: T)
    requires Elements(a) == Elements(b)
    ensures Elements(a + [x]) == Elements(b + [x])
  {
    assert Elements(a + [x]) == Elements(a) + {x};
    assert Elements(b + [x]) == Elements(b) + {x};
  }

  lemma {:induction false} EntitlementsSame(a: PipelineInput, b: PipelineInput, refs: seq<RegisteredId>, c: seq<DependencyRef>, d: seq<DependencyRef>)
    requires Reordered(a, b) && DistinctBindingIds(a.entitlementBindings) && DistinctBindingIds(b.entitlementBindings)
    requires Elements(c) == Elements(d)
    ensures var g, h := GatherEntitlements(a.evaluation, a.entitlementBindings, refs, c), GatherEntitlements(b.evaluation, b.entitlementBindings, refs, d);
            g.failure == h.failure && Elements(g.dependencies) == Elements(h.dependencies)
  {
    hide ChosenBinding, DistinctBindingIds, Reordered;
    if refs != [] {
      ChosenBindingSame(a, b, refs[0]);
      var chosen := ChosenBinding(a.evaluation, a.entitlementBindings, refs[0]);
      if chosen.Some? {
        ElementsAppend(c, d, BindingRef(chosen.value));
        EntitlementsSame(a, b, refs[1..], c + [BindingRef(chosen.value)], d + [BindingRef(chosen.value)]);
      }
    }
  }

  /** What the dependency vector says about a selected assertion id: the first row with that id. */
  function Citation(rows: seq<Evidence.Assertion>, id: StableId): Option<DependencyRef> {
    var row := AssertionById(rows, id);
    if row.Some? then Some(AssertionRef(row.value)) else None
  }

  ghost predicate SelectedId(input: PipelineInput, id: StableId) {
    IdChosen(SettingOf(input), input.evidenceRequirements, id)
  }

  ghost predicate IdChosen(s: Evidence.Setting, rs: seq<Evidence.Requirement>, id: StableId) {
    exists r :: r in rs && Evidence.ChosenAssertion(s, r).Some? && Evidence.ChosenAssertion(s, r).value.assertionId == id
  }

  /** Rows that share a selected id are cited alike: same organization, same payload digest. */
  ghost predicate RowsAgree(input: PipelineInput) {
    forall x, y | x in input.assertions && y in input.assertions && x.assertionId == y.assertionId ::
      SelectedId(input, x.assertionId) ==> AssertionRef(x) == AssertionRef(y)
  }

  ghost predicate OrderFree(input: PipelineInput) {
    DistinctBindingIds(input.entitlementBindings) && Evidence.DistinctFactIds(input.trustFacts) && RowsAgree(input)
  }

  lemma DistinctIsOrderFree(input: PipelineInput)
    requires DistinctIds(input)
    ensures OrderFree(input)
  {
    hide SelectedId;
    forall x, y | x in input.assertions && y in input.assertions && x.assertionId == y.assertionId ensures x == y {
      AssertionByIdIs(input.assertions, x);
      AssertionByIdIs(input.assertions, y);
    }
  }

  lemma CitationSame(a: PipelineInput, rows: seq<Evidence.Assertion>, id: StableId)
    requires RowsAgree(a) && Elements(a.assertions) == Elements(rows) && SelectedId(a, id)
    ensures Citation(a.assertions, id) == Citation(rows, id)
  {
    hide SelectedId;
    assert forall x :: x in a.assertions <==> x in Elements(a.assertions);
    assert forall x :: x in rows <==> x in Elements(rows);
  }

  lemma IdsChosen(s: Evidence.Setting, rs: seq<Evidence.Requirement>, m: Evidence.Selected, id: StableId)
    requires Evidence.SelectedFor(s, rs, m)
    ensures id in (set k | k in m :: m[k].assertionId) <==> IdChosen(s, rs, id)
  {
    hide Evidence.ChosenAssertion;
    if k :| k in m && m[k].assertionId == id {
      var i :| 0 <= i < |rs| && Evidence.KeyOf(rs[i]) == k;
      assert rs[i] in rs && Evidence.ChosenAssertion(s, rs[i]) == Some(m[k]);
    }
    if r :| r in rs && Evidence.ChosenAssertion(s, r).Some? && Evidence.ChosenAssertion(s, r).value.assertionId == id {
      var i :| 0 <= i < |rs| && rs[i] == r;
      assert Evidence.ChosenAssertion(s, rs[i]) == Some(m[Evidence.KeyOf(rs[i])]);
    }
  }

  lemma SelectedIdsAre(sha: Sha256, input: PipelineInput)
    requires Evidence.Verification(sha, SettingOf(input), input.evidenceRequirements).Ok?
    ensures forall id :: id in Evidence.Verification(sha, SettingOf(input), input.evidenceRequirements).value.assertionIds <==>
              SelectedId(input, id)
  {
    hide IdChosen, DomainHash, Evidence.Agree, Evidence.AllSatisfiable, Evidence.SelectedFor, SettingOf;
    var s, rs := SettingOf(input), input.evidenceRequirements;
    Evidence.CollectExact(s, rs, |rs|);
    assert rs[..|rs|] == rs;
    var m := Evidence.Collect(s, rs, |rs|).value;
    forall id ensures id in (set k | k in m :: m[k].assertionId) <==> IdChosen(s, rs, id) { IdsChosen(s, rs, m, id); }
  }

  lemma FactByIdSame(a: seq<Evidence.TrustFact>, b: seq<Evidence.TrustFact>, id: StableId)
    requires Evidence.DistinctFactIds(a) && Evidence.DistinctFactIds(b) && Elements(a) == Elements(b)
    ensures FactById(a, id) == FactById(b, id)
  {
    assert forall x :: x in a <==> x in Elements(a);
    assert forall x :: x in b <==> x in Elements(b);
    if FactById(a, id).Some? { FactByIdIs(b, FactById(a, id).value); }
  }

  lemma {:induction false} AssertionsSame(a: seq<Evidence.Assertion>, b: seq<Evidence.Assertion>, ids: seq<StableId>, c: seq<DependencyRef>, d: seq<DependencyRef>)
    requires Elements(c) == Elements(d) && forall id :: id in ids ==> Citation(a, id) == Citation(b, id)
    ensures var g, h := GatherAssertions(a, ids, c), GatherAssertions(b, ids, d);
            g.failure == h.failure && Elements(g.dependencies) == Elements(h.dependencies)
  {
    hide AssertionById, AssertionRef;
    if ids != [] {
      assert ids == [ids[0]] + ids[1..];
      assert Citation(a, ids[0]) == Citation(b, ids[0]);
      var row := Citation(a, ids[0]);
      if row.Some? {
        ElementsAppend(c, d, row.value);
        AssertionsSame(a, b, ids[1..], c + [row.value], d + [row.value]);
      }
    }
  }

  lemma {:induction false} FactsSame(a: seq<Evidence.TrustFact>, b: seq<Evidence.TrustFact>, ids: seq<StableId>, c: seq<DependencyRef>, d: seq<DependencyRef>)
    requires Evidence.DistinctFactIds(a) && Evidence.DistinctFactIds(b) && Elements(a) == Elements(b) && Elements(c) == Elements(d)
    ensures var g, h := GatherFacts(a, ids, c), GatherFacts(b, ids, d);
            g.failure == h.failure && Elements(g.dependencies) == Elements(h.dependencies)
  {
    hide FactById, Evidence.DistinctFactIds;
    if ids != [] {
      FactByIdSame(a, b, ids[0]);
      var row := FactById(a, ids[0]);
      if row.Some? {
        ElementsAppend(c, d, FactRef(row.value));
        FactsSame(a, b, ids[1..], c + [FactRef(row.value)], d + [FactRef(row.value)]);
      }
    }
  }

  /** Gathering gives the same result up to the order of the dependency vector. */
  ghost predicate SameGathering(g: Gathered, h: Gathered) {
    && Elements(g.dependencies) == Elements(h.dependencies)
    && (g.Refused? ==> h.Refused? && g.reason == h.reason)
    && (g.Complete? ==> h.Complete? && g.evidence.assertionTypes == h.evidence.assertionTypes && g.trust == h.trust)
  }

  lemma TrustGatherSame(sha: Sha256, a: PipelineInput, b: PipelineInput, v: Evidence.VerifiedEvidence,
                        w: Evidence.VerifiedEvidence, c: seq<DependencyRef>, d: seq<DependencyRef>)
    requires Reordered(a, b) && Evidence.DistinctFactIds(a.trustFacts) && Evidence.DistinctFactIds(b.trustFacts)
    requires Elements(c) == Elements(d) && v.assertionTypes == w.assertionTypes
    ensures SameGathering(GatherTrust(sha, a, v, c), GatherTrust(sha, b, w, d))
  {
    hide GatherFacts, Evidence.Resolution, IdLess;
    Evidence.ResolutionOrderIndependent(sha, a.trustQuery, a.trustFacts, a.revocations, b.trustFacts, b.revocations);
    var r := Evidence.Resolution(sha, a.trustQuery, a.trustFacts, a.revocations);
    if r.Ok? {
      var ids := SortedIds(r.value.factIds);
      FactsSame(a.trustFacts, b.trustFacts, ids, c, d);
      var g, h := GatherFacts(a.trustFacts, ids, c), GatherFacts(b.trustFacts, ids, d);
      ElementsAppend(g.dependencies, h.dependencies, WatermarkRef(a, r.value.revocationWatermark));
    }
  }

  lemma EvidenceGatherSame(sha: Sha256, a: PipelineInput, b: PipelineInput, c: seq<DependencyRef>, d: seq<DependencyRef>)
    requires Reordered(a, b) && OrderFree(a) && OrderFree(b) && Elements(c) == Elements(d)
    ensures SameGathering(GatherEvidence(sha, a, c), GatherEvidence(sha, b, d))
  {
    hide GatherAssertions, Evidence.Verification, IdLess, GatherTrust, RowsAgree, Citation;
    var s := SettingOf(a);
    assert SettingOf(b) == s.(assertions := b.assertions);
    Evidence.SelectionOrderIndependent(sha, s, a.evidenceRequirements, b.assertions, b.evidenceRequirements);
    var v := Evidence.Verification(sha, s, a.evidenceRequirements);
    if v.Ok? {
      var ids := SortedIds(v.value.assertionIds);
      SelectedIdsAre(sha, a);
      forall id | id in ids ensures Citation(a.assertions, id) == Citation(b.assertions, id) {
        assert id in Elements(ids);
        CitationSame(a, b.assertions, id);
      }
      AssertionsSame(a.assertions, b.assertions, ids, c, d);
      TrustGatherSame(sha, a, b, v.value, Evidence.Verification(sha, SettingOf(b), b.evidenceRequirements).value,
                      GatherAssertions(a.assertions, ids, c).dependencies, GatherAssertions(b.assertions, ids, d).dependencies);
    }
  }

  lemma GatherSame(sha: Sha256, a: PipelineInput, b: PipelineInput)
    requires Reordered(a, b) && OrderFree(a) && OrderFree(b)
    ensures SameGathering(Gather(sha, a), Gather(sha, b))
  {
    hide GatherEntitlements, GatherEvidence, RowsAgree, Evidence.RegisteredLess;
    var refs := Evidence.SortedTypes(a.requiredEntitlements);
    EntitlementsSame(a, b, refs, a.evaluation.dependencies, b.evaluation.dependencies);
    EvidenceGatherSame(sha, a, b,
      GatherEntitlements(a.evaluation, a.entitlementBindings, refs, a.evaluation.dependencies).dependencies,
      GatherEntitlements(b.evaluation, b.entitlementBindings, refs, b.evaluation.dependencies).dependencies);
  }

  lemma DenialSame(sha: Sha256, input: EvaluationInput, ds: seq<DependencyRef>, reason: ReasonCode)
    requires Elements(input.dependencies) == Elements(ds)
    ensures DenyPipeline(sha, input, reason) == DenyPipeline(sha, input.(dependencies := ds), reason)
  {
    hide Dependency.Canonicalized, Dependency.MakeBundle;
    Dependency.OutcomeDependsOnElements(sha, input.dependencies, ds);
  }

  lemma GatheringDecides(sha: Sha256, a: PipelineInput, b: PipelineInput)
    requires Reordered(a, b) && SameGathering(Gather(sha, a), Gather(sha, b))
    ensures Decide(sha, a) == Decide(sha, b)
  {
    hide Gather, DenyPipeline, Evaluation.Evaluate, Policy.Evaluation;
    var g, h := Gather(sha, a), Gather(sha, b);
    DenialSame(sha, a.evaluation, b.evaluation.dependencies, PolicyDigestMismatch);
    DenialSame(sha, a.evaluation, b.evaluation.dependencies, TrustOrRevocationDenied);
    if g.Refused? {
      DenialSame(sha, a.evaluation.(dependencies := g.dependencies), h.dependencies, g.reason);
    } else {
      var x := FinalInput(a, g);
      assert FactsOf(a, g.evidence, g.trust) == FactsOf(b, h.evidence, h.trust);
      assert FinalInput(b, h) == x.(dependencies := h.dependencies);
      EvaluateDependsOnElements(sha, x, h.dependencies);
    }
  }

  /** With distinct binding and fact ids, and assertions that share a selected id cited alike, the
      whole decision, its dependency bytes and its reason included, is the same whatever the order
      of the rows. */
  lemma DecisionOrderIndependent(sha: Sha256, a: PipelineInput, b: PipelineInput)
    requires Reordered(a, b) && OrderFree(a) && OrderFree(b)
    ensures Decide(sha, a) == Decide(sha, b)
  {
    hide Gather, Decide, OrderFree, Reordered;
    GatherSame(sha, a, b);
    GatheringDecides(sha, a, b);
  }

  // ----- exactly when the order of the assertions matters

  lemma {:induction false} FactsAppend(rows: seq<Evidence.TrustFact>, ids: seq<StableId>, ds: seq<DependencyRef>)
    ensures var g, h := GatherFacts(rows, ids, ds), GatherFacts(rows, ids, []);
            g.failure == h.failure && g.dependencies == ds + h.dependencies
    ensures forall d :: d in GatherFacts(rows, ids, []).dependencies ==> d.kind == Dependency.ExternalTrustFact
  {
    hide FactById;
    if ids != [] {
      var row := FactById(rows, ids[0]);
      if row.Some? {
        FactsAppend(rows, ids[1..], ds + [FactRef(row.value)]);
        FactsAppend(rows, ids[1..], [] + [FactRef(row.value)]);
      }
    }
  }

  /** What the trust stage adds, whatever was gathered before. */
  function TrustPart(sha: Sha256, input: PipelineInput): seq<DependencyRef> {
    match Evidence.Resolution(sha, input.trustQuery, input.trustFacts, input.revocations)
    case Err(_) => []
    case Ok(trust) =>
      var g := GatherFacts(input.trustFacts, SortedIds(trust.factIds), []);
      if g.failure.Some? then g.dependencies else g.dependencies + [WatermarkRef(input, trust.revocationWatermark)]
  }

  lemma TrustAppends(sha: Sha256, input: PipelineInput, evidence: Evidence.VerifiedEvidence, ds: seq<DependencyRef>)
    ensures GatherTrust(sha, input, evidence, ds).dependencies == ds + TrustPart(sha, input)
  {
    hide GatherFacts, Evidence.Resolution, IdLess;
    var r := Evidence.Resolution(sha, input.trustQuery, input.trustFacts, input.revocations);
    if r.Ok? { FactsAppend(input.trustFacts, SortedIds(r.value.factIds), ds); }
  }

  lemma TrustPartKinds(sha: Sha256, input: PipelineInput)
    ensures forall d :: d in TrustPart(sha, input) ==> d.kind != Dependency.ExternalStateAssertion
  {
    hide GatherFacts, Evidence.Resolution, IdLess;
    var r := Evidence.Resolution(sha, input.trustQuery, input.trustFacts, input.revocations);
    if r.Ok? { FactsAppend(input.trustFacts, SortedIds(r.value.factIds), []); }
  }

  function EntitlementPart(input: PipelineInput): seq<DependencyRef> {
    GatherEntitlements(input.evaluation, input.entitlementBindings, Evidence.SortedTypes(input.requiredEntitlements),
                       input.evaluation.dependencies).dependencies
  }

  /** The gathering loops reach the assertions. */
  ghost predicate AssertionsReached(input: PipelineInput) {
    EntitlementsHeld(input) && EvidenceHeld(input)
  }

  /** A record of the dependency vector that no assertion put there. */
  predicate Elsewhere(sha: Sha256, input: PipelineInput, d: DependencyRef) {
    d in EntitlementPart(input) || d in TrustPart(sha, input)
  }

  lemma ElsewhereIsInitial(sha: Sha256, input: PipelineInput, d: DependencyRef)
    requires EntitlementsHeld(input) && d.kind == Dependency.ExternalStateAssertion
    ensures Elsewhere(sha, input, d) <==> d in input.evaluation.dependencies
  {
    hide GatherEntitlements, TrustPart, Evidence.RegisteredLess, EntitlementsHeld, Grants;
    EntitlementStage(input, d);
    TrustPartKinds(sha, input);
  }

  ghost predicate Cited(input: PipelineInput, d: DependencyRef) {
    exists id :: SelectedId(input, id) && Citation(input.assertions, id) == Some(d)
  }

  /** Once the assertions are reached, the vector is what comes from elsewhere and the citations. */
  lemma VectorHolds(sha: Sha256, input: PipelineInput, d: DependencyRef)
    requires AssertionsReached(input)
    ensures d in Gather(sha, input).dependencies <==> Elsewhere(sha, input, d) || Cited(input, d)
  {
    hide GatherEntitlements, GatherAssertions, GatherTrust, TrustPart, Evidence.Verification, IdLess, SelectedId, AssertionById,
         Evidence.RegisteredLess, EntitlementsHeld, EvidenceHeld;
    EntitlementsIff(input);
    EvidenceVerifiesIff(sha, input);
    SelectedAssertionsFound(sha, input);
    SelectedIdsAre(sha, input);
    var evidence := Evidence.Verification(sha, SettingOf(input), input.evidenceRequirements).value;
    var ids := SortedIds(evidence.assertionIds);
    assert forall id :: id in ids <==> id in Elements(ids);
    AssertionsGathered(input.assertions, ids, EntitlementPart(input));
    TrustAppends(sha, input, evidence, GatherAssertions(input.assertions, ids, EntitlementPart(input)).dependencies);
  }

  /** Two orders of the assertions cite the same rows, as far as the initial vector leaves it open. */
  ghost predicate SameCitations(a: PipelineInput, rows: seq<Evidence.Assertion>) {
    AssertionsReached(a) ==> forall id | SelectedId(a, id) :: SameCitation(a, rows, id)
  }

  predicate SameCitation(a: PipelineInput, rows: seq<Evidence.Assertion>, id: StableId) {
    var c, d, initial := Citation(a.assertions, id), Citation(rows, id), a.evaluation.dependencies;
    c == d || (c.Some? && d.Some? && c.value in initial && d.value in initial)
  }

  lemma SelectionSame(a: PipelineInput, rows: seq<Evidence.Assertion>)
    requires Elements(a.assertions) == Elements(rows)
    ensures AssertionsReached(a) <==> AssertionsReached(a.(assertions := rows))
    ensures forall id :: SelectedId(a, id) <==> SelectedId(a.(assertions := rows), id)
  {
    hide Evidence.Satisfies, Evidence.ChosenAssertion, Grants, Evidence.Agree;
    var b := a.(assertions := rows);
    assert SettingOf(b) == SettingOf(a).(assertions := rows);
    forall r ensures var c, d := Evidence.ChosenAssertion(SettingOf(a), r), Evidence.ChosenAssertion(SettingOf(b), r);
        c.Some? == d.Some? && (c.Some? ==> c.value.assertionId == d.value.assertionId) {
      Evidence.ChosenIdSame(SettingOf(a), r, rows);
    }
    HeldSame(a, rows);
  }

  lemma HeldSame(a: PipelineInput, rows: seq<Evidence.Assertion>)
    requires Elements(a.assertions) == Elements(rows)
    ensures EntitlementsHeld(a) <==> EntitlementsHeld(a.(assertions := rows))
    ensures EvidenceHeld(a) <==> EvidenceHeld(a.(assertions := rows))
  {
    hide Grants, Evidence.Agree, EntitlementsHeld;
    var b := a.(assertions := rows);
    assert forall x :: x in a.assertions <==> x in Elements(a.assertions);
    assert forall x :: x in rows <==> x in Elements(rows);
    assert forall r, x :: Evidence.Satisfies(SettingOf(a), r, x) == Evidence.Satisfies(SettingOf(b), r, x);
    EntitlementsHeldSame(a, rows);
  }

  lemma EntitlementsHeldSame(a: PipelineInput, rows: seq<Evidence.Assertion>)
    ensures EntitlementsHeld(a) <==> EntitlementsHeld(a.(assertions := rows))
  {
    hide Grants;
  }

  /** A selected id has a row, and its citation names that id. */
  lemma CitedById(input: PipelineInput, id: StableId)
    requires SelectedId(input, id)
    ensures var c := Citation(input.assertions, id);
            c.Some? && c.value.kind == Dependency.ExternalStateAssertion && c.value.id == id && c.value.expectedGeneration.None?
  {
    hide Evidence.Satisfies;
  }

  lemma CitedIs(input: PipelineInput, d: DependencyRef)
    ensures Cited(input, d) <==> SelectedId(input, d.id) && Citation(input.assertions, d.id) == Some(d)
  {
    hide SelectedId, Citation;
    if id :| SelectedId(input, id) && Citation(input.assertions, id) == Some(d) { CitedById(input, id); }
  }

  /** The two vectors hold the same records iff the citations agree. */
  lemma VectorsSameIff(sha: Sha256, a: PipelineInput, rows: seq<Evidence.Assertion>)
    requires Elements(a.assertions) == Elements(rows) && AssertionsReached(a)
    ensures Elements(Gather(sha, a).dependencies) == Elements(Gather(sha, a.(assertions := rows)).dependencies)
            <==> SameCitations(a, rows)
  {
    hide Gather, AssertionsReached, SelectedId, Citation, Elsewhere, Cited;
    var b := a.(assertions := rows);
    var va, vb := Gather(sha, a).dependencies, Gather(sha, b).dependencies;
    SelectionSame(a, rows);
    forall d ensures d in va <==> Elsewhere(sha, a, d) || (SelectedId(a, d.id) && Citation(a.assertions, d.id) == Some(d)) {
      VectorHolds(sha, a, d);
      CitedIs(a, d);
    }
    forall d ensures d in vb <==> Elsewhere(sha, a, d) || (SelectedId(a, d.id) && Citation(rows, d.id) == Some(d)) {
      VectorHolds(sha, b, d);
      CitedIs(b, d);
      ElsewhereSame(sha, a, rows, d);
    }
    assert forall d :: d in va <==> d in Elements(va);
    assert forall d :: d in vb <==> d in Elements(vb);
    if Elements(va) == Elements(vb) {
      forall id | SelectedId(a, id) ensures SameCitation(a, rows, id) {
        CitedById(a, id);
        CitedById(b, id);
        var c, d := Citation(a.assertions, id).value, Citation(rows, id).value;
        assert c in va && d in vb;
        InitialElsewhere(sha, a, c);
        InitialElsewhere(sha, a, d);
      }
    }
    if SameCitations(a, rows) {
      forall d ensures d in va <==> d in vb {
        if SelectedId(a, d.id) {
          assert SameCitation(a, rows, d.id);
          CitedById(a, d.id);
          CitedById(b, d.id);
          if d.kind == Dependency.ExternalStateAssertion { InitialElsewhere(sha, a, d); }
        }
      }
    }
  }

  lemma InitialElsewhere(sha: Sha256, a: PipelineInput, d: DependencyRef)
    requires AssertionsReached(a) && d.kind == Dependency.ExternalStateAssertion
    ensures Elsewhere(sha, a, d) <==> d in a.evaluation.dependencies
  {
    hide Elsewhere, EntitlementsHeld, EvidenceHeld;
    ElsewhereIsInitial(sha, a, d);
  }

  lemma ElsewhereSame(sha: Sha256, a: PipelineInput, rows: seq<Evidence.Assertion>, d: DependencyRef)
    ensures Elsewhere(sha, a, d) <==> Elsewhere(sha, a.(assertions := rows), d)
  {
    hide GatherEntitlements, GatherFacts, Evidence.Resolution, IdLess, Evidence.RegisteredLess;
  }

  /** A decision taken before any row is looked at. */
  predicate Unread(input: PipelineInput) {
    input.evaluation.binding.policyHash != input.policy.semanticHash || !input.revocationSnapshotComplete
  }

  /** Where rows are looked at, the decision carries the canonical bundle of the gathered vector,
      or the empty one where that vector conflicts. */
  lemma BundleIs(sha: Sha256, input: PipelineInput)
    requires !Unread(input)
    ensures var ds := Gather(sha, input).dependencies;
            Decide(sha, input).dependencyBundle
            == if Dependency.Consistent(ds) then Dependency.MakeBundle(sha, Dependency.Canonical(ds)) else EmptyBundle(sha)
  {
    hide Gather, Obstacle, Policy.Evaluation, FactsOf, Dependency.Consistent, Dependency.FirstError, Dependency.Canonical,
         SnapshotHash, Dependency.MakeBundle;
    Dependency.SucceedsIffConsistent(sha, Gather(sha, input).dependencies);
  }

  /** Reordering the assertions alone moves nothing but the citations. */
  lemma GatherAligned(sha: Sha256, a: PipelineInput, rows: seq<Evidence.Assertion>)
    requires Elements(a.assertions) == Elements(rows)
    ensures var g, h := Gather(sha, a), Gather(sha, a.(assertions := rows));
            && (g.Refused? ==> h.Refused? && g.reason == h.reason)
            && (g.Complete? ==> h.Complete? && g.evidence.assertionTypes == h.evidence.assertionTypes && g.trust == h.trust)
            && (!AssertionsReached(a) ==> g.dependencies == h.dependencies)
  {
    hide GatherEntitlements, GatherAssertions, GatherFacts, Evidence.Verification, Evidence.Resolution, IdLess,
         Evidence.RegisteredLess, EntitlementsHeld, EvidenceHeld;
    var b := a.(assertions := rows);
    EntitlementsIff(a);
    EvidenceVerifiesIff(sha, a);
    assert SettingOf(b) == SettingOf(a).(assertions := rows);
    Evidence.SelectionOrderIndependent(sha, SettingOf(a), a.evidenceRequirements, rows, a.evidenceRequirements);
    var v := Evidence.Verification(sha, SettingOf(a), a.evidenceRequirements);
    if v.Ok? {
      SelectedAssertionsFound(sha, a);
      SelectedAssertionsFound(sha, b);
      var ids := SortedIds(v.value.assertionIds);
      AssertionsGathered(a.assertions, ids, EntitlementPart(a));
      AssertionsGathered(rows, ids, EntitlementPart(a));
      FactsFailAlike(sha, a, GatherAssertions(a.assertions, ids, EntitlementPart(a)).dependencies,
                     GatherAssertions(rows, ids, EntitlementPart(a)).dependencies);
    }
  }

  lemma FactsFailAlike(sha: Sha256, a: PipelineInput, c: seq<DependencyRef>, d: seq<DependencyRef>)
    ensures Evidence.Resolution(sha, a.trustQuery, a.trustFacts, a.revocations).Ok? ==>
              var ids := SortedIds(Evidence.Resolution(sha, a.trustQuery, a.trustFacts, a.revocations).value.factIds);
              GatherFacts(a.trustFacts, ids, c).failure == GatherFacts(a.trustFacts, ids, d).failure
  {
    hide GatherFacts, Evidence.Resolution, IdLess;
    var r := Evidence.Resolution(sha, a.trustQuery, a.trustFacts, a.revocations);
    if r.Ok? {
      FactsAppend(a.trustFacts, SortedIds(r.value.factIds), c);
      FactsAppend(a.trustFacts, SortedIds(r.value.factIds), d);
    }
  }

  lemma BothConflict(sha: Sha256, a: PipelineInput, rows: seq<Evidence.Assertion>)
    requires Elements(a.assertions) == Elements(rows) && !Unread(a)
    requires !Dependency.Consistent(Gather(sha, a).dependencies)
    requires !Dependency.Consistent(Gather(sha, a.(assertions := rows)).dependencies)
    ensures Decide(sha, a) == Decide(sha, a.(assertions := rows))
  {
    hide Gather, Obstacle, Policy.Evaluation, Dependency.Consistent, Dependency.FirstError, DomainHash, Dependency.MakeBundle;
    var b := a.(assertions := rows);
    GatherAligned(sha, a, rows);
    var g, h := Gather(sha, a), Gather(sha, b);
    Dependency.SucceedsIffConsistent(sha, g.dependencies);
    Dependency.SucceedsIffConsistent(sha, h.dependencies);
    if g.Complete? { assert FactsOf(a, g.evidence, g.trust) == FactsOf(b, h.evidence, h.trust); }
  }

  lemma BundleTellsVectors(sha: Sha256, a: seq<DependencyRef>, b: seq<DependencyRef>)
    requires Dependency.Consistent(a) && Dependency.Consistent(b) && Dependency.Canonical(a) == Dependency.Canonical(b)
    ensures Elements(a) == Elements(b)
  {
    hide Dependency.Consistent, Dependency.Canonical;
    Dependency.CanonicalHolds(a);
    Dependency.CanonicalHolds(b);
  }

  lemma SomethingCanonical(a: seq<DependencyRef>)
    requires Dependency.Consistent(a) && a != []
    ensures Dependency.Canonical(a) != []
  {
    hide Dependency.Consistent, Dependency.Canonical;
    Dependency.CanonicalHolds(a);
    assert a[0] in Elements(a) && a[0] in Elements(Dependency.Canonical(a));
  }

  /** Two orders of the same assertions, whatever ids they share, lead to the same decision iff no
      row is looked at, or every selected id is cited alike in both, or both vectors conflict. */
  lemma DecisionsSameIff(sha: Sha256, a: PipelineInput, rows: seq<Evidence.Assertion>)
    requires Elements(a.assertions) == Elements(rows)
    ensures var b := a.(assertions := rows);
            Decide(sha, a) == Decide(sha, b) <==>
              || Unread(a)
              || SameCitations(a, rows)
              || (!Dependency.Consistent(Gather(sha, a).dependencies) && !Dependency.Consistent(Gather(sha, b).dependencies))
  {
    hide Gather, Decide, Unread, SameCitations, Dependency.Consistent, Dependency.Canonical, Dependency.MakeBundle;
    var b := a.(assertions := rows);
    var va, vb := Gather(sha, a).dependencies, Gather(sha, b).dependencies;
    if Unread(a) {
      UnreadAlike(sha, a, rows);
    } else {
      if SameCitations(a, rows) {
        SameVectorsDecide(sha, a, rows);
      } else if !Dependency.Consistent(va) && !Dependency.Consistent(vb) {
        BothConflict(sha, a, rows);
      } else {
        BundlesTell(sha, a, rows);
      }
    }
  }

  lemma UnreadAlike(sha: Sha256, a: PipelineInput, rows: seq<Evidence.Assertion>)
    requires Unread(a)
    ensures Decide(sha, a) == Decide(sha, a.(assertions := rows))
  {
    hide Gather, DenyPipeline;
  }

  lemma SameVectorsDecide(sha: Sha256, a: PipelineInput, rows: seq<Evidence.Assertion>)
    requires Elements(a.assertions) == Elements(rows) && SameCitations(a, rows)
    ensures Decide(sha, a) == Decide(sha, a.(assertions := rows))
  {
    hide Gather, Decide, AssertionsReached;
    GatherAligned(sha, a, rows);
    if AssertionsReached(a) { VectorsSameIff(sha, a, rows); }
    GatheringDecides(sha, a, a.(assertions := rows));
  }

  /** Equal decisions have equal bundles, and those tell the vectors apart. */
  lemma BundlesTell(sha: Sha256, a: PipelineInput, rows: seq<Evidence.Assertion>)
    requires Elements(a.assertions) == Elements(rows) && !Unread(a)
    requires var vb := Gather(sha, a.(assertions := rows)).dependencies;
             Dependency.Consistent(Gather(sha, a).dependencies) || Dependency.Consistent(vb)
    ensures var b := a.(assertions := rows);
            Decide(sha, a).dependencyBundle.dependencies == Decide(sha, b).dependencyBundle.dependencies ==> SameCitations(a, rows)
  {
    hide Gather, Decide, AssertionsReached, SameCitations, Dependency.Consistent, Dependency.Canonical, Dependency.CanonicalBytes;
    var b := a.(assertions := rows);
    var va, vb := Gather(sha, a).dependencies, Gather(sha, b).dependencies;
    BundleIs(sha, a);
    BundleIs(sha, b);
    if Decide(sha, a).dependencyBundle.dependencies == Decide(sha, b).dependencyBundle.dependencies {
      if Dependency.Consistent(va) && Dependency.Consistent(vb) {
        BundleTellsVectors(sha, va, vb);
        if AssertionsReached(a) {
          VectorsSameIff(sha, a, rows);
        } else {
          NotReached(a, rows);
        }
      } else if Dependency.Consistent(va) {
        if va != [] { SomethingCanonical(va); }
        NothingCited(sha, a, rows);
      } else {
        if vb != [] { SomethingCanonical(vb); }
        NothingCited(sha, a, rows);
      }
    }
  }

  lemma NotReached(a: PipelineInput, rows: seq<Evidence.Assertion>)
    requires !AssertionsReached(a)
    ensures SameCitations(a, rows)
  {
    hide AssertionsReached, SelectedId, SameCitation;
  }

  lemma NothingCited(sha: Sha256, a: PipelineInput, rows: seq<Evidence.Assertion>)
    requires Elements(a.assertions) == Elements(rows)
    requires Gather(sha, a).dependencies == [] || Gather(sha, a.(assertions := rows)).dependencies == []
    ensures SameCitations(a, rows)
  {
    hide Gather, AssertionsReached, SelectedId, Citation, Elsewhere, Cited, SameCitation;
    var b := a.(assertions := rows);
    SelectionSame(a, rows);
    if AssertionsReached(a) {
      if id :| SelectedId(a, id) {
        CitedById(a, id);
        CitedById(b, id);
        var c, d := Citation(a.assertions, id).value, Citation(rows, id).value;
        CitedIs(a, c);
        CitedIs(b, d);
        VectorHolds(sha, a, c);
        VectorHolds(sha, b, d);
        assert false;
      }
    }
  }

  predicate Permuted(a: seq<Evidence.Assertion>, b: seq<Evidence.Assertion>) { multiset(a) == multiset(b) }

  lemma PermutedElements(a: seq<Evidence.Assertion>, b: seq<Evidence.Assertion>)
    requires Permuted(a, b)
    ensures Elements(a) == Elements(b)
  {
    forall x ensures x in a <==> x in b { assert x in multiset(a) <==> x in multiset(b); }
  }

  function ToFront(rows: seq<Evidence.Assertion>, k: nat): (r: seq<Evidence.Assertion>)
    requires k < |rows|
    ensures Permuted(rows, r) && r[0] == rows[k]
  {
    assert rows == rows[..k] + [rows[k]] + rows[k + 1..];
    [rows[k]] + rows[..k] + rows[k + 1..]
  }

  /** A decision that looks at its assertions, without conflict and without an initial reference to
      one of them, is the same in every order of the assertions iff rows that share a selected id
      carry the same organization and payload digest. */
  lemma EveryOrderSameIff(sha: Sha256, input: PipelineInput)
    requires !Unread(input) && AssertionsReached(input) && Dependency.Consistent(Gather(sha, input).dependencies)
    requires forall x :: x in input.assertions ==> AssertionRef(x) !in input.evaluation.dependencies
    ensures (forall rows :: Permuted(input.assertions, rows) ==> Decide(sha, input) == Decide(sha, input.(assertions := rows)))
            <==> RowsAgree(input)
  {
    hide Gather, Decide, Dependency.Consistent, AssertionsReached, SelectedId, Permuted, RowsAgree, Citation, SameCitation;
    if RowsAgree(input) {
      forall rows | Permuted(input.assertions, rows) ensures Decide(sha, input) == Decide(sha, input.(assertions := rows)) {
        PermutedElements(input.assertions, rows);
        forall id | SelectedId(input, id) ensures SameCitation(input, rows, id) {
          CitationSame(input, rows, id);
          SameIsSame(input, rows, id);
        }
        DecisionsSameIff(sha, input, rows);
      }
    }
    if forall rows :: Permuted(input.assertions, rows) ==> Decide(sha, input) == Decide(sha, input.(assertions := rows)) {
      forall k: nat | k < |input.assertions| && SelectedId(input, input.assertions[k].assertionId)
        ensures Citation(input.assertions, input.assertions[k].assertionId) == Some(AssertionRef(input.assertions[k]))
      {
        var rows, x := ToFront(input.assertions, k), input.assertions[k];
        PermutedElements(input.assertions, rows);
        DecisionsSameIff(sha, input, rows);
        assert SameCitation(input, rows, x.assertionId);
        FrontIsCited(input, rows, x);
      }
      AllCitedAgree(input);
    }
  }

  lemma SameIsSame(input: PipelineInput, rows: seq<Evidence.Assertion>, id: StableId)
    requires Citation(input.assertions, id) == Citation(rows, id)
    ensures SameCitation(input, rows, id)
  {
  }

  lemma FrontIsCited(input: PipelineInput, rows: seq<Evidence.Assertion>, x: Evidence.Assertion)
    requires rows != [] && rows[0] == x && x in input.assertions && AssertionRef(x) !in input.evaluation.dependencies
    requires SameCitation(input, rows, x.assertionId)
    ensures Citation(input.assertions, x.assertionId) == Some(AssertionRef(x))
  {
    assert AssertionById(rows, x.assertionId) == Some(x);
  }

  lemma AllCitedAgree(input: PipelineInput)
    requires forall k: nat | k < |input.assertions| && SelectedId(input, input.assertions[k].assertionId) ::
               Citation(input.assertions, input.assertions[k].assertionId) == Some(AssertionRef(input.assertions[k]))
    ensures RowsAgree(input)
  {
    hide SelectedId, Citation;
    forall x, y | x in input.assertions && y in input.assertions && x.assertionId == y.assertionId && SelectedId(input, x.assertionId)
      ensures AssertionRef(x) == AssertionRef(y)
    {
      var i :| 0 <= i < |input.assertions| && input.assertions[i] == x;
      var j :| 0 <= j < |input.assertions| && input.assertions[j] == y;
    }
  }

  // ----- instances

  /** A decision problem with one requirement, the given assertions, and nothing else to gather. */
  function Bare(base: PipelineInput, r: Evidence.Requirement, rows: seq<Evidence.Assertion>): PipelineInput {
    base.(evaluation := base.evaluation.(dependencies := []), requiredEntitlements := {}, evidenceRequirements := [r],
          assertions := rows, trustQuery := base.trustQuery.(requiredFactTypes := {}), revocations := [])
  }

  function BareWatermark(sha: Sha256, input: PipelineInput): DependencyRef {
    WatermarkRef(input, Evidence.Trusted(sha, map[]).revocationWatermark)
  }

  lemma BareTrust(sha: Sha256, base: PipelineInput, r: Evidence.Requirement, rows: seq<Evidence.Assertion>)
    ensures var input := Bare(base, r, rows);
            EntitlementPart(input) == [] && TrustPart(sha, input) == [BareWatermark(sha, input)]
            && EntitlementsHeld(input) && TrustHeld(input)
  {
    hide DomainHash, Evidence.ChosenFact, IdLess, Evidence.RegisteredLess, Evidence.Trusted;
    var input := Bare(base, r, rows);
    assert |Evidence.SortedTypes({})| == 0;
    assert Evidence.Choices(input.trustQuery, input.trustFacts) == map[];
    NoFacts(sha);
  }

  lemma NoFacts(sha: Sha256)
    ensures SortedIds(Evidence.Trusted(sha, map[]).factIds) == []
  {
    hide DomainHash, IdLess;
    assert Evidence.Trusted(sha, map[]).factIds == {};
  }

  /** With one matching row at least, the vector is the watermark and one citation. */
  lemma BareVector(sha: Sha256, base: PipelineInput, r: Evidence.Requirement, rows: seq<Evidence.Assertion>, y: Evidence.Assertion)
    requires y in rows && Evidence.Satisfies(SettingOf(base), r, y) && forall x :: x in rows ==> x.assertionId == y.assertionId
    ensures var input := Bare(base, r, rows);
            && AssertionsReached(input)
            && (forall d :: d in Gather(sha, input).dependencies <==>
                  d == BareWatermark(sha, input) || Citation(rows, y.assertionId) == Some(d))
            && Dependency.Consistent(Gather(sha, input).dependencies)
  {
    hide Gather, SelectedId, Citation, TrustPart, EntitlementPart, Dependency.Consistent, EntitlementsHeld, EvidenceHeld;
    var input := Bare(base, r, rows);
    BareTrust(sha, base, r, rows);
    BareEvidence(base, r, rows, y);
    forall d ensures d in Gather(sha, input).dependencies <==>
        d == BareWatermark(sha, input) || Citation(rows, y.assertionId) == Some(d) {
      VectorHolds(sha, input, d);
      CitedIs(input, d);
      if Citation(rows, y.assertionId) == Some(d) { CitedById(input, y.assertionId); }
    }
    CitedById(input, y.assertionId);
    TwoConsistent(Gather(sha, input).dependencies, BareWatermark(sha, input), Citation(rows, y.assertionId).value);
  }

  lemma BareEvidence(base: PipelineInput, r: Evidence.Requirement, rows: seq<Evidence.Assertion>, y: Evidence.Assertion)
    requires y in rows && Evidence.Satisfies(SettingOf(base), r, y) && forall x :: x in rows ==> x.assertionId == y.assertionId
    ensures var input := Bare(base, r, rows);
            EvidenceHeld(input) && forall id :: SelectedId(input, id) <==> id == y.assertionId
  {
    var input := Bare(base, r, rows);
    assert forall x :: Evidence.Satisfies(SettingOf(input), r, x) == Evidence.Satisfies(SettingOf(base), r, x);
    assert Evidence.ChosenAssertion(SettingOf(input), r).Some?;
    assert r in input.evidenceRequirements;
  }

  lemma TwoConsistent(ds: seq<DependencyRef>, d: DependencyRef, e: DependencyRef)
    requires (forall x :: x in ds ==> x == d || x == e) && d.kind != e.kind
    requires d.expectedGeneration.None? && e.expectedGeneration.None?
    ensures Dependency.Consistent(ds)
  {
    assert forall i :: 0 <= i < |ds| ==> ds[i] in ds;
  }

  lemma FewRecords(ds: seq<DependencyRef>, d: DependencyRef, e: DependencyRef)
    requires Dependency.Consistent(ds) && forall x :: x in ds ==> x == d || x == e
    ensures |Dependency.Canonical(ds)| <= 2
  {
    hide Dependency.Consistent, Dependency.KeyLess, Dependency.Filed;
    var two := {Dependency.KeyOf(d), Dependency.KeyOf(e)};
    assert Dependency.KeySet(ds) <= two;
    SubsetSize(Dependency.KeySet(ds), two);
  }

  lemma SubsetSize(s: set<Dependency.DependencyKey>, t: set<Dependency.DependencyKey>)
    requires s <= t
    ensures |s| <= |t|
  {
    assert t == s + (t - s);
  }

  /** Of two acceptable rows with one id and different payloads, the first one is cited, so the two
      orders give different dependency bytes. */
  lemma SharedIdChangesBytes(sha: Sha256, base: PipelineInput, r: Evidence.Requirement, x: Evidence.Assertion, y: Evidence.Assertion)
    requires !Unread(base) && x.assertionId == y.assertionId && x.payloadDigest != y.payloadDigest
    requires Evidence.Satisfies(SettingOf(base), r, x) && Evidence.Satisfies(SettingOf(base), r, y)
    ensures Decide(sha, Bare(base, r, [x, y])).dependencyBundle.canonicalBytes
            != Decide(sha, Bare(base, r, [y, x])).dependencyBundle.canonicalBytes
  {
    hide Gather, Decide, Dependency.Consistent, Dependency.Canonical, Dependency.CanonicalBytes, Evidence.Satisfies;
    var a, b := Bare(base, r, [x, y]), Bare(base, r, [y, x]);
    BareVector(sha, base, r, [x, y], y);
    BareVector(sha, base, r, [y, x], y);
    var va, vb := Gather(sha, a).dependencies, Gather(sha, b).dependencies;
    assert Citation([x, y], y.assertionId) == Some(AssertionRef(x));
    assert Citation([y, x], y.assertionId) == Some(AssertionRef(y));
    FewRecords(va, BareWatermark(sha, a), AssertionRef(x));
    FewRecords(vb, BareWatermark(sha, b), AssertionRef(y));
    assert AssertionRef(x) in Elements(va) && AssertionRef(x) !in Elements(vb);
    BundleIs(sha, a);
    BundleIs(sha, b);
    Dependency.BytesAreTheSet(va, vb);
  }

  /** Of an unacceptable and an acceptable row with one id, the second is selected and the first is
      cited: the decision allows as if the first were not there, and its bundle names only the first. */
  lemma SelectedIsNotCited(sha: Sha256, base: PipelineInput, r: Evidence.Requirement, x: Evidence.Assertion, y: Evidence.Assertion)
    requires !Unread(base) && base.policy.program.defaultEffect == Policy.DenyEffect
    requires x.assertionId == y.assertionId && AssertionRef(x) != AssertionRef(y)
    requires !Evidence.Satisfies(SettingOf(base), r, x) && Evidence.Satisfies(SettingOf(base), r, y)
    ensures var both, alone := Bare(base, r, [x, y]), Bare(base, r, [y]);
            && Evidence.ChosenAssertion(SettingOf(both), r) == Some(y)
            && (Decide(sha, both).outcome == Allow <==> Decide(sha, alone).outcome == Allow)
            && AssertionRef(x) in Decide(sha, both).dependencyBundle.dependencies
            && AssertionRef(y) !in Decide(sha, both).dependencyBundle.dependencies
  {
    hide Gather, Decide, Dependency.Consistent, Dependency.Canonical, Dependency.CanonicalBytes, Evidence.Satisfies, EntitlementsHeld,
         EvidenceHeld, TrustHeld, PolicyAllows, BaseChecks;
    var both, alone := Bare(base, r, [x, y]), Bare(base, r, [y]);
    OnlySatisfier(base, r, x, y);
    BareVector(sha, base, r, [x, y], y);
    BareVector(sha, base, r, [y], y);
    BareTrust(sha, base, r, [x, y]);
    BareTrust(sha, base, r, [y]);
    DecidesAllowIff(sha, both);
    DecidesAllowIff(sha, alone);
    assert DecisionFacts(both) == DecisionFacts(alone);
    var ds := Gather(sha, both).dependencies;
    assert Citation([x, y], y.assertionId) == Some(AssertionRef(x));
    BundleIs(sha, both);
    Dependency.CanonicalHolds(ds);
    assert AssertionRef(x) in Elements(ds) && AssertionRef(y) !in Elements(ds);
    assert forall d :: d in Dependency.Canonical(ds) <==> d in Elements(Dependency.Canonical(ds));
  }

  lemma OnlySatisfier(base: PipelineInput, r: Evidence.Requirement, x: Evidence.Assertion, y: Evidence.Assertion)
    requires !Evidence.Satisfies(SettingOf(base), r, x) && Evidence.Satisfies(SettingOf(base), r, y)
    ensures Evidence.ChosenAssertion(SettingOf(Bare(base, r, [x, y])), r) == Some(y)
  {
    var s := SettingOf(Bare(base, r, [x, y]));
    assert forall a :: Evidence.Satisfies(s, r, a) == Evidence.Satisfies(SettingOf(base), r, a);
    assert Evidence.ChosenAssertion(s, r).Some?;
  }
}
