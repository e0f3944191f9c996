/** The policy IR: bounded compilation, first-match evaluation and the digest encoding (policy.rs). */
module Policy {
  import opened Bytes
  import opened Wrappers
  import opened Lattice

  const POLICY_DOMAIN := "ANAR-DETERMINISTIC-POLICY-IR-1"
  const MAX_RULES := 128
  const MAX_PREDICATE_NODES := 1024
  const MAX_PREDICATE_DEPTH := 32

  datatype PrincipalKind = Human | Agent | ServicePrincipal | Workload | Device
  datatype MembershipClass = Standard | Guest | ServiceMember | ExternalCollaborator | Child

  function KindCode(k: PrincipalKind): byte {
    match k
    case Human => 0
    case Agent => 1
    case ServicePrincipal => 2
    case Workload => 3
    case Device => 4
  }

  function ClassCode(c: MembershipClass): byte {
    match c
    case Standard => 0
    case Guest => 1
    case ServiceMember => 2
    case ExternalCollaborator => 3
    case Child => 4
  }

  datatype PolicyEffect = DenyEffect | ApprovalEffect | AllowEffect

  function EffectOutcome(e: PolicyEffect): DecisionOutcome {
    match e
    case DenyEffect => Deny
    case ApprovalEffect => RequireApproval
    case AllowEffect => Allow
  }

  function EffectCode(e: PolicyEffect): byte {
    match e
    case DenyEffect => 1
    case ApprovalEffect => 2
    case AllowEffect => 3
  }

  datatype Predicate =
    | Always
    | All(predicates: seq<Predicate>)
    | Any(predicates: seq<Predicate>)
    | Not(inner: Predicate)
    | PrincipalKindIs(kind: PrincipalKind)
    | MembershipClassIs(class_: MembershipClass)
    | PurposeIs(purpose: RegisteredId)
    | HasEntitlement(entitlementRef: RegisteredId)
    | HasEvidence(assertionType: RegisteredId)
    | HasTrustFact(factType: RegisteredId, factValue: RegisteredId)
    | NoEffectiveRevocation(targetRef: RegisteredId)
    | AtOrAfter(epochMs: i64)
    | Before(epochMs: i64)

  datatype Rule = Rule(ruleId: RegisteredId, condition: Predicate, effect: PolicyEffect)
  datatype Program = Program(policyId: RegisteredId, version: u32, rules: seq<Rule>, defaultEffect: PolicyEffect)
  datatype CompiledPolicy = CompiledPolicy(program: Program, semanticHash: SemanticDigest)

  datatype PolicyError = InvalidProgram | DefaultMustDeny | DuplicateRuleId | PredicateBudgetExceeded

  type PolicyResult<+T> = Result<T, PolicyError>

  // ----- measures of a predicate tree

  predicate Branching(p: Predicate) { p.All? || p.Any? }

  function Nodes(p: Predicate): (n: nat)
    ensures n >= 1
  {
    if Branching(p) then 1 + NodesOf(p.predicates)
    else if p.Not? then 1 + Nodes(p.inner)
    else 1
  }

  function NodesOf(ps: seq<Predicate>): (n: nat)
    ensures n >= |ps|
  {
    if ps == [] then 0 else Nodes(ps[0]) + NodesOf(ps[1..])
  }

  /** Number of levels of the tree. */
  function Height(p: Predicate): (n: nat)
    ensures n >= 1
  {
    if Branching(p) then 1 + HeightOf(p.predicates)
    else if p.Not? then 1 + Height(p.inner)
    else 1
  }

  function HeightOf(ps: seq<Predicate>): nat {
    if ps == [] then 0
    else
      var first, rest := Height(ps[0]), HeightOf(ps[1..]);
      if first >= rest then first else rest
  }

  /** Every conjunction and disjunction has between 1 and MAX_RULES members. */
  predicate Shaped(p: Predicate) {
    && (Branching(p) ==> 1 <= |p.predicates| <= MAX_RULES && ShapedAll(p.predicates))
    && (p.Not? ==> Shaped(p.inner))
  }

  predicate ShapedAll(ps: seq<Predicate>) {
    ps == [] || (Shaped(ps[0]) && ShapedAll(ps[1..]))
  }

  // ----- validation

  /** `validate_predicate`, the running node count threaded through. */
  function Check(p: Predicate, depth: nat, nodes: nat): (r: PolicyResult<nat>)
    ensures r.Err? ==> r.error in {PredicateBudgetExceeded, InvalidProgram}
  {
    var count := nodes + 1;
    if depth > MAX_PREDICATE_DEPTH || count > MAX_PREDICATE_NODES then Err(PredicateBudgetExceeded)
    else if Branching(p) then
      if p.predicates == [] || |p.predicates| > MAX_RULES then Err(InvalidProgram)
      else CheckAll(p.predicates, depth + 1, count)
    else if p.Not? then Check(p.inner, depth + 1, count)
    else Ok(count)
  }

  function CheckAll(ps: seq<Predicate>, depth: nat, nodes: nat): (r: PolicyResult<nat>)
    ensures r.Err? ==> r.error in {PredicateBudgetExceeded, InvalidProgram}
  {
    if ps == [] then Ok(nodes)
    else
      var count :- Check(ps[0], depth, nodes);
      CheckAll(ps[1..], depth, count)
  }

  /** A predicate passes iff its tree, counted on top of `nodes`, is within all three bounds. */
  lemma {:induction false} CheckExact(p: Predicate, depth: nat, nodes: nat)
    requires depth >= 1
    ensures Check(p, depth, nodes).Ok? <==>
            Shaped(p) && depth + Height(p) - 1 <= MAX_PREDICATE_DEPTH && nodes + Nodes(p) <= MAX_PREDICATE_NODES
    ensures Check(p, depth, nodes).Ok? ==> Check(p, depth, nodes).value == nodes + Nodes(p)
  {
    if Branching(p) {
      CheckAllExact(p.predicates, depth + 1, nodes + 1);
    } else if p.Not? {
      CheckExact(p.inner, depth + 1, nodes + 1);
    }
  }

  lemma {:induction false} CheckAllExact(ps: seq<Predicate>, depth: nat, nodes: nat)
    requires depth >= 1
    ensures CheckAll(ps, depth, nodes).Ok? <==>
            && ShapedAll(ps)
            && (ps != [] ==> depth + HeightOf(ps) - 1 <= MAX_PREDICATE_DEPTH)
            && (ps != [] ==> nodes + NodesOf(ps) <= MAX_PREDICATE_NODES)
    ensures CheckAll(ps, depth, nodes).Ok? ==> CheckAll(ps, depth, nodes).value == nodes + NodesOf(ps)
  {
    if ps != [] {
      CheckExact(ps[0], depth, nodes);
      CheckAllExact(ps[1..], depth, nodes + Nodes(ps[0]));
    }
  }

  method ValidatePredicate(p: Predicate, depth: nat, nodes: nat) returns (r: PolicyResult<nat>)
    ensures r == Check(p, depth, nodes)
  {
    var count: nat := nodes + 1;
    if depth > MAX_PREDICATE_DEPTH || count > MAX_PREDICATE_NODES {
      return Err(PredicateBudgetExceeded);
    }
    if Branching(p) {
      var ps := p.predicates;
      if ps == [] || |ps| > MAX_RULES {
        return Err(InvalidProgram);
      }
      for i := 0 to |ps|
        invariant CheckAll(ps[i..], depth + 1, count) == Check(p, depth, nodes)
      {
        assert ps[i..][1..] == ps[i + 1..];
        count :- ValidatePredicate(ps[i], depth + 1, count);
      }
    } else if p.Not? {
      count :- ValidatePredicate(p.inner, depth + 1, count);
    }
    return Ok(count);
  }

  function RuleNodes(rules: seq<Rule>): nat {
    if rules == [] then 0 else Nodes(rules[0].condition) + RuleNodes(rules[1..])
  }

  predicate DistinctRuleIds(rules: seq<Rule>) {
    forall i, j :: 0 <= i < j < |rules| ==> rules[i].ruleId != rules[j].ruleId
  }

  predicate RulesShaped(rules: seq<Rule>) {
    forall i :: 0 <= i < |rules| ==> Shaped(rules[i].condition) && Height(rules[i].condition) <= MAX_PREDICATE_DEPTH
  }

  /** The programs that compile. */
  predicate Acceptable(p: Program) {
    && p.version != 0 && 1 <= |p.rules| <= MAX_RULES
    && p.defaultEffect == DenyEffect
    && DistinctRuleIds(p.rules)
    && RulesShaped(p.rules)
    && RuleNodes(p.rules) <= MAX_PREDICATE_NODES
  }

  lemma {:induction false} RuleNodesExtend(rules: seq<Rule>, rule: Rule)
    ensures RuleNodes(rules + [rule]) == RuleNodes(rules) + Nodes(rule.condition)
  {
    if rules == [] {
      assert rules + [rule] == [rule];
    } else {
      assert (rules + [rule])[1..] == rules[1..] + [rule];
      RuleNodesExtend(rules[1..], rule);
    }
  }

  /** The loop of `compile` over the first `n` rules: the node count, or the first refusal. */
  function CheckRules(rules: seq<Rule>, n: nat): PolicyResult<nat>
    requires n <= |rules|
  {
    if n == 0 then Ok(0)
    else
      var count :- CheckRules(rules, n - 1);
      if exists j :: 0 <= j < n - 1 && rules[j].ruleId == rules[n - 1].ruleId then Err(DuplicateRuleId)
      else Check(rules[n - 1].condition, 1, count)
  }

  /** The loop passes iff ids are distinct, trees are shaped and not too high, and the nodes of all
      rules together are within the budget. */
  lemma {:induction false} CheckRulesExact(rules: seq<Rule>, n: nat)
    requires n <= |rules|
    ensures CheckRules(rules, n).Ok? <==>
            DistinctRuleIds(rules[..n]) && RulesShaped(rules[..n]) && RuleNodes(rules[..n]) <= MAX_PREDICATE_NODES
    ensures CheckRules(rules, n).Ok? ==> CheckRules(rules, n).value == RuleNodes(rules[..n])
  {
    hide Shaped, Nodes, Height, Check, RuleNodes;
    if n == 0 {
      NoRules(rules);
    } else {
      var p, rule := rules[..n - 1], rules[n - 1];
      CheckRulesExact(rules, n - 1);
      assert rules[..n] == p + [rule];
      RuleNodesExtend(p, rule);
      OneMoreRule(p, rule);
      if CheckRules(rules, n - 1).Ok? { CheckExact(rule.condition, 1, RuleNodes(p)); }
      assert forall j :: 0 <= j < n - 1 ==> rules[j] == p[j];
    }
  }

  lemma NoRules(rules: seq<Rule>)
    ensures DistinctRuleIds(rules[..0]) && RulesShaped(rules[..0]) && RuleNodes(rules[..0]) == 0
  {
  }

  lemma OneMoreRule(p: seq<Rule>, rule: Rule)
    ensures DistinctRuleIds(p + [rule]) <==> DistinctRuleIds(p) && forall j :: 0 <= j < |p| ==> p[j].ruleId != rule.ruleId
    ensures RulesShaped(p + [rule]) <==> RulesShaped(p) && Shaped(rule.condition) && Height(rule.condition) <= MAX_PREDICATE_DEPTH
  {
    hide Shaped, Height;
    var q := p + [rule];
    assert q[|p|] == rule && forall j :: 0 <= j < |p| ==> q[j] == p[j];
  }

  lemma {:induction false} CheckRulesStops(rules: seq<Rule>, n: nat)
    requires n <= |rules| && CheckRules(rules, n).Err?
    ensures CheckRules(rules, |rules|) == CheckRules(rules, n)
    decreases |rules| - n
  {
    hide Check;
    if n < |rules| { CheckRulesStops(rules, n + 1); }
  }

  /** The first reason a program does not compile. */
  function CompileError(p: Program): Option<PolicyError> {
    if p.version == 0 || p.rules == [] || |p.rules| > MAX_RULES then Some(InvalidProgram)
    else if p.defaultEffect != DenyEffect then Some(DefaultMustDeny)
    else
      var checked := CheckRules(p.rules, |p.rules|);
      if checked.Err? then Some(checked.error) else None
  }

  /** Exactly the acceptable programs have no compile error. */
  lemma NoErrorIffAcceptable(p: Program)
    ensures CompileError(p) == None <==> Acceptable(p)
  {
    hide DistinctRuleIds, RulesShaped, RuleNodes;
    CheckRulesExact(p.rules, |p.rules|);
    assert p.rules[..|p.rules|] == p.rules;
  }

  /** `CompiledPolicy::compile` accepts exactly the acceptable programs and hashes their encoding;
      every other program gets the first error in rule order. */
  method Compile(sha: Sha256, program: Program) returns (r: PolicyResult<CompiledPolicy>)
    ensures r.Ok? <==> Acceptable(program)
    ensures r.Ok? ==> r.value == CompiledPolicy(program, DomainHash(sha, POLICY_DOMAIN, EncodeProgram(program)))
    ensures r.Err? ==> CompileError(program) == Some(r.error)
  {
    hide RulesShaped, DistinctRuleIds, RuleNodes, EncodeProgram, DomainHash, CheckRules;
    NoErrorIffAcceptable(program);
    hide Acceptable;
    if program.version == 0 || program.rules == [] || |program.rules| > MAX_RULES {
      return Err(InvalidProgram);
    }
    if program.defaultEffect != DenyEffect {
      return Err(DefaultMustDeny);
    }
    var _ :- ValidateRules(program.rules);
    var encoded := EncodeProgramBytes(program);
    return Ok(CompiledPolicy(program, DomainHash(sha, POLICY_DOMAIN, encoded)));
  }

  /** The loop of `compile`. */
  method ValidateRules(rules: seq<Rule>) returns (r: PolicyResult<()>)
    ensures var checked := CheckRules(rules, |rules|);
            if checked.Ok? then r == Ok(()) else r == Err(checked.error)
  {
    hide Check;
    var ruleIds: set<RegisteredId> := {};
    var nodeCount: nat := 0;
    for n := 0 to |rules|
      invariant forall id :: id in ruleIds <==> exists i :: 0 <= i < n && rules[i].ruleId == id
      invariant CheckRules(rules, n) == Ok(nodeCount)
    {
      var rule := rules[n];
      if CheckRules(rules, n + 1).Err? { CheckRulesStops(rules, n + 1); }
      if rule.ruleId in ruleIds {
        return Err(DuplicateRuleId);
      }
      ruleIds := ruleIds + {rule.ruleId};
      nodeCount :- ValidatePredicate(rule.condition, 1, nodeCount);
    }
    return Ok(());
  }

  // ----- evaluation

  datatype PolicyFacts = PolicyFacts(
    principalKind: PrincipalKind,
    membershipClass: MembershipClass,
    purpose: RegisteredId,
    activeEntitlements: set<RegisteredId>,
    verifiedEvidenceTypes: set<RegisteredId>,
    currentTrustFacts: set<(RegisteredId, RegisteredId)>,
    effectiveRevocationTargets: set<RegisteredId>,
    revocationSnapshotComplete: bool,
    evaluatedAtEpochMs: i64)

  predicate Matches(p: Predicate, facts: PolicyFacts) {
    match p
    case Always => true
    case All(ps) => forall i :: 0 <= i < |ps| ==> Matches(ps[i], facts)
    case Any(ps) => exists i :: 0 <= i < |ps| && Matches(ps[i], facts)
    case Not(q) => !Matches(q, facts)
    case PrincipalKindIs(k) => facts.principalKind == k
    case MembershipClassIs(c) => facts.membershipClass == c
    case PurposeIs(v) => facts.purpose == v
    case HasEntitlement(e) => e in facts.activeEntitlements
    case HasEvidence(t) => t in facts.verifiedEvidenceTypes
    case HasTrustFact(t, v) => (t, v) in facts.currentTrustFacts
    case NoEffectiveRevocation(t) => facts.revocationSnapshotComplete && t !in facts.effectiveRevocationTargets
    case AtOrAfter(at) => facts.evaluatedAtEpochMs >= at
    case Before(at) => facts.evaluatedAtEpochMs < at
  }

  datatype PolicyEvaluation = PolicyEvaluation(
    outcome: DecisionOutcome, matchedRuleId: Option<RegisteredId>, policySemanticHash: SemanticDigest)

  function FirstMatch(rules: seq<Rule>, facts: PolicyFacts): (n: nat)
    ensures n <= |rules| && (n < |rules| ==> Matches(rules[n].condition, facts))
    ensures forall i :: 0 <= i < n ==> !Matches(rules[i].condition, facts)
  {
    if rules == [] || Matches(rules[0].condition, facts) then 0
    else
      var n := 1 + FirstMatch(rules[1..], facts);
      assert forall i :: 1 <= i < n ==> rules[i] == rules[1..][i - 1];
      n
  }

  predicate IsFirstMatch(rules: seq<Rule>, facts: PolicyFacts, i: int) {
    0 <= i < |rules| && Matches(rules[i].condition, facts)
    && forall j :: 0 <= j < i ==> !Matches(rules[j].condition, facts)
  }

  function Evaluation(policy: CompiledPolicy, facts: PolicyFacts): PolicyEvaluation {
    var rules := policy.program.rules;
    var n := FirstMatch(rules, facts);
    if n < |rules| then PolicyEvaluation(EffectOutcome(rules[n].effect), Some(rules[n].ruleId), policy.semanticHash)
    else PolicyEvaluation(EffectOutcome(policy.program.defaultEffect), None, policy.semanticHash)
  }

  /** `CompiledPolicy::evaluate`: the effect of the first matching rule, and the default when
      no rule matches. */
  method Evaluate(policy: CompiledPolicy, facts: PolicyFacts) returns (r: PolicyEvaluation)
    ensures r == Evaluation(policy, facts)
    ensures forall i | IsFirstMatch(policy.program.rules, facts, i) ::
              r.outcome == EffectOutcome(policy.program.rules[i].effect) && r.matchedRuleId == Some(policy.program.rules[i].ruleId)
    ensures (forall i :: 0 <= i < |policy.program.rules| ==> !Matches(policy.program.rules[i].condition, facts)) ==>
              r.outcome == EffectOutcome(policy.program.defaultEffect) && r.matchedRuleId == None
  {
    hide Matches;
    var rules := policy.program.rules;
    for i := 0 to |rules|
      invariant forall j :: 0 <= j < i ==> !Matches(rules[j].condition, facts)
    {
      if Matches(rules[i].condition, facts) {
        return PolicyEvaluation(EffectOutcome(rules[i].effect), Some(rules[i].ruleId), policy.semanticHash);
      }
    }
    return PolicyEvaluation(EffectOutcome(policy.program.defaultEffect), None, policy.semanticHash);
  }

  // ----- encoding

  function Tag(p: Predicate): byte {
    match p
    case Always => 1
    case All(_) => 2
    case Any(_) => 3
    case Not(_) => 4
    case PrincipalKindIs(_) => 5
    case MembershipClassIs(_) => 6
    case PurposeIs(_) => 7
    case HasEntitlement(_) => 8
    case HasEvidence(_) => 9
    case HasTrustFact(_, _) => 10
    case NoEffectiveRevocation(_) => 11
    case AtOrAfter(_) => 12
    case Before(_) => 13
  }

  function EncodePredicate(p: Predicate): bytes
    decreases p, 1
  {
    [Tag(p)] + EncodeBody(p)
  }

  function EncodeBody(p: Predicate): bytes
    decreases p, 0
  {
    match p
    case Always => []
    case All(ps) => U32(|ps|) + EncodeChildren(ps)
    case Any(ps) => U32(|ps|) + EncodeChildren(ps)
    case Not(q) => EncodePredicate(q)
    case PrincipalKindIs(k) => [KindCode(k)]
    case MembershipClassIs(c) => [ClassCode(c)]
    case PurposeIs(v) => Framed(v)
    case HasEntitlement(e) => Framed(e)
    case HasEvidence(t) => Framed(t)
    case HasTrustFact(t, v) => Framed(t) + Framed(v)
    case NoEffectiveRevocation(t) => Framed(t)
    case AtOrAfter(at) => I64(at)
    case Before(at) => I64(at)
  }

  function EncodeChildren(ps: seq<Predicate>): bytes
    decreases ps, 2
  {
    if ps == [] then [] else Framed(EncodePredicate(ps[0])) + EncodeChildren(ps[1..])
  }

  function EncodeRules(rules: seq<Rule>): bytes {
    if rules == [] then []
    else Framed(rules[0].ruleId) + (EncodePredicate(rules[0].condition) + ([EffectCode(rules[0].effect)] + EncodeRules(rules[1..])))
  }

  function EncodeProgram(p: Program): bytes {
    Framed(p.policyId) + (BigEndian(p.version, 4) + (U32(|p.rules|) + (EncodeRules(p.rules) + [EffectCode(p.defaultEffect)])))
  }

  // The same bytes, appended to one growing buffer as the source does.

  method AppendPredicate(output: bytes, p: Predicate) returns (r: bytes)
    ensures r == output + EncodePredicate(p)
    decreases p, 1
  {
    hide Tag, EncodeBody;
    r := output + [Tag(p)];
    r := AppendBody(r, p);
  }

  method AppendBody(output: bytes, p: Predicate) returns (r: bytes)
    ensures r == output + EncodeBody(p)
    decreases p, 0
  {
    hide U32, I64, Framed, EncodePredicate, EncodeChildren, KindCode, ClassCode, IsRegistered;
    r := output;
    match p {
      case Always =>
      case All(ps) => r := AppendChildren(r, ps);
      case Any(ps) => r := AppendChildren(r, ps);
      case Not(q) => r := AppendPredicate(r, q);
      case PrincipalKindIs(k) => r := r + [KindCode(k)];
      case MembershipClassIs(c) => r := r + [ClassCode(c)];
      case PurposeIs(v) => r := r + Framed(v);
      case HasEntitlement(e) => r := r + Framed(e);
      case HasEvidence(t) => r := r + Framed(t);
      case HasTrustFact(t, v) => r := r + Framed(t) + Framed(v);
      case NoEffectiveRevocation(t) => r := r + Framed(t);
      case AtOrAfter(at) => r := r + I64(at);
      case Before(at) => r := r + I64(at);
    }
  }

  method AppendChildren(output: bytes, ps: seq<Predicate>) returns (r: bytes)
    ensures r == output + (U32(|ps|) + EncodeChildren(ps))
    decreases ps, 2
  {
    hide U32, EncodePredicate;
    r := output + U32(|ps|);
    for i := 0 to |ps|
      invariant r + EncodeChildren(ps[i..]) == output + (U32(|ps|) + EncodeChildren(ps))
    {
      var child := AppendPredicate([], ps[i]);
      ghost var before, rest := r, EncodeChildren(ps[i + 1..]);
      r := r + U32(|child|) + child;
      assert ps[i..][1..] == ps[i + 1..];
      assert r + rest == before + (Framed(child) + rest);
    }
  }

  method EncodeProgramBytes(p: Program) returns (r: bytes)
    ensures r == EncodeProgram(p)
  {
    hide U32, EncodePredicate, BigEndian, Framed;
    r := [];
    r := r + Framed(p.policyId);
    r := r + BigEndian(p.version, 4);
    r := r + U32(|p.rules|);
    ghost var head := r;
    for i := 0 to |p.rules|
      invariant r + EncodeRules(p.rules[i..]) == head + EncodeRules(p.rules)
    {
      ghost var before, rest := r, EncodeRules(p.rules[i + 1..]);
      var rule := p.rules[i];
      r := r + Framed(rule.ruleId);
      r := AppendPredicate(r, rule.condition);
      r := r + [EffectCode(rule.effect)];
      assert p.rules[i..][1..] == p.rules[i + 1..];
      assert r + rest == before + (Framed(rule.ruleId) + (EncodePredicate(rule.condition) + ([EffectCode(rule.effect)] + rest)));
    }
    ghost var end := [EffectCode(p.defaultEffect)];
    assert r == head + EncodeRules(p.rules);
    r := r + [EffectCode(p.defaultEffect)];
    assert r == Framed(p.policyId) + (BigEndian(p.version, 4) + (U32(|p.rules|) + (EncodeRules(p.rules) + end)));
  }

  // ----- the size of the encoding

  /** The largest node: a tag, two framed 128-byte texts, and the length its parent writes. */
  const NODE_BYTES := 273

  lemma {:induction false} EncodedSize(p: Predicate)
    ensures |EncodePredicate(p)| + 4 <= NODE_BYTES * Nodes(p)
  {
    hide U32, I64;
    if Branching(p) { ChildrenSize(p.predicates); }
    if p.Not? { EncodedSize(p.inner); }
  }

  lemma {:induction false} ChildrenSize(ps: seq<Predicate>)
    ensures |EncodeChildren(ps)| <= NODE_BYTES * NodesOf(ps)
  {
    hide EncodePredicate, Nodes;
    if ps != [] {
      EncodedSize(ps[0]);
      ChildrenSize(ps[1..]);
    }
  }

  /** No length field of an accepted predicate is truncated to 32 bits. */
  lemma LengthsNeverTruncate(p: Predicate)
    requires Nodes(p) <= MAX_PREDICATE_NODES
    ensures |EncodePredicate(p)| < U32_BOUND && (Branching(p) ==> |p.predicates| < U32_BOUND)
  {
    EncodedSize(p);
  }
}
