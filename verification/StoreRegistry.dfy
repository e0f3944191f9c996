/** The definition tables of the predecessor store and what memberships hold of them (store.py):
    roles, entitlements, policies, adapters, operations, assignments, grants and bindings. */
module StoreRegistry {
  import opened Wrappers
  import opened Selection
  import opened StoreTables

  datatype DefinitionRef = DefinitionRef(definition: Id, version: int)

  /** A role assignment or an entitlement grant: UNIQUE in membership, definition and version. */
  datatype Holding = Holding(membership: Id, ref: DefinitionRef)

  datatype Adapter = Adapter(name: string, active: bool)
  datatype Operation = Operation(adapter: Id, name: string, active: bool)
  datatype Binding = Binding(
    membership: Id, adapter: Id, operation: Id, entitlement: DefinitionRef, policy: DefinitionRef, active: bool)

  /** Each definition and each holding is stored with whether its status is active. */
  type Definitions = map<DefinitionRef, bool>
  type Holdings = map<Holding, bool>

  datatype Registry = Registry(
    roles: Definitions, entitlements: Definitions, policies: Definitions, adapters: map<Id, Adapter>,
    operations: map<Id, Operation>, assignments: Holdings, grants: Holdings, bindings: map<Id, Binding>)

  const NO_DEFINITIONS: Registry := Registry(map[], map[], map[], map[], map[], map[], map[], map[])

  predicate ActiveDefinition(t: Definitions, ref: DefinitionRef) { ref in t && t[ref] }

  // ----- definitions

  function Define(t: Definitions, ref: DefinitionRef): Refusable<Definitions> {
    var _ :- Check(ref.version >= 1, InvalidArgument);
    var _ :- Check(ref !in t, IntegrityFailure);
    Ok(t[ref := true])
  }

  function AddAdapter(g: Registry, id: Id, name: string): Refusable<Registry> {
    var _ :- Check(id !in g.adapters && forall a :: a in g.adapters ==> g.adapters[a].name != name, IntegrityFailure);
    Ok(g.(adapters := g.adapters[id := Adapter(name, true)]))
  }

  function AddOperation(g: Registry, id: Id, adapter: Id, name: string): Refusable<Registry> {
    var _ :- Check(id !in g.operations && adapter in g.adapters, IntegrityFailure);
    var _ :- Check(forall o :: o in g.operations && g.operations[o].adapter == adapter ==> g.operations[o].name != name,
                   IntegrityFailure);
    Ok(g.(operations := g.operations[id := Operation(adapter, name, true)]))
  }

  // ----- what a membership holds

  /** The loop that inserts one holding per reference of an invitation. */
  function AddHoldings(t: Holdings, definitions: Definitions, membership: Id, refs: seq<DefinitionRef>): Refusable<Holdings>
    decreases |refs|
  {
    if refs == [] then Ok(t)
    else
      var n := |refs| - 1;
      var before :- AddHoldings(t, definitions, membership, refs[..n]);
      var _ :- Check(Holding(membership, refs[n]) !in before && refs[n] in definitions, IntegrityFailure);
      Ok(before[Holding(membership, refs[n]) := true])
  }

  predicate Holds(t: Holdings, membership: Id, ref: DefinitionRef) {
    Holding(membership, ref) in t && t[Holding(membership, ref)]
  }

  /** The checks of `grant_adapter_operation`, then the foreign keys of the inserted binding. */
  function AddBinding(g: Registry, id: Id, b: Binding): Refusable<Registry> {
    var _ :- Check(ActiveDefinition(g.policies, b.policy), PolicyRequired);
    var _ :- Check(Holds(g.grants, b.membership, b.entitlement), EntitlementRequired);
    var _ :- Check(b.operation in g.operations && g.operations[b.operation].active, OperationRequired);
    var _ :- Check(g.operations[b.operation].adapter == b.adapter, OperationMismatch);
    var _ :- Check(id !in g.bindings && b.adapter in g.adapters && b.entitlement in g.entitlements, IntegrityFailure);
    Ok(g.(bindings := g.bindings[id := b]))
  }

  // ----- the checks of a projection

  predicate RolesCurrent(g: Registry, membership: Id) {
    forall h :: h in g.assignments && g.assignments[h] && h.membership == membership ==> ActiveDefinition(g.roles, h.ref)
  }

  predicate EntitlementsCurrent(g: Registry, membership: Id) {
    forall h :: h in g.grants && g.grants[h] && h.membership == membership ==> ActiveDefinition(g.entitlements, h.ref)
  }

  predicate BindingCurrent(g: Registry, b: Binding) {
    && b.adapter in g.adapters && g.adapters[b.adapter].active
    && b.operation in g.operations && g.operations[b.operation].active && g.operations[b.operation].adapter == b.adapter
    && ActiveDefinition(g.entitlements, b.entitlement) && ActiveDefinition(g.policies, b.policy)
    && Holds(g.grants, b.membership, b.entitlement)
  }

  predicate BindingsCurrent(g: Registry, membership: Id) {
    forall id :: id in g.bindings && g.bindings[id].active && g.bindings[id].membership == membership ==>
      BindingCurrent(g, g.bindings[id])
  }

  function DefinitionError(g: Registry, membership: Id): Option<AuthorityError> {
    if !RolesCurrent(g, membership) then Some(RoleInactive)
    else if !EntitlementsCurrent(g, membership) then Some(EntitlementInactive)
    else if !BindingsCurrent(g, membership) then Some(BindingInactive)
    else None
  }

  // ----- what every run keeps

  ghost predicate DefinitionsSound(g: Registry) {
    && (forall r :: r in g.roles ==> g.roles[r])
    && (forall r :: r in g.entitlements ==> g.entitlements[r])
    && (forall r :: r in g.policies ==> g.policies[r])
    && (forall a :: a in g.adapters ==> g.adapters[a].active)
    && (forall o :: o in g.operations ==> g.operations[o].active && g.operations[o].adapter in g.adapters)
  }

  ghost predicate HoldingsSound(t: Holdings, definitions: Definitions) {
    forall h :: h in t ==> t[h] && h.ref in definitions
  }

  ghost predicate BindingsSound(g: Registry) {
    forall id :: id in g.bindings ==> g.bindings[id].active && BindingCurrent(g, g.bindings[id])
  }

  /** Everything is active, and every binding rests on an operation of its adapter, a policy and
      an entitlement its membership holds. */
  ghost predicate RegistrySound(g: Registry) {
    && DefinitionsSound(g) && HoldingsSound(g.assignments, g.roles) && HoldingsSound(g.grants, g.entitlements)
    && BindingsSound(g)
  }

  /** Only members hold roles and entitlements. */
  ghost predicate HoldersExist(g: Registry, members: set<Id>) {
    && (forall h :: h in g.assignments ==> h.membership in members)
    && (forall h :: h in g.grants ==> h.membership in members)
  }

  /** No role, entitlement or binding definition is ever found inactive. */
  lemma SoundHasNoError(g: Registry, membership: Id)
    requires RegistrySound(g)
    ensures DefinitionError(g, membership) == None
  {
    hide BindingCurrent;
  }

  lemma DefinedKeeps(g: Registry, ref: DefinitionRef)
    requires RegistrySound(g)
    ensures RegistrySound(g.(roles := g.roles[ref := true]))
    ensures RegistrySound(g.(entitlements := g.entitlements[ref := true]))
    ensures RegistrySound(g.(policies := g.policies[ref := true]))
  {
    forall id | id in g.bindings ensures BindingCurrent(g, g.bindings[id]) {}
  }

  lemma AddAdapterKeeps(g: Registry, id: Id, name: string)
    requires RegistrySound(g) && AddAdapter(g, id, name).Ok?
    ensures RegistrySound(AddAdapter(g, id, name).value)
  {
    var u := AddAdapter(g, id, name).value;
    forall b | b in g.bindings ensures u.bindings[b].active && BindingCurrent(u, u.bindings[b]) {
      assert BindingCurrent(g, g.bindings[b]);
    }
  }

  lemma AddOperationKeeps(g: Registry, id: Id, adapter: Id, name: string)
    requires RegistrySound(g) && AddOperation(g, id, adapter, name).Ok?
    ensures RegistrySound(AddOperation(g, id, adapter, name).value)
  {
    var u := AddOperation(g, id, adapter, name).value;
    forall b | b in g.bindings ensures u.bindings[b].active && BindingCurrent(u, u.bindings[b]) {
      assert BindingCurrent(g, g.bindings[b]);
    }
  }

  lemma AddBindingKeeps(g: Registry, id: Id, b: Binding)
    requires RegistrySound(g) && b.active && AddBinding(g, id, b).Ok?
    ensures RegistrySound(AddBinding(g, id, b).value)
  {
    var u := AddBinding(g, id, b).value;
    assert BindingCurrent(u, b);
    forall i | i in g.bindings ensures BindingCurrent(u, g.bindings[i]) {
      assert BindingCurrent(g, g.bindings[i]);
    }
  }

  lemma {:induction false} AddHoldingsKeeps(t: Holdings, definitions: Definitions, membership: Id, refs: seq<DefinitionRef>)
    requires HoldingsSound(t, definitions) && AddHoldings(t, definitions, membership, refs).Ok?
    ensures HoldingsSound(AddHoldings(t, definitions, membership, refs).value, definitions)
    decreases |refs|
  {
    if refs != [] { AddHoldingsKeeps(t, definitions, membership, refs[..|refs| - 1]); }
  }

  /** Nothing is taken away, and only the given membership gains. */
  lemma {:induction false} AddHoldingsAdds(t: Holdings, definitions: Definitions, membership: Id, refs: seq<DefinitionRef>)
    requires AddHoldings(t, definitions, membership, refs).Ok?
    ensures var u := AddHoldings(t, definitions, membership, refs).value;
            && (forall h :: h in t ==> h in u && u[h] == t[h])
            && (forall h :: h in u <==> h in t || (h.membership == membership && h.ref in refs))
    decreases |refs|
  {
    if refs != [] {
      var n := |refs| - 1;
      AddHoldingsAdds(t, definitions, membership, refs[..n]);
      assert refs == refs[..n] + [refs[n]];
    }
  }

  /** For a membership that holds nothing yet, and references to existing definitions, the loop
      succeeds iff no reference is repeated. */
  lemma {:induction false} AddHoldingsIff(t: Holdings, definitions: Definitions, membership: Id, refs: seq<DefinitionRef>)
    requires forall h :: h in t ==> h.membership != membership
    requires forall r :: r in refs ==> r in definitions
    ensures AddHoldings(t, definitions, membership, refs).Ok? <==> NoRepeats(refs)
    decreases |refs|
  {
    if refs != [] {
      var n := |refs| - 1;
      var front, last := refs[..n], refs[n];
      assert refs == front + [last];
      AddHoldingsIff(t, definitions, membership, front);
      RepeatsExtend(front, last);
      if AddHoldings(t, definitions, membership, front).Ok? { AddHoldingsAdds(t, definitions, membership, front); }
    }
  }

  lemma RepeatsExtend(front: seq<DefinitionRef>, last: DefinitionRef)
    ensures NoRepeats(front + [last]) <==> NoRepeats(front) && last !in front
  {
    var all := front + [last];
    assert all[|front|] == last && forall i :: 0 <= i < |front| ==> all[i] == front[i];
    if NoRepeats(all) {
      forall i | 0 <= i < |front| ensures front[i] != last { assert all[i] != all[|front|]; }
      forall i, j | 0 <= i < j < |front| ensures front[i] != front[j] { assert all[i] != all[j]; }
    }
  }

  /** After a grant both lists of holdings changed: bindings stay current. */
  lemma HoldingsGrowKeeps(g: Registry, assignments: Holdings, grants: Holdings)
    requires RegistrySound(g) && HoldingsSound(assignments, g.roles) && HoldingsSound(grants, g.entitlements)
    requires forall h :: h in g.grants ==> h in grants && grants[h] == g.grants[h]
    ensures RegistrySound(g.(assignments := assignments, grants := grants))
  {
    var u := g.(assignments := assignments, grants := grants);
    forall b | b in g.bindings ensures BindingCurrent(u, u.bindings[b]) { assert BindingCurrent(g, g.bindings[b]); }
  }
}
