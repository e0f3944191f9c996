/** The delegation graph and its depth-bounded, branch-local traversal (delegation.rs). */
module Delegation {
  import opened Bytes
  import opened Wrappers
  import opened Lattice

  datatype Node = Node(principalId: StableId, organizationId: StableId, capabilityId: RegisteredId)

  datatype Frame = Frame(
    node: Node, policyBindingId: StableId, resourceScopeHash: SemanticDigest,
    effectScopeHash: SemanticDigest, constraintHash: SemanticDigest)

  datatype Edge = Edge(
    delegationId: StableId, source: Node, target: Node, frame: Frame,
    relationToParent: SubsetRelation, crossOrganizationAuthorized: bool)

  datatype DelegationError =
    SemanticLoopDetected | EdgeLoopDetected | FrameReentryDetected | DepthExceeded
    | CrossOrganizationNotAuthorized | ScopeAmplification | TraversalStateCorrupted

  /** Outgoing edges of every node, in the order they were added. */
  type Graph = map<Node, seq<Edge>>

  function Out(g: Graph, n: Node): seq<Edge> {
    if n in g then g[n] else []
  }

  /** What `add_edge` maintains: an edge is filed under its own source. */
  predicate Filed(g: Graph) {
    forall n, i :: n in g && 0 <= i < |g[n]| ==> g[n][i].source == n
  }

  // ----- the declarative side: walks

  type Walk = seq<Edge>

  /** `w` follows edges of `g` from `start`. */
  predicate IsWalk(g: Graph, start: Node, w: Walk)
    decreases |w|
  {
    w == [] || (w[0] in Out(g, start) && IsWalk(g, w[0].target, w[1..]))
  }

  function End(start: Node, w: Walk): Node {
    if w == [] then start else w[|w| - 1].target
  }

  predicate EdgeAuthorized(e: Edge) {
    && (e.source.organizationId == e.target.organizationId || e.crossOrganizationAuthorized)
    && Within(e.relationToParent)
  }

  predicate NoRepeatedNode(start: Node, w: Walk) {
    && (forall i :: 0 <= i < |w| ==> w[i].target != start)
    && (forall i, j :: 0 <= i < j < |w| ==> w[i].target != w[j].target)
  }

  predicate NoRepeatedDelegation(w: Walk) {
    forall i, j :: 0 <= i < j < |w| ==> w[i].delegationId != w[j].delegationId
  }

  predicate NoRepeatedFrame(w: Walk) {
    forall i, j :: 0 <= i < j < |w| ==> w[i].frame != w[j].frame
  }

  /** What the traversal demands of every walk. */
  predicate Legal(start: Node, w: Walk, maxDepth: nat) {
    && |w| <= maxDepth
    && (forall i :: 0 <= i < |w| ==> EdgeAuthorized(w[i]))
    && NoRepeatedNode(start, w) && NoRepeatedDelegation(w) && NoRepeatedFrame(w)
  }

  // ----- the traversal as a function of the path walked so far

  type Traversal<+T> = Result<T, DelegationError>

  /** The first check that refuses to extend path `p` by `e`, in the order the source runs them. */
  function Refusal(start: Node, p: Walk, e: Edge, maxDepth: nat): Option<DelegationError> {
    if e.source.organizationId != e.target.organizationId && !e.crossOrganizationAuthorized then
      Some(CrossOrganizationNotAuthorized)
    else if !Within(e.relationToParent) then Some(ScopeAmplification)
    else if |p| >= maxDepth then Some(DepthExceeded)
    else if e.target in ActiveNodes(start, p) then Some(SemanticLoopDetected)
    else if e.delegationId in ActiveEdges(p) then Some(EdgeLoopDetected)
    else if e.frame in ActiveFrames(p) then Some(FrameReentryDetected)
    else None
  }

  function ActiveNodes(start: Node, p: Walk): set<Node> { {start} + set i | 0 <= i < |p| :: p[i].target }
  function ActiveEdges(p: Walk): set<StableId> { set i | 0 <= i < |p| :: p[i].delegationId }
  function ActiveFrames(p: Walk): set<Frame> { set i | 0 <= i < |p| :: p[i].frame }

  /** `visit`, at the end of path `p`, over the outgoing edges from index `k` on. */
  function Visit(g: Graph, start: Node, p: Walk, k: nat, maxDepth: nat, reached: set<Node>): Traversal<set<Node>>
    requires k <= |Out(g, End(start, p))|
    decreases maxDepth - |p|, |Out(g, End(start, p))| - k
  {
    var out := Out(g, End(start, p));
    if k == |out| then Ok(reached)
    else
      var e := out[k];
      match Refusal(start, p, e, maxDepth)
      case Some(error) => Err(error)
      case None =>
        var deeper :- Visit(g, start, p + [e], 0, maxDepth, reached + {e.target});
        Visit(g, start, p, k + 1, maxDepth, deeper)
  }

  function Validate(g: Graph, start: Node, maxDepth: nat): Traversal<set<Node>> {
    Visit(g, start, [], 0, maxDepth, {})
  }

  // ----- the traversal decides legality

  /** `w` continues path `p`, its first edge being among the outgoing edges from index `k` on. */
  predicate Continues(g: Graph, start: Node, p: Walk, k: nat, w: Walk) {
    && IsWalk(g, End(start, p), w)
    && (w != [] ==> exists i :: k <= i < |Out(g, End(start, p))| && Out(g, End(start, p))[i] == w[0])
  }

  lemma LegalExtend(start: Node, p: Walk, e: Edge, maxDepth: nat)
    requires Legal(start, p, maxDepth)
    ensures Legal(start, p + [e], maxDepth) <==> Refusal(start, p, e, maxDepth) == None
  {
    var q := p + [e];
    assert forall i :: 0 <= i < |p| ==> q[i] == p[i];
    assert q[|p|] == e;
    if Legal(start, q, maxDepth) {
      assert EdgeAuthorized(q[|p|]);
      assert forall i :: 0 <= i < |p| ==> q[i].target != e.target && q[i].delegationId != e.delegationId && q[i].frame != e.frame;
    } else {
      assert |p| >= maxDepth || !EdgeAuthorized(e) || e.target in ActiveNodes(start, p)
          || e.delegationId in ActiveEdges(p) || e.frame in ActiveFrames(p);
    }
  }

  /** Nodes that `Visit` adds: the ends of the non-empty continuations. */
  predicate ReachedBy(g: Graph, start: Node, p: Walk, k: nat, n: Node, w: Walk) {
    w != [] && Continues(g, start, p, k, w) && End(start, p + w) == n
  }

  lemma {:induction false} VisitGrows(g: Graph, start: Node, p: Walk, k: nat, maxDepth: nat, reached: set<Node>)
    requires k <= |Out(g, End(start, p))| && Visit(g, start, p, k, maxDepth, reached).Ok?
    ensures reached <= Visit(g, start, p, k, maxDepth, reached).value
    decreases maxDepth - |p|, |Out(g, End(start, p))| - k
  {
    hide ActiveNodes, ActiveEdges, ActiveFrames;
    var out := Out(g, End(start, p));
    if k < |out| {
      var e := out[k];
      assert End(start, p + [e]) == e.target;
      var inner := reached + {e.target};
      VisitGrows(g, start, p + [e], 0, maxDepth, inner);
      VisitGrows(g, start, p, k + 1, maxDepth, Visit(g, start, p + [e], 0, maxDepth, inner).value);
    }
  }

  lemma {:induction false} VisitSound(g: Graph, start: Node, p: Walk, k: nat, maxDepth: nat, reached: set<Node>, w: Walk)
    requires k <= |Out(g, End(start, p))| && Legal(start, p, maxDepth)
    requires Visit(g, start, p, k, maxDepth, reached).Ok? && Continues(g, start, p, k, w)
    ensures Legal(start, p + w, maxDepth)
    ensures w != [] ==> End(start, p + w) in Visit(g, start, p, k, maxDepth, reached).value
    decreases maxDepth - |p|, |Out(g, End(start, p))| - k
  {
    hide Legal, ActiveNodes, ActiveEdges, ActiveFrames;
    if w == [] {
      assert p + w == p;
    } else {
      var out := Out(g, End(start, p));
      var e := out[k];
      LegalExtend(start, p, e, maxDepth);
      var inner := reached + {e.target};
      var deeper := Visit(g, start, p + [e], 0, maxDepth, inner).value;
      assert End(start, p + [e]) == e.target;
      if w[0] == e {
        ContinuesBelow(g, start, p, e, w);
        VisitSound(g, start, p + [e], 0, maxDepth, inner, w[1..]);
        assert p + w == (p + [e]) + w[1..];
        VisitGrows(g, start, p + [e], 0, maxDepth, inner);
        VisitGrows(g, start, p, k + 1, maxDepth, deeper);
      } else {
        VisitSound(g, start, p, k + 1, maxDepth, deeper, w);
      }
    }
  }

  /** A walk that takes an edge first continues the path extended by it. */
  lemma ContinuesBelow(g: Graph, start: Node, p: Walk, e: Edge, w: Walk)
    requires w != [] && w[0] == e && IsWalk(g, End(start, p), w)
    ensures Continues(g, start, p + [e], 0, w[1..])
  {
    assert End(start, p + [e]) == e.target;
    assert IsWalk(g, e.target, w[1..]);
    if w[1..] != [] { assert w[1..][0] in Out(g, e.target); }
  }

  lemma ReachedFirst(g: Graph, start: Node, p: Walk, k: nat)
    requires k < |Out(g, End(start, p))|
    ensures var e := Out(g, End(start, p))[k]; ReachedBy(g, start, p, k, e.target, [e])
  {
    var e := Out(g, End(start, p))[k];
    assert IsWalk(g, e.target, [e][1..]);
    assert End(start, p + [e]) == e.target;
  }

  lemma ReachedBelow(g: Graph, start: Node, p: Walk, k: nat, n: Node, w: Walk)
    requires k < |Out(g, End(start, p))| && ReachedBy(g, start, p + [Out(g, End(start, p))[k]], 0, n, w)
    ensures ReachedBy(g, start, p, k, n, [Out(g, End(start, p))[k]] + w)
  {
    var e := Out(g, End(start, p))[k];
    assert End(start, p + [e]) == e.target;
    var u := [e] + w;
    assert u[1..] == w && (p + [e]) + w == p + u;
  }

  /** Nothing else is added: every new node is the end of a non-empty continuation. */
  lemma {:induction false} VisitReachesOnly(g: Graph, start: Node, p: Walk, k: nat, maxDepth: nat, reached: set<Node>, n: Node)
    requires k <= |Out(g, End(start, p))| && Visit(g, start, p, k, maxDepth, reached).Ok?
    requires n in Visit(g, start, p, k, maxDepth, reached).value && n !in reached
    ensures exists w :: ReachedBy(g, start, p, k, n, w)
    decreases maxDepth - |p|, |Out(g, End(start, p))| - k
  {
    hide ActiveNodes, ActiveEdges, ActiveFrames, IsWalk;
    var out := Out(g, End(start, p));
    if k < |out| {
      var e := out[k];
      var inner := reached + {e.target};
      var deeper := Visit(g, start, p + [e], 0, maxDepth, inner).value;
      assert End(start, p + [e]) == e.target;
      if n == e.target {
        ReachedFirst(g, start, p, k);
      } else if n in deeper {
        VisitReachesOnly(g, start, p + [e], 0, maxDepth, inner, n);
        var w :| ReachedBy(g, start, p + [e], 0, n, w);
        ReachedBelow(g, start, p, k, n, w);
      } else {
        VisitReachesOnly(g, start, p, k + 1, maxDepth, deeper, n);
        var w :| ReachedBy(g, start, p, k + 1, n, w);
        assert ReachedBy(g, start, p, k, n, w);
      }
    }
  }

  /** A failed visit names its witness: a legal path and an edge that this very check refuses. */
  predicate Witness(g: Graph, start: Node, p: Walk, w: Walk, e: Edge, error: DelegationError, maxDepth: nat) {
    && IsWalk(g, End(start, p), w) && e in Out(g, End(start, p + w))
    && Legal(start, p + w, maxDepth) && Refusal(start, p + w, e, maxDepth) == Some(error)
  }

  lemma WitnessBelow(g: Graph, start: Node, p: Walk, e: Edge, w: Walk, f: Edge, error: DelegationError, maxDepth: nat)
    requires e in Out(g, End(start, p)) && Witness(g, start, p + [e], w, f, error, maxDepth)
    ensures Witness(g, start, p, [e] + w, f, error, maxDepth)
  {
    hide Legal, Refusal;
    var u := [e] + w;
    assert End(start, p + [e]) == e.target;
    assert u[1..] == w && (p + [e]) + w == p + u;
  }

  lemma {:induction false} VisitComplete(g: Graph, start: Node, p: Walk, k: nat, maxDepth: nat, reached: set<Node>)
    requires k <= |Out(g, End(start, p))| && Legal(start, p, maxDepth)
    requires Visit(g, start, p, k, maxDepth, reached).Err?
    ensures exists w, e :: Witness(g, start, p, w, e, Visit(g, start, p, k, maxDepth, reached).error, maxDepth)
    decreases maxDepth - |p|, |Out(g, End(start, p))| - k
  {
    hide Legal, ActiveNodes, ActiveEdges, ActiveFrames;
    var out := Out(g, End(start, p));
    var error := Visit(g, start, p, k, maxDepth, reached).error;
    var e := out[k];
    LegalExtend(start, p, e, maxDepth);
    if Refusal(start, p, e, maxDepth) != None {
      assert p + [] == p;
      assert Witness(g, start, p, [], e, error, maxDepth);
    } else {
      assert End(start, p + [e]) == e.target;
      var inner := reached + {e.target};
      var deeper := Visit(g, start, p + [e], 0, maxDepth, inner);
      if deeper.Err? {
        VisitComplete(g, start, p + [e], 0, maxDepth, inner);
        var w, f :| Witness(g, start, p + [e], w, f, error, maxDepth);
        WitnessBelow(g, start, p, e, w, f, error, maxDepth);
      } else {
        VisitComplete(g, start, p, k + 1, maxDepth, deeper.value);
      }
    }
  }

  lemma {:induction false} WalkExtend(g: Graph, start: Node, w: Walk, e: Edge)
    requires IsWalk(g, start, w) && e in Out(g, End(start, w))
    ensures IsWalk(g, start, w + [e])
    decreases |w|
  {
    if w != [] {
      assert (w + [e])[1..] == w[1..] + [e];
      assert End(w[0].target, w[1..]) == End(start, w);
      WalkExtend(g, w[0].target, w[1..], e);
    } else {
      assert (w + [e])[1..] == [];
    }
  }

  ghost predicate AllWalksLegal(g: Graph, start: Node, maxDepth: nat) {
    forall w :: IsWalk(g, start, w) ==> Legal(start, w, maxDepth)
  }

  lemma AcceptedWalkIsLegal(g: Graph, start: Node, maxDepth: nat, w: Walk)
    requires Validate(g, start, maxDepth).Ok? && IsWalk(g, start, w)
    ensures Legal(start, w, maxDepth)
  {
    hide Visit, Legal;
    EmptyIsLegal(start, maxDepth);
    assert Continues(g, start, [], 0, w);
    VisitSound(g, start, [], 0, maxDepth, {}, w);
    assert [] + w == w;
  }

  lemma RefusedHasIllegalWalk(g: Graph, start: Node, maxDepth: nat)
    requires Validate(g, start, maxDepth).Err?
    ensures !AllWalksLegal(g, start, maxDepth)
  {
    hide Visit, Legal, Refusal, IsWalk;
    EmptyIsLegal(start, maxDepth);
    VisitComplete(g, start, [], 0, maxDepth, {});
    var w, e :| Witness(g, start, [], w, e, Validate(g, start, maxDepth).error, maxDepth);
    assert [] + w == w;
    WalkExtend(g, start, w, e);
    LegalExtend(start, w, e, maxDepth);
    assert IsWalk(g, start, w + [e]) && !Legal(start, w + [e], maxDepth);
  }

  /** `validate_from` succeeds iff every walk from the start is legal. */
  lemma ValidateIffAllLegal(g: Graph, start: Node, maxDepth: nat)
    ensures Validate(g, start, maxDepth).Ok? <==> AllWalksLegal(g, start, maxDepth)
  {
    hide Validate, Legal, IsWalk;
    if Validate(g, start, maxDepth).Ok? {
      forall w | IsWalk(g, start, w) ensures Legal(start, w, maxDepth) { AcceptedWalkIsLegal(g, start, maxDepth, w); }
    } else {
      RefusedHasIllegalWalk(g, start, maxDepth);
    }
  }

  /** On success the result is the set of nodes reachable by one or more edges. */
  lemma ValidateReachesExactly(g: Graph, start: Node, maxDepth: nat, n: Node)
    requires Validate(g, start, maxDepth).Ok?
    ensures n in Validate(g, start, maxDepth).value <==> exists w :: w != [] && IsWalk(g, start, w) && End(start, w) == n
  {
    if n in Validate(g, start, maxDepth).value {
      VisitReachesOnly(g, start, [], 0, maxDepth, {}, n);
      var w :| ReachedBy(g, start, [], 0, n, w);
      assert [] + w == w;
    }
    if w :| w != [] && IsWalk(g, start, w) && End(start, w) == n {
      assert Continues(g, start, [], 0, w);
      VisitSound(g, start, [], 0, maxDepth, {}, w);
      assert [] + w == w;
    }
  }

  /** A legal walk of the graph that stands in front of an edge refused with this error. */
  predicate RefusedWalk(g: Graph, start: Node, w: Walk, e: Edge, error: DelegationError, maxDepth: nat) {
    && IsWalk(g, start, w) && Legal(start, w, maxDepth)
    && e in Out(g, End(start, w)) && Refusal(start, w, e, maxDepth) == Some(error)
  }

  /** On failure the error is the first refusal at the end of some legal walk of the graph;
      in particular it is never `TraversalStateCorrupted`. */
  lemma ValidateErrorHasWitness(g: Graph, start: Node, maxDepth: nat)
    requires Validate(g, start, maxDepth).Err?
    ensures exists w, e :: RefusedWalk(g, start, w, e, Validate(g, start, maxDepth).error, maxDepth)
    ensures Validate(g, start, maxDepth).error != TraversalStateCorrupted
  {
    hide Visit, Legal, IsWalk, End, Witness;
    EmptyIsLegal(start, maxDepth);
    VisitComplete(g, start, [], 0, maxDepth, {});
    var error := Validate(g, start, maxDepth).error;
    var w, e :| Witness(g, start, [], w, e, error, maxDepth);
    WitnessIsRefused(g, start, w, e, error, maxDepth);
  }

  lemma EmptyIsLegal(start: Node, maxDepth: nat)
    ensures Legal(start, [], maxDepth) && End(start, []) == start
  {
  }

  lemma WitnessIsRefused(g: Graph, start: Node, w: Walk, e: Edge, error: DelegationError, maxDepth: nat)
    requires Witness(g, start, [], w, e, error, maxDepth)
    ensures RefusedWalk(g, start, w, e, error, maxDepth) && error != TraversalStateCorrupted
  {
    hide Legal, IsWalk, ActiveNodes, ActiveEdges, ActiveFrames;
    assert [] + w == w;
  }

  // ----- the source's own form

  /** `TraversalState`: the branch-local active sets and the depth counter. */
  class TraversalState {
    var activeNodes: set<Node>
    var activeEdges: set<StableId>
    var activeFrames: set<Frame>
    var depth: nat
    const maxDepth: nat

    /** The state while the traversal stands at the end of path `p` from `start`. */
    ghost predicate Describes(start: Node, p: Walk)
      reads this
    {
      && activeNodes == ActiveNodes(start, p)
      && activeEdges == ActiveEdges(p)
      && activeFrames == ActiveFrames(p)
      && depth == |p|
    }

    constructor (maxDepth: nat)
      ensures activeNodes == {} && activeEdges == {} && activeFrames == {} && depth == 0 && this.maxDepth == maxDepth
    {
      activeNodes, activeEdges, activeFrames, depth := {}, {}, {}, 0;
      this.maxDepth := maxDepth;
    }

    /** The checks and insertions of `with_frame`. */
    method Enter(start: Node, ghost p: Walk, e: Edge) returns (r: Traversal<()>)
      requires Describes(start, p) && EdgeAuthorized(e)
      modifies this
      ensures match Refusal(start, p, e, maxDepth)
              case Some(error) => r == Err(error) && Describes(start, p)
              case None => r == Ok(()) && Describes(start, p + [e])
    {
      if depth >= maxDepth {
        return Err(DepthExceeded);
      }
      if e.target in activeNodes {
        return Err(SemanticLoopDetected);
      }
      if e.delegationId in activeEdges {
        return Err(EdgeLoopDetected);
      }
      if e.frame in activeFrames {
        return Err(FrameReentryDetected);
      }
      activeNodes := activeNodes + {e.target};
      activeEdges := activeEdges + {e.delegationId};
      activeFrames := activeFrames + {e.frame};
      depth := depth + 1;
      ghost var q := p + [e];
      assert q[|p|] == e && forall i :: 0 <= i < |p| ==> q[i] == p[i];
      ActiveExtend(start, p, e);
      return Ok(());
    }

    /** The removals of `with_frame`, run on every exit of the inner operation: every removed
        entry is there, so the state of the shorter path is back and nothing is reported. */
    method Leave(start: Node, ghost p: Walk, e: Edge) returns (r: Traversal<()>)
      requires Describes(start, p + [e]) && Refusal(start, p, e, maxDepth) == None
      modifies this
      ensures r == Ok(()) && Describes(start, p)
    {
      ActiveExtend(start, p, e);
      depth := depth - 1;
      var nodeRemoved := e.target in activeNodes;
      var edgeRemoved := e.delegationId in activeEdges;
      var frameRemoved := e.frame in activeFrames;
      activeNodes := activeNodes - {e.target};
      activeEdges := activeEdges - {e.delegationId};
      activeFrames := activeFrames - {e.frame};
      if !(nodeRemoved && edgeRemoved && frameRemoved) {
        return Err(TraversalStateCorrupted);
      }
      return Ok(());
    }

    predicate IsClean()
      reads this
    {
      depth == 0 && activeEdges == {} && activeFrames == {}
    }
  }

  lemma ActiveExtend(start: Node, p: Walk, e: Edge)
    ensures ActiveNodes(start, p + [e]) == ActiveNodes(start, p) + {e.target}
    ensures ActiveEdges(p + [e]) == ActiveEdges(p) + {e.delegationId}
    ensures ActiveFrames(p + [e]) == ActiveFrames(p) + {e.frame}
  {
    var q := p + [e];
    assert q[|p|] == e && forall i :: 0 <= i < |p| ==> q[i] == p[i];
    assert forall n :: n in ActiveNodes(start, p) ==> n in ActiveNodes(start, q) by {
      forall n | n in ActiveNodes(start, p) ensures n in ActiveNodes(start, q) {
        if n != start { var i :| 0 <= i < |p| && p[i].target == n; assert q[i].target == n; }
      }
    }
    forall x | x in ActiveEdges(p) ensures x in ActiveEdges(q) {
      var i :| 0 <= i < |p| && p[i].delegationId == x;
      assert q[i].delegationId == x;
    }
    forall x | x in ActiveFrames(p) ensures x in ActiveFrames(q) {
      var i :| 0 <= i < |p| && p[i].frame == x;
      assert q[i].frame == x;
    }
    assert q[|p|].target in ActiveNodes(start, q) && q[|p|].delegationId in ActiveEdges(q) && q[|p|].frame in ActiveFrames(q);
  }

  class DelegationGraph {
    var edges: Graph

    constructor ()
      ensures edges == map[] && Filed(edges)
    {
      edges := map[];
    }

    /** `add_edge`: the edge goes last under its source; every other node keeps its edges. */
    method AddEdge(e: Edge)
      requires Filed(edges)
      modifies this
      ensures Filed(edges) && Out(edges, e.source) == Out(old(edges), e.source) + [e]
      ensures forall n :: n != e.source ==> Out(edges, n) == Out(old(edges), n)
    {
      edges := edges[e.source := Out(edges, e.source) + [e]];
    }

    /** `validate_from`, with the set it reaches; the corrupted-state error is dead. */
    method ValidateFrom(start: Node, maxDepth: nat) returns (r: Traversal<set<Node>>)
      requires Filed(edges)
      ensures r == Validate(edges, start, maxDepth)
    {
      var state := new TraversalState(maxDepth);
      state.activeNodes := state.activeNodes + {start};
      var result := VisitNode(start, [], start, state, {});
      state.activeNodes := state.activeNodes - {start};
      var reached :- result;
      if !state.IsClean() {
        return Err(TraversalStateCorrupted);
      }
      return Ok(reached);
    }

    /** `visit` with `with_frame` around the recursion.  Whatever the outcome, the traversal
        state is again the one for path `p`. */
    method VisitNode(start: Node, ghost p: Walk, node: Node, state: TraversalState, reached: set<Node>)
      returns (r: Traversal<set<Node>>)
      requires Filed(edges) && node == End(start, p) && state.Describes(start, p)
      modifies state
      ensures r == Visit(edges, start, p, 0, state.maxDepth, reached)
      ensures state.Describes(start, p)
      decreases state.maxDepth - |p|
    {
      hide ActiveNodes, ActiveEdges, ActiveFrames, Legal, IsWalk;
      var out := if node in edges then edges[node] else [];
      var all := reached;
      for k := 0 to |out|
        invariant edges == old(edges) && state.Describes(start, p)
        invariant Visit(edges, start, p, k, state.maxDepth, all) == Visit(edges, start, p, 0, state.maxDepth, reached)
      {
        var edge := out[k];
        if edge.source != node {
          return Err(TraversalStateCorrupted);
        }
        if edge.source.organizationId != edge.target.organizationId && !edge.crossOrganizationAuthorized {
          return Err(CrossOrganizationNotAuthorized);
        }
        if !Within(edge.relationToParent) {
          return Err(ScopeAmplification);
        }
        var _ :- state.Enter(start, p, edge);
        var inner := VisitNode(start, p + [edge], edge.target, state, all + {edge.target});
        var left := state.Leave(start, p, edge);
        assert left == Ok(());
        all :- inner;
      }
      return Ok(all);
    }
  }
}
