/** What every run of the finalizer runtime keeps (finalizer.rs): one revocation at most, stable
    receipts, increasing sequence numbers and exact replays. */
module RuntimeTheorems {
  import opened Bytes
  import opened Evaluation
  import opened Lattice
  import opened Receipt
  import opened Runtime
  import opened Wrappers
  import Dependency

  // ----- runs

  function Fresh(initial: RuntimeState): Inner {
    Inner(initial, map[], map[], map[], [])
  }

  /** The state after a run: the calls of all threads in the order the lock served them. */
  function After(sha: Sha256, s: Inner, calls: seq<Call>): Inner
    decreases |calls|
  {
    if calls == [] then s else Step(sha, After(sha, s, calls[..|calls| - 1]), calls[|calls| - 1]).0
  }

  /** How many calls of the run recorded a membership revocation. */
  function Revocations(sha: Sha256, s: Inner, calls: seq<Call>): nat
    decreases |calls|
  {
    if calls == [] then 0
    else
      var n := |calls| - 1;
      Revocations(sha, s, calls[..n]) + (if Step(sha, After(sha, s, calls[..n]), calls[n]).1.Recorded? then 1 else 0)
  }

  // ----- the invariant

  /** What no call ever changes. */
  predicate SameIdentity(a: RuntimeState, b: RuntimeState) {
    && a.principalId == b.principalId && a.organizationId == b.organizationId && a.membershipId == b.membershipId
    && a.authenticatorId == b.authenticatorId && a.principalGlobalRevocationEpoch == b.principalGlobalRevocationEpoch
  }

  predicate CountersBetween(low: RuntimeState, s: RuntimeState) {
    && 0 <= low.principalGlobalSequence <= s.principalGlobalSequence <= MAX_SEQUENCE
    && 0 <= low.organizationDecisionSequence <= s.organizationDecisionSequence <= MAX_SEQUENCE
  }

  predicate Untouched(initial: RuntimeState, s: RuntimeState) {
    && s.membershipStatus == initial.membershipStatus && s.liveGenerations == initial.liveGenerations
    && s.organizationRevocationEpoch == initial.organizationRevocationEpoch
  }

  /** The one revocation moved the membership generation and the organization epoch by one. */
  predicate RevokedOnce(initial: RuntimeState, s: RuntimeState) {
    && initial.membershipStatus == Dependency.Active && s.membershipStatus == Dependency.Revoked
    && initial.liveGenerations.membershipGeneration < MAX_SEQUENCE && initial.organizationRevocationEpoch < MAX_SEQUENCE
    && s.organizationRevocationEpoch == initial.organizationRevocationEpoch + 1
    && s.liveGenerations == initial.liveGenerations.(
         membershipGeneration := initial.liveGenerations.membershipGeneration + 1,
         organizationRevocationEpoch := initial.organizationRevocationEpoch + 1)
  }

  /** The recorded event names a stored ALLOW receipt of the actor for exactly this effect. */
  predicate EventAuthorized(initial: RuntimeState, s: Inner, e: MutationEvent) {
    && e.decisionReceiptId in s.receipts
    && var r := s.receipts[e.decisionReceiptId];
    && r.outcome == Allow && r.capabilityId == e.capabilityId == Ascii("identity.membership.revoke")
    && r.principalId == e.actorPrincipalId && r.organizationId == initial.organizationId
    && e.recordedAtEpochMs < r.validUntilEpochMs && e.targetRef == initial.membershipId
    && e.preGeneration == initial.liveGenerations.membershipGeneration && e.postGeneration == e.preGeneration + 1
    && e.preRevocationEpoch == initial.organizationRevocationEpoch && e.postRevocationEpoch == e.preRevocationEpoch + 1
  }

  predicate Phase(initial: RuntimeState, s: Inner) {
    || (s.events == [] && Untouched(initial, s.state))
    || (|s.events| == 1 && RevokedOnce(initial, s.state) && EventAuthorized(initial, s, s.events[0]))
  }

  predicate ReceiptSound(sha: Sha256, initial: RuntimeState, s: RuntimeState, id: StableId, r: DecisionReceipt) {
    && r.receiptId == id && Verified(sha, r)
    && r.principalId == initial.principalId && r.organizationId == initial.organizationId
    && r.membershipId == initial.membershipId && r.authenticatorId == initial.authenticatorId
    && r.liveGenerations == initial.liveGenerations
    && r.organizationRevocationEpoch == initial.organizationRevocationEpoch
    && initial.principalGlobalSequence < r.principalGlobalSequence <= s.principalGlobalSequence
    && initial.organizationDecisionSequence < r.organizationDecisionSequence <= s.organizationDecisionSequence
  }

  ghost predicate AllSound(sha: Sha256, initial: RuntimeState, s: Inner) {
    forall id: StableId :: id in s.receipts ==> ReceiptSound(sha, initial, s.state, id, s.receipts[id])
  }

  /** Of two receipts one is later, in both numberings. */
  predicate Before(a: DecisionReceipt, b: DecisionReceipt) {
    && a.principalGlobalSequence < b.principalGlobalSequence
    && a.organizationDecisionSequence < b.organizationDecisionSequence
  }

  ghost predicate Numbered(s: Inner) {
    forall i: StableId, j: StableId :: i in s.receipts && j in s.receipts && i != j ==>
      Before(s.receipts[i], s.receipts[j]) || Before(s.receipts[j], s.receipts[i])
  }

  ghost predicate Invariant(sha: Sha256, initial: RuntimeState, s: Inner) {
    && SameIdentity(initial, s.state) && CountersBetween(initial, s.state) && Phase(initial, s)
    && AllSound(sha, initial, s) && Numbered(s)
  }

  lemma InstallKeeps(sha: Sha256, initial: RuntimeState, s: Inner, g: Grant)
    requires Invariant(sha, initial, s)
    ensures Invariant(sha, initial, InstallStep(s, g).0)
  {
    hide ReceiptSound, SameIdentity, CountersBetween, Before, Untouched, RevokedOnce, Ascii;
  }

  lemma SetDependencyKeeps(sha: Sha256, initial: RuntimeState, s: Inner, d: Dependency.DependencyRef, c: CurrentDependency)
    requires Invariant(sha, initial, s)
    ensures Invariant(sha, initial, Step(sha, s, SetDependency(d, c)).0)
  {
    hide ReceiptSound, SameIdentity, CountersBetween, Before, Untouched, RevokedOnce, Ascii, Dependency.KeyOf;
  }

  lemma RevokeKeeps(sha: Sha256, initial: RuntimeState, s: Inner, q: Revocation)
    requires Invariant(sha, initial, s)
    ensures Invariant(sha, initial, RevokeStep(s, q).0)
  {
    hide Before, Ascii, Verified;
    if RevocationError(s, q) == None {
      assert s.state.membershipStatus == Dependency.Active;
      assert Untouched(initial, s.state);
      assert s.events + [EventOf(s, q)] == [EventOf(s, q)];
      AllSoundCarries(sha, initial, s, RevokeStep(s, q).0);
    }
  }

  /** Receipts stay sound while counters only grow. */
  lemma AllSoundCarries(sha: Sha256, initial: RuntimeState, s: Inner, t: Inner)
    requires AllSound(sha, initial, s) && t.receipts == s.receipts && CountersBetween(s.state, t.state)
    ensures AllSound(sha, initial, t)
  {
    hide Verified;
    forall id: StableId | id in t.receipts ensures ReceiptSound(sha, initial, t.state, id, t.receipts[id]) {
      assert ReceiptSound(sha, initial, s.state, id, s.receipts[id]);
    }
  }

  /** Counters may move without a receipt: nothing else changes then. */
  lemma SkippedNumbersKeep(sha: Sha256, initial: RuntimeState, s: Inner, t: Inner)
    requires Invariant(sha, initial, s) && CountersBetween(s.state, t.state)
    requires t == s.(state := s.state.(principalGlobalSequence := t.state.principalGlobalSequence,
                                       organizationDecisionSequence := t.state.organizationDecisionSequence))
    ensures Invariant(sha, initial, t)
  {
    hide Verified, Before, ReceiptSound, AllSound, Ascii;
    AllSoundCarries(sha, initial, s, t);
  }

  lemma FinalizeKeeps(sha: Sha256, initial: RuntimeState, s: Inner, c: CandidateDecision, m: ReceiptMaterial)
    requires Invariant(sha, initial, s)
    ensures Invariant(sha, initial, FinalizeStep(sha, s, c, m).0)
  {
    hide Invariant, RetryMatches, IssueError, Encode, DomainHash, DependencyError, CoreError, Refusal;
    var t := FinalizeStep(sha, s, c, m);
    if m.receiptId !in s.receipts && Refusal(s, c) == None && CheckedNext(s.state.principalGlobalSequence).Ok? {
      var s1 := TakePrincipal(s);
      CountersOf(sha, initial, s);
      SkippedNumbersKeep(sha, initial, s, s1);
      if CheckedNext(s1.state.organizationDecisionSequence).Ok? {
        var s2 := TakeOrganization(s1);
        SkippedNumbersKeep(sha, initial, s1, s2);
        if t.1.Receipted? { NewReceiptKeeps(sha, initial, s, s2, c, m); }
      }
    }
  }

  lemma CountersOf(sha: Sha256, initial: RuntimeState, s: Inner)
    requires Invariant(sha, initial, s)
    ensures CountersBetween(initial, s.state)
  {
    hide AllSound, Phase, Numbered;
  }

  lemma NewReceiptKeeps(sha: Sha256, initial: RuntimeState, s: Inner, s2: Inner, c: CandidateDecision, m: ReceiptMaterial)
    requires Invariant(sha, initial, s) && Invariant(sha, initial, s2)
    requires m.receiptId !in s.receipts && Refusal(s, c) == None
    requires CheckedNext(s.state.principalGlobalSequence).Ok? && CheckedNext(s.state.organizationDecisionSequence).Ok?
    requires s2 == TakeOrganization(TakePrincipal(s))
    requires IssueSpec(sha, c, FinalizationOf(s2.state), m).Ok?
    ensures Invariant(sha, initial, s2.(receipts := s2.receipts[m.receiptId := Issued(sha, c, FinalizationOf(s2.state), m)]))
  {
    hide Verified, Encode, DomainHash, DependencyError, Ascii;
    var r := Issued(sha, c, FinalizationOf(s2.state), m);
    var t := s2.(receipts := s2.receipts[m.receiptId := r]);
    IssuedVerifies(sha, c, FinalizationOf(s2.state), m);
    assert s.state.membershipStatus == Dependency.Active;
    assert Untouched(initial, s2.state) && s2.events == [];
    assert ReceiptSound(sha, initial, t.state, m.receiptId, r);
    forall id: StableId | id in s.receipts ensures Before(s.receipts[id], r) {
      assert ReceiptSound(sha, initial, s.state, id, s.receipts[id]);
    }
    assert forall id: StableId :: id in s2.receipts ==> ReceiptSound(sha, initial, s2.state, id, s2.receipts[id]);
    hide ReceiptSound, Before, Issued;
    assert AllSound(sha, initial, t);
    assert Numbered(t);
  }

  lemma StepKeeps(sha: Sha256, initial: RuntimeState, s: Inner, call: Call)
    requires Invariant(sha, initial, s)
    ensures Invariant(sha, initial, Step(sha, s, call).0)
  {
    hide Invariant, FinalizeStep, InstallStep, RevokeStep;
    match call
    case SetDependency(d, current) => SetDependencyKeeps(sha, initial, s, d, current);
    case Finalize(c, m) => FinalizeKeeps(sha, initial, s, c, m);
    case InstallGrant(g) => InstallKeeps(sha, initial, s, g);
    case Revoke(q) => RevokeKeeps(sha, initial, s, q);
  }

  /** The invariant holds after every run from every accepted initial state. */
  lemma {:induction false} RunKeeps(sha: Sha256, initial: RuntimeState, calls: seq<Call>)
    requires InitialStateValid(initial)
    ensures Invariant(sha, initial, After(sha, Fresh(initial), calls))
    decreases |calls|
  {
    hide Step, ReceiptSound;
    if calls == [] {
      assert Invariant(sha, initial, Fresh(initial));
    } else {
      var n := |calls| - 1;
      hide Invariant;
      RunKeeps(sha, initial, calls[..n]);
      StepKeeps(sha, initial, After(sha, Fresh(initial), calls[..n]), calls[n]);
    }
  }

  // ----- revocation

  /** A refused revocation changes nothing, and it is refused exactly when a check fails. */
  lemma RefusedRevocationChangesNothing(sha: Sha256, s: Inner, q: Revocation)
    ensures Step(sha, s, Revoke(q)).1.Failed? <==> RevocationError(s, q).Some?
    ensures Step(sha, s, Revoke(q)).1.Failed? ==> Step(sha, s, Revoke(q)).0 == s
    ensures Step(sha, s, Revoke(q)).1.Recorded? ==> s.state.membershipStatus == Dependency.Active
  {
    hide GrantError, EffectAuthorized;
  }

  lemma OnlyRevokeRecords(sha: Sha256, s: Inner, call: Call)
    ensures |Step(sha, s, call).0.events| == |s.events| + (if Step(sha, s, call).1.Recorded? then 1 else 0)
  {
    hide RetryMatches, Refusal, IssueSpec, RevocationError, Issued;
  }

  lemma {:induction false} EventsCountRevocations(sha: Sha256, s: Inner, calls: seq<Call>)
    ensures |After(sha, s, calls).events| == |s.events| + Revocations(sha, s, calls)
    decreases |calls|
  {
    hide Step;
    if calls != [] {
      var n := |calls| - 1;
      EventsCountRevocations(sha, s, calls[..n]);
      OnlyRevokeRecords(sha, After(sha, s, calls[..n]), calls[n]);
    }
  }

  /** In every run at most one revocation succeeds.  With none, membership status, generations and
      epoch are the initial ones; with one, each number has moved by exactly one, and the event
      names the stored ALLOW receipt it rests on. */
  lemma AtMostOneRevocation(sha: Sha256, initial: RuntimeState, calls: seq<Call>)
    requires InitialStateValid(initial)
    ensures Revocations(sha, Fresh(initial), calls) <= 1
    ensures var s := After(sha, Fresh(initial), calls);
            if Revocations(sha, Fresh(initial), calls) == 0 then Untouched(initial, s.state)
            else RevokedOnce(initial, s.state) && |s.events| == 1 && EventAuthorized(initial, s, s.events[0])
  {
    hide AllSound, Numbered, EventAuthorized, RevokedOnce, Untouched, After, Revocations;
    RunKeeps(sha, initial, calls);
    EventsCountRevocations(sha, Fresh(initial), calls);
  }

  /** In a run with a revocation the epoch copy inside the live vector moves by one exactly when it
      started equal to the organization's epoch: the revocation overwrites it instead of
      incrementing it. */
  lemma EpochCopyMovesByOneIff(sha: Sha256, initial: RuntimeState, calls: seq<Call>)
    requires InitialStateValid(initial) && Revocations(sha, Fresh(initial), calls) == 1
    ensures var s := After(sha, Fresh(initial), calls).state;
            && (s.liveGenerations.organizationRevocationEpoch == initial.liveGenerations.organizationRevocationEpoch + 1
                <==> initial.liveGenerations.organizationRevocationEpoch == initial.organizationRevocationEpoch)
            && s.liveGenerations.organizationRevocationEpoch == s.organizationRevocationEpoch
  {
    hide After, Revocations, EventAuthorized, Untouched;
    AtMostOneRevocation(sha, initial, calls);
  }

  /** Once the membership is not active no call makes it active, and no receipt is added. */
  lemma {:induction false} NoReceiptOnceInactive(sha: Sha256, s: Inner, calls: seq<Call>)
    requires s.state.membershipStatus != Dependency.Active
    ensures After(sha, s, calls).receipts == s.receipts
    ensures After(sha, s, calls).state.membershipStatus == s.state.membershipStatus
    decreases |calls|
  {
    if calls != [] {
      hide Step;
      var n := |calls| - 1;
      NoReceiptOnceInactive(sha, s, calls[..n]);
      InactiveStep(sha, After(sha, s, calls[..n]), calls[n]);
    }
  }

  lemma InactiveStep(sha: Sha256, s: Inner, call: Call)
    requires s.state.membershipStatus != Dependency.Active
    ensures Step(sha, s, call).0.receipts == s.receipts
    ensures Step(sha, s, call).0.state.membershipStatus == s.state.membershipStatus
    ensures call.Finalize? && call.material.receiptId !in s.receipts ==> Step(sha, s, call).1.Failed?
  {
    hide RetryMatches, IssueSpec, DependencyError, GrantError, EffectAuthorized, Issued;
  }

  /** After a successful revocation no new receipt is ever finalized. */
  lemma NoReceiptAfterRevocation(sha: Sha256, s: Inner, q: Revocation, calls: seq<Call>)
    requires Step(sha, s, Revoke(q)).1.Recorded?
    ensures After(sha, Step(sha, s, Revoke(q)).0, calls).receipts == s.receipts
  {
    hide RevocationError, After;
    NoReceiptOnceInactive(sha, Step(sha, s, Revoke(q)).0, calls);
  }

  // ----- receipts and replay

  lemma ReceiptsGrowByStep(sha: Sha256, s: Inner, call: Call, id: StableId)
    requires id in s.receipts
    ensures id in Step(sha, s, call).0.receipts && Step(sha, s, call).0.receipts[id] == s.receipts[id]
  {
    hide RetryMatches, Refusal, IssueError, Encode, DomainHash, RevocationError;
  }

  /** A stored receipt is never altered or removed. */
  lemma {:induction false} ReceiptsGrow(sha: Sha256, s: Inner, calls: seq<Call>, id: StableId)
    requires id in s.receipts
    ensures id in After(sha, s, calls).receipts && After(sha, s, calls).receipts[id] == s.receipts[id]
    decreases |calls|
  {
    if calls != [] {
      hide Step;
      var n := |calls| - 1;
      ReceiptsGrow(sha, s, calls[..n], id);
      ReceiptsGrowByStep(sha, After(sha, s, calls[..n]), calls[n], id);
    }
  }

  lemma FinalizedIsStored(sha: Sha256, s: Inner, c: CandidateDecision, m: ReceiptMaterial)
    requires Step(sha, s, Finalize(c, m)).1.Receipted?
    ensures var (t, reply) := Step(sha, s, Finalize(c, m));
            m.receiptId in t.receipts && t.receipts[m.receiptId] == reply.receipt && RetryMatches(reply.receipt, c, m)
  {
    hide Refusal, IssueError, Encode, DomainHash;
  }

  /** Replay: after a successful finalize, the same call made again after any further run returns
      the identical receipt and changes nothing. */
  lemma ReplayIsIdentical(sha: Sha256, s: Inner, c: CandidateDecision, m: ReceiptMaterial, calls: seq<Call>)
    requires Step(sha, s, Finalize(c, m)).1.Receipted?
    ensures var (t, reply) := Step(sha, s, Finalize(c, m));
            var u := After(sha, t, calls);
            Step(sha, u, Finalize(c, m)) == (u, reply)
  {
    hide After, RetryMatches, Refusal;
    FinalizedIsStored(sha, s, c, m);
    var t := Step(sha, s, Finalize(c, m)).0;
    ReceiptsGrow(sha, t, calls, m.receiptId);
  }

  /** What a candidate and the stored receipt are compared on, besides the material. */
  predicate SameRequest(c: CandidateDecision, d: CandidateDecision) {
    && c.requestId == d.requestId && c.requestSemanticHash == d.requestSemanticHash
    && c.evaluationSnapshotHash == d.evaluationSnapshotHash && c.policyBundleHash == d.policyBundleHash
    && c.dependencyBundle.digest == d.dependencyBundle.digest
  }

  /** After a successful finalize and any further run, a call with the same receipt id is answered
      with the stored receipt iff its material is the same and its candidate agrees in those five
      fields, and with a conflict otherwise; it never changes anything. */
  lemma ReceiptSharedIff(sha: Sha256, s: Inner, c: CandidateDecision, m: ReceiptMaterial, calls: seq<Call>,
                         d: CandidateDecision, n: ReceiptMaterial)
    requires Step(sha, s, Finalize(c, m)).1.Receipted? && n.receiptId == m.receiptId
    ensures var (t, reply) := Step(sha, s, Finalize(c, m));
            var u := After(sha, t, calls);
            Step(sha, u, Finalize(d, n)) == (u, if n == m && SameRequest(c, d) then reply else Failed(IdempotencyConflict))
  {
    hide After, Refusal;
    FinalizedIsStored(sha, s, c, m);
    var t := Step(sha, s, Finalize(c, m)).0;
    ReceiptsGrow(sha, t, calls, m.receiptId);
  }

  /** Outcome, reasons, capability, holder and generations are not among the compared fields: a
      candidate that differs in them is answered with the receipt of the first. */
  lemma OutcomeIsNotCompared(sha: Sha256, s: Inner, c: CandidateDecision, m: ReceiptMaterial, calls: seq<Call>,
                             d: CandidateDecision)
    requires Step(sha, s, Finalize(c, m)).1.Receipted?
    requires d == c.(outcome := d.outcome, reasonCodes := d.reasonCodes, capabilityId := d.capabilityId,
                     capabilityVersion := d.capabilityVersion, principalId := d.principalId,
                     organizationId := d.organizationId, membershipId := d.membershipId,
                     authenticatorId := d.authenticatorId, effectiveEnvelope := d.effectiveEnvelope,
                     evaluatedGenerations := d.evaluatedGenerations, evaluatedAtEpochMs := d.evaluatedAtEpochMs)
    ensures var (t, reply) := Step(sha, s, Finalize(c, m));
            var u := After(sha, t, calls);
            && Step(sha, u, Finalize(d, m)) == (u, reply)
            && (d.outcome != c.outcome && m.receiptId !in s.receipts ==> reply.receipt.outcome != d.outcome)
  {
    hide After, Refusal, Step;
    ReceiptSharedIff(sha, s, c, m, calls, d, m);
    if m.receiptId !in s.receipts { NewReceiptTakesOutcome(sha, s, c, m); }
  }

  lemma NewReceiptTakesOutcome(sha: Sha256, s: Inner, c: CandidateDecision, m: ReceiptMaterial)
    requires Step(sha, s, Finalize(c, m)).1.Receipted? && m.receiptId !in s.receipts
    ensures Step(sha, s, Finalize(c, m)).1.receipt.outcome == c.outcome
  {
    hide RetryMatches, Refusal, IssueError, Encode, DomainHash;
  }

  /** Every stored receipt sits under its own id, verifies, and binds the initial identity and the
      initial live generations, whatever happened since. */
  lemma StoredReceiptsSound(sha: Sha256, initial: RuntimeState, calls: seq<Call>, id: StableId)
    requires InitialStateValid(initial) && id in After(sha, Fresh(initial), calls).receipts
    ensures var r := After(sha, Fresh(initial), calls).receipts[id];
            r.receiptId == id && Verified(sha, r) && r.liveGenerations == initial.liveGenerations
            && r.principalId == initial.principalId && r.membershipId == initial.membershipId
  {
    hide Phase, Numbered, After, Verified;
    RunKeeps(sha, initial, calls);
    var s := After(sha, Fresh(initial), calls);
    assert ReceiptSound(sha, initial, s.state, id, s.receipts[id]);
  }

  // ----- sequence numbers

  lemma CountersGrowByStep(sha: Sha256, s: Inner, call: Call)
    requires CountersBetween(s.state, s.state)
    ensures CountersBetween(s.state, Step(sha, s, call).0.state)
  {
    hide RetryMatches, Refusal, IssueError, Encode, DomainHash, RevocationError;
  }

  /** Both counters stay in range and never decrease. */
  lemma {:induction false} CountersGrow(sha: Sha256, s: Inner, calls: seq<Call>)
    requires CountersBetween(s.state, s.state)
    ensures CountersBetween(s.state, After(sha, s, calls).state)
    decreases |calls|
  {
    if calls != [] {
      hide Step;
      var n := |calls| - 1;
      CountersGrow(sha, s, calls[..n]);
      CountersGrowByStep(sha, After(sha, s, calls[..n]), calls[n]);
    }
  }

  /** No two stored receipts share a number of either kind, and both kinds order them alike. */
  lemma ReceiptNumbersDistinct(sha: Sha256, initial: RuntimeState, calls: seq<Call>, i: StableId, j: StableId)
    requires InitialStateValid(initial) && i != j
    requires i in After(sha, Fresh(initial), calls).receipts && j in After(sha, Fresh(initial), calls).receipts
    ensures var rs := After(sha, Fresh(initial), calls).receipts;
            && rs[i].principalGlobalSequence != rs[j].principalGlobalSequence
            && rs[i].organizationDecisionSequence != rs[j].organizationDecisionSequence
            && (rs[i].principalGlobalSequence < rs[j].principalGlobalSequence <==>
                rs[i].organizationDecisionSequence < rs[j].organizationDecisionSequence)
  {
    hide Phase, AllSound, After;
    RunKeeps(sha, initial, calls);
    var rs := After(sha, Fresh(initial), calls).receipts;
    assert Before(rs[i], rs[j]) || Before(rs[j], rs[i]);
  }

  /** A newly finalized receipt carries larger numbers of both kinds than every earlier one. */
  lemma NewReceiptIsLater(sha: Sha256, initial: RuntimeState, calls: seq<Call>, c: CandidateDecision, m: ReceiptMaterial,
                          id: StableId)
    requires InitialStateValid(initial)
    requires var s := After(sha, Fresh(initial), calls);
             id in s.receipts && m.receiptId !in s.receipts && FinalizeStep(sha, s, c, m).1.Receipted?
    ensures var s := After(sha, Fresh(initial), calls);
            Before(s.receipts[id], FinalizeStep(sha, s, c, m).1.receipt)
  {
    hide Phase, Numbered, After, Verified, Refusal, IssueError, Encode, DomainHash;
    RunKeeps(sha, initial, calls);
    var s := After(sha, Fresh(initial), calls);
    assert ReceiptSound(sha, initial, s.state, id, s.receipts[id]);
  }

  /** A failed finalize changes nothing but the counters.  It skips a principal number exactly when
      the id is new, every check passed and a principal number was left, and an organization number
      exactly when one of those was left too, so that issuing itself failed. */
  lemma FailedFinalizeSkipsNumbers(sha: Sha256, s: Inner, c: CandidateDecision, m: ReceiptMaterial)
    requires FinalizeStep(sha, s, c, m).1.Failed?
    ensures var t := FinalizeStep(sha, s, c, m).0;
            var taken := m.receiptId !in s.receipts && Refusal(s, c) == None && s.state.principalGlobalSequence < MAX_SEQUENCE;
            && t == s.(state := s.state.(principalGlobalSequence := t.state.principalGlobalSequence,
                                         organizationDecisionSequence := t.state.organizationDecisionSequence))
            && t.state.principalGlobalSequence == s.state.principalGlobalSequence + (if taken then 1 else 0)
            && t.state.organizationDecisionSequence == s.state.organizationDecisionSequence
               + (if taken && s.state.organizationDecisionSequence < MAX_SEQUENCE then 1 else 0)
  {
    hide RetryMatches, Refusal, IssueError, Issued;
  }

  // ----- issuing

  /** Once the runtime's own checks pass, issuing can fail only for the validity window or one of
      the two capability-hash rules: the binding, staleness and sequence checks are repeats. */
  lemma IssueFailsOnlyFor(sha: Sha256, initial: RuntimeState, calls: seq<Call>, c: CandidateDecision, m: ReceiptMaterial)
    requires InitialStateValid(initial)
    requires var s := After(sha, Fresh(initial), calls);
             m.receiptId !in s.receipts && Refusal(s, c) == None
             && s.state.principalGlobalSequence < MAX_SEQUENCE && s.state.organizationDecisionSequence < MAX_SEQUENCE
    ensures var reply := FinalizeStep(sha, After(sha, Fresh(initial), calls), c, m).1;
            if m.validUntilEpochMs <= m.issuedAtEpochMs then reply == Failed(ReceiptFailed(InvalidValidityWindow))
            else if c.outcome == Allow && m.effectiveCapabilityHash.None? then
              reply == Failed(ReceiptFailed(MissingEffectiveCapabilityHash))
            else if c.outcome != Allow && m.effectiveCapabilityHash.Some? then
              reply == Failed(ReceiptFailed(UnexpectedEffectiveCapabilityHash))
            else reply.Receipted?
  {
    hide AllSound, Numbered, After, Encode, DomainHash, RetryMatches, DependencyError, EventAuthorized;
    RunKeeps(sha, initial, calls);
  }

  predicate DependencyCurrent(current: Current, d: Dependency.DependencyRef) {
    && Dependency.KeyOf(d) in current
    && var c := current[Dependency.KeyOf(d)];
    && d.expectedGeneration == c.generation && d.expectedDigest == c.digest && d.expectedStatus == c.status
  }

  lemma {:induction false} NoDependencyErrorIff(current: Current, ds: seq<Dependency.DependencyRef>)
    ensures DependencyError(current, ds) == None <==> forall d :: d in ds ==> DependencyCurrent(current, d)
  {
    if ds != [] {
      NoDependencyErrorIff(current, ds[1..]);
      assert OneDependencyError(current, ds[0]) == None <==> DependencyCurrent(current, ds[0]);
      hide DependencyCurrent, OneDependencyError;
      assert ds == [ds[0]] + ds[1..];
    }
  }

  /** In a reachable state a new receipt is finalized iff the candidate binds the current identity,
      generations and an active membership, every one of its dependencies is present and unchanged,
      numbers of both kinds are left, the window is not empty and ALLOW alone carries a hash. */
  lemma FinalizesIff(sha: Sha256, initial: RuntimeState, calls: seq<Call>, c: CandidateDecision, m: ReceiptMaterial)
    requires InitialStateValid(initial) && m.receiptId !in After(sha, Fresh(initial), calls).receipts
    ensures var s := After(sha, Fresh(initial), calls);
            FinalizeStep(sha, s, c, m).1.Receipted? <==>
              (&& Binds(c, FinalizationOf(s.state)) && c.evaluatedGenerations == s.state.liveGenerations
               && s.state.membershipStatus == Dependency.Active
               && (forall d :: d in c.dependencyBundle.dependencies ==> DependencyCurrent(s.dependencies, d))
               && s.state.principalGlobalSequence < MAX_SEQUENCE && s.state.organizationDecisionSequence < MAX_SEQUENCE
               && m.issuedAtEpochMs < m.validUntilEpochMs && (c.outcome == Allow <==> m.effectiveCapabilityHash.Some?))
  {
    hide AllSound, Numbered, After, Encode, DomainHash, RetryMatches, DependencyError, EventAuthorized, DependencyCurrent;
    var s := After(sha, Fresh(initial), calls);
    NoDependencyErrorIff(s.dependencies, c.dependencyBundle.dependencies);
    if Refusal(s, c) == None && s.state.principalGlobalSequence < MAX_SEQUENCE
       && s.state.organizationDecisionSequence < MAX_SEQUENCE { IssueFailsOnlyFor(sha, initial, calls, c, m); }
    hide IssueSpec, Phase;
  }

  // ----- a revocation that goes through

  /** The grant that fits a revocation resting on a receipt. */
  predicate Matches(g: Grant, q: Revocation, r: DecisionReceipt) {
    && g.mutationGrantId == q.grantId && g.decisionReceiptId == r.receiptId && GrantFits(g, q) && GrantUsable(g, q.now)
    && r.principalId == q.actor && r.organizationId == q.organization && r.capabilityId == g.capabilityId
    && r.outcome == Allow && q.now < r.validUntilEpochMs
  }

  /** From a reachable state whose membership is active: finalizing an ALLOW for the revocation,
      installing the grant that fits it and executing the revocation succeeds, as long as both
      revocation numbers are left.  So the one revocation of a run is really possible. */
  lemma GrantedRevocationSucceeds(sha: Sha256, initial: RuntimeState, calls: seq<Call>, c: CandidateDecision,
                                  m: ReceiptMaterial, g: Grant, q: Revocation)
    requires InitialStateValid(initial)
    requires var s := After(sha, Fresh(initial), calls);
             && m.receiptId !in s.receipts && s.state.membershipStatus == Dependency.Active
             && FinalizeStep(sha, s, c, m).1.Receipted? && Matches(g, q, FinalizeStep(sha, s, c, m).1.receipt)
             && s.state.membershipId == q.target
             && s.state.liveGenerations.membershipGeneration < MAX_SEQUENCE
             && s.state.organizationRevocationEpoch < MAX_SEQUENCE
    ensures var s1 := FinalizeStep(sha, After(sha, Fresh(initial), calls), c, m).0;
            Step(sha, Step(sha, s1, InstallGrant(g)).0, Revoke(q)).1.Recorded?
  {
    hide After, GrantFits, Refusal, Encode, DomainHash, Ascii, RetryMatches, SequencesValid;
    var s := After(sha, Fresh(initial), calls);
    FinalizedIsStored(sha, s, c, m);
    hide IssueSpec;
    var s2 := Step(sha, FinalizeStep(sha, s, c, m).0, InstallGrant(g)).0;
    assert RevocationError(s2, q) == None;
  }

  const SOME_ID: StableId := [0, 0, 0, 0, 0, 0, 0, 0, 0, 0, 0, 0, 0, 0, 0, 0]
  const SOME_DIGEST: SemanticDigest := SOME_ID + SOME_ID

  /** A candidate, its receipt, a grant and a revocation that fit an initial state. */
  function AllowFor(s: RuntimeState): CandidateDecision {
    RevokeIsRegistered();
    CandidateDecision(SOME_ID, s.principalId, s.organizationId, s.membershipId, s.authenticatorId,
                      Ascii("identity.membership.revoke"), 1, Allow, [CurrentAuthorityProven], None, SOME_DIGEST, SOME_DIGEST,
                      SOME_DIGEST, Dependency.Bundle([], [], SOME_DIGEST), s.liveGenerations, 0)
  }

  /** Small letters and dots. */
  predicate Dotted(s: string) {
    1 <= |s| <= 128 && 'a' <= s[0] <= 'z' && forall i :: 0 <= i < |s| ==> 'a' <= s[i] <= 'z' || s[i] == '.'
  }

  lemma DottedIsRegistered(s: string)
    requires Dotted(s)
    ensures IsRegistered(Ascii(s))
  {
  }

  lemma RevokeIsRegistered()
    ensures IsRegistered(Ascii("identity.membership.revoke")) && IsRegistered(Ascii("membership"))
  {
    hide IsRegistered, Ascii;
    DottedIsRegistered("identity.membership.revoke");
    DottedIsRegistered("membership");
  }

  const SOME_MATERIAL := ReceiptMaterial(
    SOME_ID, SOME_ID, SOME_DIGEST, SOME_DIGEST, SOME_DIGEST, Some(SOME_DIGEST), SOME_DIGEST, 0, 2)

  function GrantFor(s: RuntimeState): Grant {
    RevokeIsRegistered();
    Grant(SOME_ID, SOME_ID, s.principalId, s.organizationId, Ascii("identity.membership.revoke"), Ascii("membership"),
          s.membershipId, SOME_DIGEST, ['a' as int], SOME_DIGEST, 0, 2, None, None)
  }

  function RequestFor(s: RuntimeState): Revocation {
    Revocation(SOME_ID, SOME_ID, s.principalId, s.organizationId, s.membershipId, SOME_DIGEST, ['a' as int], SOME_DIGEST, 1)
  }

  function RevokingRun(s: RuntimeState): seq<Call> {
    [Finalize(AllowFor(s), SOME_MATERIAL), InstallGrant(GrantFor(s)), Revoke(RequestFor(s))]
  }

  /** Active, with a number of each kind left. */
  predicate CanRevoke(s: RuntimeState) {
    && s.membershipStatus == Dependency.Active
    && s.principalGlobalSequence < MAX_SEQUENCE && s.organizationDecisionSequence < MAX_SEQUENCE
    && s.liveGenerations.membershipGeneration < MAX_SEQUENCE && s.organizationRevocationEpoch < MAX_SEQUENCE
  }

  lemma FirstIsFinalized(sha: Sha256, initial: RuntimeState)
    requires InitialStateValid(initial) && CanRevoke(initial)
    ensures var reply := FinalizeStep(sha, Fresh(initial), AllowFor(initial), SOME_MATERIAL).1;
            reply.Receipted? && Matches(GrantFor(initial), RequestFor(initial), reply.receipt)
  {
    hide Encode, DomainHash, Ascii, RetryMatches;
  }

  lemma RevokingRunRevokes(sha: Sha256, initial: RuntimeState)
    requires InitialStateValid(initial) && CanRevoke(initial)
    ensures Revocations(sha, Fresh(initial), RevokingRun(initial)) >= 1
  {
    hide FinalizeStep, Matches, AllowFor, GrantFor;
    FirstIsFinalized(sha, initial);
    assert RequestFor(initial).target == initial.membershipId;
    GrantedRevocationSucceeds(sha, initial, [], AllowFor(initial), SOME_MATERIAL, GrantFor(initial), RequestFor(initial));
    var run := RevokingRun(initial);
    assert run[..2][..1] == run[..1] && run[..1][..0] == [];
    assert After(sha, Fresh(initial), run[..1]) == Step(sha, Fresh(initial), run[0]).0;
    assert After(sha, Fresh(initial), run[..2]) == Step(sha, After(sha, Fresh(initial), run[..1]), run[1]).0;
  }

  /** Some run revokes iff the membership starts active and a number of each kind is left. */
  lemma RevocationPossibleIff(sha: Sha256, initial: RuntimeState)
    requires InitialStateValid(initial)
    ensures (exists calls :: Revocations(sha, Fresh(initial), calls) == 1) <==> CanRevoke(initial)
  {
    hide Revocations, After, RevokingRun, Verified;
    if CanRevoke(initial) {
      RevokingRunRevokes(sha, initial);
      AtMostOneRevocation(sha, initial, RevokingRun(initial));
    }
    if calls :| Revocations(sha, Fresh(initial), calls) == 1 {
      AtMostOneRevocation(sha, initial, calls);
      RunKeeps(sha, initial, calls);
      var s := After(sha, Fresh(initial), calls);
      var id := s.events[0].decisionReceiptId;
      assert ReceiptSound(sha, initial, s.state, id, s.receipts[id]);
    }
  }

  /** The two epochs may start apart, and then the revocation moves the copy by another step. */
  lemma EpochsApart(sha: Sha256)
    ensures var initial := RuntimeState(SOME_ID, SOME_ID, SOME_ID, SOME_ID, 0, 0, 0, 0,
                                        GenerationVector(0, 0, 0, 0, 0, 0, 0, 5), Dependency.Active);
            var calls := RevokingRun(initial);
            && InitialStateValid(initial) && Revocations(sha, Fresh(initial), calls) == 1
            && After(sha, Fresh(initial), calls).state.liveGenerations.organizationRevocationEpoch == 1
  {
    hide Revocations, After, RevokingRun;
    var initial := RuntimeState(SOME_ID, SOME_ID, SOME_ID, SOME_ID, 0, 0, 0, 0,
                                GenerationVector(0, 0, 0, 0, 0, 0, 0, 5), Dependency.Active);
    RevokingRunRevokes(sha, initial);
    AtMostOneRevocation(sha, initial, RevokingRun(initial));
  }
}
