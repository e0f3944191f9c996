/** What holds in every reachable state of the predecessor store (store.py): derived authority is
    always backed by the authority it was derived from. */
module StoreInvariants {
  import opened Wrappers
  import opened Selection
  import opened StoreTables
  import opened StoreRegistry
  import opened StoreSpec

  // ----- the invariant, one table at a time

  ghost predicate EntitiesSound(identities: map<Id, bool>, accounts: map<Id, Account>, credentials: map<Id, Credential>,
                                organizations: map<Id, bool>, tenants: map<Id, Tenant>) {
    && (forall i :: i in identities ==> identities[i])
    && (forall a :: a in accounts ==> accounts[a].active && accounts[a].identity in identities)
    && (forall c :: c in credentials ==> credentials[c].active && c in accounts)
    && (forall o :: o in organizations ==> organizations[o])
    && (forall t :: t in tenants ==> tenants[t].active && tenants[t].organization in organizations)
  }

  ghost predicate MembershipsSound(memberships: map<Id, Membership>) {
    forall m :: m in memberships ==> memberships[m].entitlementVersion == 1
  }

  /** An account session belongs to an account with a password; while active it carries the
      current revision of that password. */
  predicate LoginSound(r: Row<LoginDetail>, accounts: map<Id, Account>, credentials: map<Id, Credential>) {
    LoginLinked(r, accounts, credentials) && (r.status == Active ==> RevisionCurrent(r, credentials))
  }

  predicate LoginLinked(r: Row<LoginDetail>, accounts: map<Id, Account>, credentials: map<Id, Credential>) {
    && Consistent(r) && r.expiresAt.Some? && r.account in accounts && r.account in credentials
    && r.detail.identity == accounts[r.account].identity
  }

  predicate RevisionCurrent(r: Row<LoginDetail>, credentials: map<Id, Credential>) {
    r.account in credentials && r.detail.credentialRevision == credentials[r.account].revision
  }

  ghost predicate LoginsSound(t: map<Id, Row<LoginDetail>>, accounts: map<Id, Account>, credentials: map<Id, Credential>) {
    forall id :: id in t ==> LoginSound(t[id], accounts, credentials)
  }

  predicate SessionLinked(r: Row<SessionDetail>, parents: map<Id, Row<LoginDetail>>, memberships: map<Id, Membership>,
                          organizations: map<Id, bool>, tenants: map<Id, Tenant>) {
    var d := r.detail;
    && Consistent(r) && r.expiresAt.Some?
    && d.accountSession in parents && d.membership in memberships && d.organization in organizations && d.tenant in tenants
    && var parent := parents[d.accountSession];
    && r.account == parent.account && d.identity == parent.detail.identity
    && d.credentialRevision == parent.detail.credentialRevision
    && parent.expiresAt.Some? && r.expiresAt.value <= parent.expiresAt.value
    && memberships[d.membership].identity == d.identity && memberships[d.membership].organization == d.organization
    && d.authorizationVersion <= memberships[d.membership].authorizationVersion && d.entitlementVersion == 1
    && tenants[d.tenant].organization == d.organization
  }

  /** An active organization session has an active parent and an active membership. */
  predicate SessionSound(r: Row<SessionDetail>, parents: map<Id, Row<LoginDetail>>, memberships: map<Id, Membership>,
                         organizations: map<Id, bool>, tenants: map<Id, Tenant>) {
    && SessionLinked(r, parents, memberships, organizations, tenants)
    && (r.status == Active ==>
          parents[r.detail.accountSession].status == Active && memberships[r.detail.membership].status == MembershipActive)
  }

  ghost predicate SessionsSound(t: map<Id, Row<SessionDetail>>, parents: map<Id, Row<LoginDetail>>,
                                memberships: map<Id, Membership>, organizations: map<Id, bool>, tenants: map<Id, Tenant>) {
    forall id :: id in t ==> SessionSound(t[id], parents, memberships, organizations, tenants)
  }

  /** A handoff repeats the columns of its source session; while active the source is active. */
  predicate HandoffSound(r: Row<HandoffDetail>, sessions: map<Id, Row<SessionDetail>>) {
    && Consistent(r) && r.detail.sourceSession in sessions
    && var source := sessions[r.detail.sourceSession];
    && r.account == source.account && r.detail.identity == source.detail.identity
    && r.detail.membership == source.detail.membership && r.detail.organization == source.detail.organization
    && r.detail.tenant == source.detail.tenant
    && r.detail.authorizationVersion == source.detail.authorizationVersion
    && r.detail.entitlementVersion == source.detail.entitlementVersion && r.detail.consumer == CONSUMER
    && (r.status == Active ==> source.status == Active)
  }

  ghost predicate HandoffsSound(t: map<Id, Row<HandoffDetail>>, sessions: map<Id, Row<SessionDetail>>) {
    forall id :: id in t ==> HandoffSound(t[id], sessions)
  }

  /** A step-up belongs to the account of its session; while active that session is active. */
  predicate StepUpSound(r: Row<FactorDetail>, parents: map<Id, Row<LoginDetail>>) {
    && Consistent(r) && r.detail.accountSession in parents && r.account == parents[r.detail.accountSession].account
    && (r.status == Active ==> parents[r.detail.accountSession].status == Active)
  }

  ghost predicate StepUpsSound(t: map<Id, Row<FactorDetail>>, parents: map<Id, Row<LoginDetail>>) {
    forall id :: id in t ==> StepUpSound(t[id], parents)
  }

  predicate FactorSound(f: Authenticator) {
    match f.status
    case FactorPending => f.verifiedAt.None? && f.revokedAt.None?
    case FactorActive => f.verifiedAt.Some? && f.revokedAt.None?
    case FactorRevoked => f.revokedAt.Some?
  }

  predicate BothKept(a: Authenticator, b: Authenticator) {
    a.account == b.account && a.status != FactorRevoked && b.status != FactorRevoked
  }

  /** At most one authenticator of an account is not revoked. */
  ghost predicate FactorsSound(m: map<Id, Authenticator>) {
    && (forall id :: id in m ==> FactorSound(m[id]))
    && (forall i, j :: i in m && j in m && BothKept(m[i], m[j]) ==> i == j)
  }

  /** An invitation admits one, and names definitions that exist; one that was used names each once. */
  predicate InvitationSound(i: Invitation, roles: Definitions, entitlements: Definitions) {
    && i.maximumUses == 1 && i.consumedUses == (if i.active then 0 else 1)
    && (forall r :: r in i.roles ==> r in roles) && (forall r :: r in i.entitlements ==> r in entitlements)
    && (!i.active ==> NoRepeats(i.roles) && NoRepeats(i.entitlements))
  }

  ghost predicate InvitationsSound(m: map<Id, Invitation>, roles: Definitions, entitlements: Definitions) {
    forall id :: id in m ==> InvitationSound(m[id], roles, entitlements)
  }

  ghost predicate ChallengesSound(verifications: map<Id, Row<()>>, resets: map<Id, Row<()>>,
                                  emailChanges: map<Id, Row<string>>, recoveryCodes: map<Id, Row<()>>,
                                  attestations: map<Id, Row<FactorDetail>>) {
    && AllConsistent(verifications) && AllConsistent(resets) && AllConsistent(emailChanges)
    && AllConsistent(recoveryCodes) && AllConsistent(attestations)
    && SingleActive(resets) && SingleActive(emailChanges)
  }

  ghost predicate Invariant(db: Db) {
    && EntitiesSound(db.identities, db.accounts, db.credentials, db.organizations, db.tenants)
    && MembershipsSound(db.memberships)
    && LoginsSound(db.accountSessions, db.accounts, db.credentials)
    && SessionsSound(db.sessions, db.accountSessions, db.memberships, db.organizations, db.tenants)
    && HandoffsSound(db.handoffs, db.sessions)
    && StepUpsSound(db.stepUps, db.accountSessions)
    && FactorsSound(db.authenticators)
    && InvitationsSound(db.invitations, db.registry.roles, db.registry.entitlements)
    && RegistrySound(db.registry) && HoldersExist(db.registry, db.memberships.Keys)
    && ChallengesSound(db.verifications, db.resets, db.emailChanges, db.recoveryCodes, db.attestations)
  }

  lemma EmptyIsSound()
    ensures Invariant(EMPTY)
  {
  }

  // ----- statements and consistency

  lemma InsertKeepsConsistent<X>(t: Table<X>, n: Fresh, account: Id, expiresAt: Option<Time>, detail: X)
    requires AllConsistent(t) && Insert(t, n.id, NewRow(n.digest, account, expiresAt, detail)).Ok?
    ensures AllConsistent(Insert(t, n.id, NewRow(n.digest, account, expiresAt, detail)).value)
  {
    hide UniqueDigests;
  }

  lemma ConsumeKeepsConsistent<X>(t: Table<X>, id: Id, now: Time)
    requires AllConsistent(t) && id in t && Live(t[id])
    ensures AllConsistent(Consume(t, id, now))
  {
    hide UniqueDigests;
  }

  lemma RevokeKeepsConsistent<X>(t: Table<X>, ids: set<Id>, now: Time)
    requires AllConsistent(t)
    ensures AllConsistent(RevokeLive(t, ids, now))
    ensures RevokeActive(t, ids, now) == RevokeLive(t, ids, now)
  {
    hide UniqueDigests;
    forall id | id in t ensures (t[id].status == Active <==> Live(t[id])) && Consistent(RevokeLive(t, ids, now)[id]) {
      assert Consistent(t[id]);
    }
  }

  lemma {:induction false} InsertCodesKeepsConsistent(t: Table<()>, codes: seq<Fresh>, account: Id)
    requires AllConsistent(t) && InsertCodes(t, codes, account).Ok?
    ensures AllConsistent(InsertCodes(t, codes, account).value)
    decreases |codes|
  {
    hide AllConsistent, UniqueDigests;
    if codes != [] {
      var n := |codes| - 1;
      InsertCodesKeepsConsistent(t, codes[..n], account);
      InsertKeepsConsistent(InsertCodes(t, codes[..n], account).value, codes[n], account, None, ());
    }
  }

  // ----- revoking what was derived

  /** Rows that changed were active, are now revoked, and lie among the given ids. */
  ghost predicate OnlyEnded<X>(t: map<Id, Row<X>>, u: map<Id, Row<X>>, ids: set<Id>) {
    && u.Keys == t.Keys
    && forall id :: id in t ==> if id in ids && t[id].status == Active then Ended(t[id], u[id]) else u[id] == t[id]
  }

  predicate Ended<X(==)>(a: Row<X>, b: Row<X>) {
    b.revokedAt.Some? && b == a.(status := Revoked, revokedAt := b.revokedAt)
  }

  lemma RevokeOnlyEnds<X>(t: Table<X>, ids: set<Id>, now: Time)
    requires AllConsistent(t)
    ensures OnlyEnded(t, RevokeLive(t, ids, now), ids) && OnlyEnded(t, RevokeActive(t, ids, now), ids)
  {
    hide UniqueDigests;
    forall id | id in t ensures t[id].status == Active <==> Live(t[id]) { assert Consistent(t[id]); }
  }

  /** Ending sessions with their handoffs leaves every handoff backed. */
  lemma HandoffsStayBacked(handoffs: Table<HandoffDetail>, sessions: Table<SessionDetail>, after: Table<SessionDetail>,
                           below: set<Id>, now: Time)
    requires HandoffsSound(handoffs, sessions) && OnlyEnded(sessions, after, below)
    ensures HandoffsSound(RevokeLive(handoffs, From(handoffs, RevokedAmong(after, below)), now), after)
  {
    hide UniqueDigests;
    var u := RevokeLive(handoffs, From(handoffs, RevokedAmong(after, below)), now);
    forall id | id in u ensures HandoffSound(u[id], after) {
      assert HandoffSound(handoffs[id], sessions);
      var source := handoffs[id].detail.sourceSession;
      assert source in after;
    }
  }

  lemma SessionsStayBacked(sessions: Table<SessionDetail>, parents: Table<LoginDetail>, parents': Table<LoginDetail>,
                           ended: set<Id>, memberships: Memberships, organizations: map<Id, bool>, tenants: Tenants, now: Time)
    requires SessionsSound(sessions, parents, memberships, organizations, tenants) && OnlyEnded(parents, parents', ended)
    ensures AllConsistent(sessions)
    ensures SessionsSound(RevokeActive(sessions, Under(sessions, ended), now), parents', memberships, organizations, tenants)
  {
    hide UniqueDigests, UniqueCurrent, UniqueTenants;
    var u := RevokeActive(sessions, Under(sessions, ended), now);
    forall id | id in sessions
      ensures Consistent(sessions[id]) && SessionSound(u[id], parents', memberships, organizations, tenants)
    {
      assert SessionSound(sessions[id], parents, memberships, organizations, tenants);
      var parent := sessions[id].detail.accountSession;
      assert parent in parents';
      assert Ended(parents[parent], parents'[parent]) || parents'[parent] == parents[parent];
    }
  }

  lemma EndSessionsKeeps(db: Db, before: Table<LoginDetail>, ended: set<Id>, now: Time)
    requires SessionsSound(db.sessions, before, db.memberships, db.organizations, db.tenants)
    requires OnlyEnded(before, db.accountSessions, ended) && HandoffsSound(db.handoffs, db.sessions)
    ensures var u := EndSessionsUnder(db, ended, now);
            SessionsSound(u.sessions, db.accountSessions, db.memberships, db.organizations, db.tenants)
            && HandoffsSound(u.handoffs, u.sessions)
  {
    hide UniqueDigests, UniqueCurrent, UniqueTenants, UniqueCodes, UniqueEmails, UniqueActiveFactor;
    hide SessionSound, HandoffSound, OnlyEnded;
    SessionsStayBacked(db.sessions, before, db.accountSessions, ended, db.memberships, db.organizations, db.tenants, now);
    var below := Under(db.sessions, ended);
    RevokeOnlyEnds(db.sessions, below, now);
    hide SessionsSound, HandoffsSound;
    HandoffsStayBacked(db.handoffs, db.sessions, RevokeActive(db.sessions, below, now), below, now);
  }

  lemma StepUpsStayBacked(stepUps: Table<FactorDetail>, parents: Table<LoginDetail>, parents': Table<LoginDetail>,
                          ended: set<Id>, ids: set<Id>, now: Time)
    requires StepUpsSound(stepUps, parents) && OnlyEnded(parents, parents', ended)
    requires forall id :: id in stepUps && stepUps[id].detail.accountSession in ended ==> id in ids
    ensures StepUpsSound(RevokeLive(stepUps, ids, now), parents')
  {
    hide UniqueDigests;
    var u := RevokeLive(stepUps, ids, now);
    forall id | id in stepUps ensures StepUpSound(u[id], parents') {
      assert StepUpSound(stepUps[id], parents);
      var parent := stepUps[id].detail.accountSession;
      assert parent in parents';
      assert Ended(parents[parent], parents'[parent]) || parents'[parent] == parents[parent];
    }
  }
}
