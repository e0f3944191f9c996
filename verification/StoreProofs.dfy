/** Every operation of the predecessor store keeps the invariant, and so does every run. */
module StoreProofs {
  import opened Wrappers
  import opened Selection
  import opened StoreTables
  import opened StoreRegistry
  import opened StoreSpec
  import opened StoreInvariants

  // ----- growing the tables others point to

  ghost predicate Grows<V>(m: map<Id, V>, n: map<Id, V>) {
    forall k :: k in m ==> k in n && n[k] == m[k]
  }

  lemma LoginsGrow(t: Table<LoginDetail>, accounts: map<Id, Account>, credentials: map<Id, Credential>,
                   accounts': map<Id, Account>, credentials': map<Id, Credential>)
    requires LoginsSound(t, accounts, credentials) && Grows(accounts, accounts') && Grows(credentials, credentials')
    ensures LoginsSound(t, accounts', credentials')
  {
    hide UniqueDigests;
    forall id | id in t ensures LoginSound(t[id], accounts', credentials') {
      assert LoginSound(t[id], accounts, credentials);
    }
  }

  lemma SessionsGrow(t: Table<SessionDetail>, parents: Table<LoginDetail>, parents': Table<LoginDetail>, m: Memberships,
                     m': Memberships, o: map<Id, bool>, o': map<Id, bool>, tenants: Tenants, tenants': Tenants)
    requires SessionsSound(t, parents, m, o, tenants)
    requires Grows(parents, parents') && Grows(m, m') && Grows(o, o') && Grows(tenants, tenants')
    ensures SessionsSound(t, parents', m', o', tenants')
  {
    hide UniqueDigests, UniqueCurrent, UniqueTenants;
    forall id | id in t ensures SessionSound(t[id], parents', m', o', tenants') {
      assert SessionSound(t[id], parents, m, o, tenants);
    }
  }

  lemma HandoffsGrow(t: Table<HandoffDetail>, sessions: Table<SessionDetail>, sessions': Table<SessionDetail>)
    requires HandoffsSound(t, sessions) && Grows(sessions, sessions')
    ensures HandoffsSound(t, sessions')
  {
    hide UniqueDigests;
    forall id | id in t ensures HandoffSound(t[id], sessions') { assert HandoffSound(t[id], sessions); }
  }

  lemma StepUpsGrow(t: Table<FactorDetail>, parents: Table<LoginDetail>, parents': Table<LoginDetail>)
    requires StepUpsSound(t, parents) && Grows(parents, parents')
    ensures StepUpsSound(t, parents')
  {
    hide UniqueDigests;
    forall id | id in t ensures StepUpSound(t[id], parents') { assert StepUpSound(t[id], parents); }
  }

  // ----- step-ups

  lemma ConsumedStepUpSound(t: Table<FactorDetail>, parents: Table<LoginDetail>, id: Id, now: Time)
    requires StepUpsSound(t, parents) && id in t && Live(t[id])
    ensures StepUpsSound(Consume(t, id, now), parents)
  {
    hide UniqueDigests;
  }

  lemma GuardKeeps(db: Db, account: Id, accountSession: Id, stepUp: Option<Digest>, purpose: Purpose, now: Time)
    requires StepUpsSound(db.stepUps, db.accountSessions)
    requires GuardAction(db, account, accountSession, stepUp, purpose, now).Ok?
    ensures StepUpsSound(GuardAction(db, account, accountSession, stepUp, purpose, now).value, db.accountSessions)
  {
    hide UniqueDigests, StepUpsSound, UniqueCurrent, UniqueTenants, UniqueCodes, UniqueEmails, UniqueActiveFactor;
    if ActiveAuthenticator(db.authenticators, account).Some? {
      UseStepUpKeeps(db, account, accountSession, stepUp.value, purpose, now);
    }
  }

  lemma UseStepUpKeeps(db: Db, account: Id, accountSession: Id, token: Digest, purpose: Purpose, now: Time)
    requires StepUpsSound(db.stepUps, db.accountSessions)
    requires UseStepUp(db, account, accountSession, token, purpose, now).Ok?
    ensures StepUpsSound(UseStepUp(db, account, accountSession, token, purpose, now).value, db.accountSessions)
  {
    hide UniqueDigests, StepUpsSound, UniqueCurrent, UniqueTenants, UniqueCodes, UniqueEmails, UniqueActiveFactor;
    ConsumedStepUpSound(db.stepUps, db.accountSessions, Lookup(db.stepUps, token).value, now);
  }

  lemma MintKeeps(t: Table<FactorDetail>, parents: Table<LoginDetail>, n: Fresh, account: Id, detail: FactorDetail, ttl: int,
                  now: Time)
    requires StepUpsSound(t, parents) && MintStepUp(t, n, account, detail, ttl, now).Ok?
    requires detail.accountSession in parents && parents[detail.accountSession].account == account
    requires parents[detail.accountSession].status == Active
    ensures StepUpsSound(MintStepUp(t, n, account, detail, ttl, now).value, parents)
  {
    hide UniqueDigests;
  }

  lemma UseAttestationKeeps(db: Db, account: Id, accountSession: Id, authenticator: Id, token: Digest, purpose: Purpose, now: Time)
    requires AllConsistent(db.attestations)
    requires UseAttestation(db, account, accountSession, authenticator, token, purpose, now).Ok?
    ensures AllConsistent(UseAttestation(db, account, accountSession, authenticator, token, purpose, now).value)
  {
    hide UniqueDigests, AllConsistent, UniqueCurrent, UniqueTenants, UniqueCodes, UniqueEmails, UniqueActiveFactor;
    ConsumeKeepsConsistent(db.attestations, Lookup(db.attestations, token).value, now);
  }

  // ----- ending an account's authority

  ghost predicate LoginsSoundBut(t: map<Id, Row<LoginDetail>>, accounts: map<Id, Account>, credentials: map<Id, Credential>,
                                 account: Id) {
    forall id :: id in t ==>
      LoginLinked(t[id], accounts, credentials)
      && (t[id].status == Active && t[id].account != account ==> RevisionCurrent(t[id], credentials))
  }

  /** The invariant, except that sessions of one account may carry an old revision. */
  ghost predicate InvariantBut(db: Db, account: Id) {
    && EntitiesSound(db.identities, db.accounts, db.credentials, db.organizations, db.tenants)
    && MembershipsSound(db.memberships)
    && LoginsSoundBut(db.accountSessions, db.accounts, db.credentials, account)
    && SessionsSound(db.sessions, db.accountSessions, db.memberships, db.organizations, db.tenants)
    && HandoffsSound(db.handoffs, db.sessions)
    && StepUpsSound(db.stepUps, db.accountSessions)
    && FactorsSound(db.authenticators)
    && InvitationsSound(db.invitations, db.registry.roles, db.registry.entitlements)
    && RegistrySound(db.registry) && HoldersExist(db.registry, db.memberships.Keys)
    && ChallengesSound(db.verifications, db.resets, db.emailChanges, db.recoveryCodes, db.attestations)
  }

  lemma LoginsEnd(t: Table<LoginDetail>, accounts: map<Id, Account>, credentials: map<Id, Credential>, account: Id, now: Time)
    requires LoginsSoundBut(t, accounts, credentials, account)
    ensures AllConsistent(t)
    ensures LoginsSound(RevokeLive(t, LiveSessionsOf(t, account), now), accounts, credentials)
    ensures OnlyEnded(t, RevokeLive(t, LiveSessionsOf(t, account), now), LiveSessionsOf(t, account))
  {
    hide UniqueDigests;
    var u := RevokeLive(t, LiveSessionsOf(t, account), now);
    forall id | id in t ensures Consistent(t[id]) && LoginSound(u[id], accounts, credentials) {
      assert LoginLinked(t[id], accounts, credentials);
    }
    RevokeOnlyEnds(t, LiveSessionsOf(t, account), now);
  }

  lemma StepUpsOfAccount(stepUps: Table<FactorDetail>, parents: Table<LoginDetail>, account: Id, id: Id)
    requires StepUpsSound(stepUps, parents) && id in stepUps
    requires stepUps[id].detail.accountSession in LiveSessionsOf(parents, account)
    ensures id in OfAccount(stepUps, account)
  {
    hide UniqueDigests;
    assert StepUpSound(stepUps[id], parents);
  }

  lemma EndAccountAuthorityKeeps(db: Db, account: Id, now: Time)
    requires InvariantBut(db, account)
    ensures Invariant(EndAccountAuthority(db, account, now))
  {
    hide UniqueDigests, UniqueCurrent, UniqueTenants, UniqueCodes, UniqueEmails, UniqueActiveFactor;
    hide EntitiesSound, MembershipsSound, LoginsSoundBut, LoginsSound, SessionsSound, HandoffsSound, StepUpsSound;
    hide FactorsSound, InvitationsSound, RegistrySound, HoldersExist, AllConsistent, SingleActive, OnlyEnded;
    var parents := LiveSessionsOf(db.accountSessions, account);
    var ended := db.(accountSessions := RevokeLive(db.accountSessions, parents, now));
    LoginsEnd(db.accountSessions, db.accounts, db.credentials, account, now);
    EndSessionsKeeps(ended, db.accountSessions, parents, now);
    forall id | id in db.stepUps && db.stepUps[id].detail.accountSession in parents ensures id in OfAccount(db.stepUps, account) {
      StepUpsOfAccount(db.stepUps, db.accountSessions, account, id);
    }
    StepUpsStayBacked(db.stepUps, db.accountSessions, ended.accountSessions, parents, OfAccount(db.stepUps, account), now);
    RevokeKeepsConsistent(db.attestations, OfAccount(db.attestations, account), now);
  }

  // ----- operations

  lemma AddPerson(i: map<Id, bool>, a: map<Id, Account>, c: map<Id, Credential>, o: map<Id, bool>, t: map<Id, Tenant>,
                  identity: Id, account: Id)
    requires EntitiesSound(i, a, c, o, t) && account !in a
    ensures EntitiesSound(i[identity := true], a, c, o, t)
    ensures EntitiesSound(i[identity := true], a[account := Account(identity, true)], c, o, t)
    ensures EntitiesSound(i[identity := true], a[account := Account(identity, true)], c[account := Credential(1, true)], o, t)
    ensures account !in c && Grows(a, a[account := Account(identity, true)]) && Grows(c, c[account := Credential(1, true)])
  {
  }

  lemma AddOne(i: map<Id, bool>, a: map<Id, Account>, c: map<Id, Credential>, o: map<Id, bool>, t: map<Id, Tenant>, identity: Id)
    requires EntitiesSound(i, a, c, o, t)
    ensures EntitiesSound(i[identity := true], a, c, o, t)
  {
  }

  lemma AddAccount(i: map<Id, bool>, a: map<Id, Account>, c: map<Id, Credential>, o: map<Id, bool>, t: map<Id, Tenant>,
                   identity: Id, account: Id)
    requires EntitiesSound(i, a, c, o, t) && account !in a && identity in i
    ensures EntitiesSound(i, a[account := Account(identity, true)], c, o, t)
    ensures Grows(a, a[account := Account(identity, true)])
  {
  }

  lemma AddOrganization(i: map<Id, bool>, a: map<Id, Account>, c: map<Id, Credential>, o: map<Id, bool>, t: map<Id, Tenant>,
                        organization: Id, tenant: Id)
    requires EntitiesSound(i, a, c, o, t) && organization !in o && tenant !in t
    ensures EntitiesSound(i, a, c, o[organization := true], t[tenant := Tenant(organization, true)])
    ensures Grows(o, o[organization := true]) && Grows(t, t[tenant := Tenant(organization, true)])
  {
  }

  lemma SignupKeeps(db: Db, op: Op)
    requires Invariant(db) && op.SignupOp? && AccountStep(db, op).Ok?
    ensures Invariant(AccountStep(db, op).value)
  {
    hide UniqueDigests, UniqueCurrent, UniqueTenants, UniqueCodes, UniqueEmails, UniqueActiveFactor;
    hide MembershipsSound, LoginsSound, SessionsSound, HandoffsSound, StepUpsSound, FactorsSound, InvitationsSound, RegistrySound, HoldersExist;
    hide AllConsistent, SingleActive, EntitiesSound, Grows;
    var u := AccountStep(db, op).value;
    AddPerson(db.identities, db.accounts, db.credentials, db.organizations, db.tenants, op.identity, op.account);
    LoginsGrow(db.accountSessions, db.accounts, db.credentials, u.accounts, u.credentials);
    InsertKeepsConsistent(db.verifications, op.n, op.account, Some(op.now + op.ttl as real), ());
  }

  lemma VerifyEmailKeeps(db: Db, op: Op)
    requires Invariant(db) && op.VerifyEmailOp? && AccountStep(db, op).Ok?
    ensures Invariant(AccountStep(db, op).value)
  {
    hide UniqueDigests, UniqueCurrent, UniqueTenants, UniqueCodes, UniqueEmails, UniqueActiveFactor;
    hide EntitiesSound, MembershipsSound, LoginsSound, SessionsSound, HandoffsSound, StepUpsSound, FactorsSound;
    hide InvitationsSound, RegistrySound, HoldersExist, AllConsistent, SingleActive;
    ConsumeKeepsConsistent(db.verifications, Usable(db.verifications, op.token, op.now).value, op.now);
  }

  lemma InsertedLogin(t: Table<LoginDetail>, id: Id, row: Row<LoginDetail>, accounts: map<Id, Account>,
                      credentials: map<Id, Credential>)
    requires LoginsSound(t, accounts, credentials) && LoginSound(row, accounts, credentials) && Insert(t, id, row).Ok?
    ensures LoginsSound(Insert(t, id, row).value, accounts, credentials) && Grows(t, Insert(t, id, row).value)
  {
    hide UniqueDigests;
  }

  lemma LoginKeeps(db: Db, op: Op)
    requires Invariant(db) && op.LoginOp? && AccountStep(db, op).Ok?
    ensures Invariant(AccountStep(db, op).value)
  {
    hide UniqueDigests, UniqueCurrent, UniqueTenants, UniqueCodes, UniqueEmails, UniqueActiveFactor;
    hide EntitiesSound, MembershipsSound, LoginsSound, SessionsSound, HandoffsSound, StepUpsSound, FactorsSound;
    hide InvitationsSound, RegistrySound, HoldersExist, ChallengesSound, Grows;
    var u := AccountStep(db, op).value;
    var account := AccountWithEmail(db.emails, op.email).value;
    var row := NewRow(op.n.digest, account, Some(op.now + op.ttl as real),
                      LoginDetail(db.accounts[account].identity, db.credentials[account].revision));
    InsertedLogin(db.accountSessions, op.n.id, row, db.accounts, db.credentials);
    Stays(db.memberships);
    Stays(db.organizations);
    Stays(db.tenants);
    SessionsGrow(db.sessions, db.accountSessions, u.accountSessions, db.memberships, db.memberships, db.organizations,
                 db.organizations, db.tenants, db.tenants);
    StepUpsGrow(db.stepUps, db.accountSessions, u.accountSessions);
  }

  lemma Stays<V>(m: map<Id, V>)
    ensures Grows(m, m)
  {
  }

  lemma SignoutKeeps(db: Db, op: Op)
    requires Invariant(db) && op.SignoutOp? && AccountStep(db, op).Ok?
    ensures Invariant(AccountStep(db, op).value)
  {
    hide UniqueDigests, UniqueCurrent, UniqueTenants, UniqueCodes, UniqueEmails, UniqueActiveFactor;
    hide EntitiesSound, MembershipsSound, LoginsSound, SessionsSound, HandoffsSound, StepUpsSound, FactorsSound;
    hide InvitationsSound, RegistrySound, HoldersExist, AllConsistent, SingleActive, OnlyEnded, LoadAccountSession;
    var u := db.(accountSessions := RevokeLive(db.accountSessions, {op.id}, op.now));
    SignedOut(db.accountSessions, db.accounts, db.credentials, op.id, op.now);
    EndSessionsKeeps(u, db.accountSessions, {op.id}, op.now);
    StepUpsStayBacked(db.stepUps, db.accountSessions, u.accountSessions, {op.id}, OfSession(db.stepUps, op.id), op.now);
    RevokeKeepsConsistent(db.attestations, OfSession(db.attestations, op.id), op.now);
  }

  lemma SignedOut(t: Table<LoginDetail>, accounts: map<Id, Account>, credentials: map<Id, Credential>, id: Id, now: Time)
    requires LoginsSound(t, accounts, credentials)
    ensures LoginsSound(RevokeLive(t, {id}, now), accounts, credentials) && OnlyEnded(t, RevokeLive(t, {id}, now), {id})
  {
    hide UniqueDigests;
    forall i | i in t ensures Consistent(t[i]) && LoginSound(RevokeLive(t, {id}, now)[i], accounts, credentials) {
      assert LoginSound(t[i], accounts, credentials);
    }
    RevokeOnlyEnds(t, {id}, now);
  }

  /** Replacing a credential ends everything that carried the old revision. */
  lemma ReplaceCredentialKeeps(db: Db, account: Id, resets: Table<()>, now: Time)
    requires Invariant(db) && account in db.credentials && AllConsistent(resets) && SingleActive(resets)
    ensures Invariant(ReplaceCredential(db, account, resets, now))
  {
    hide UniqueDigests, UniqueCurrent, UniqueTenants, UniqueCodes, UniqueEmails, UniqueActiveFactor;
    hide MembershipsSound, SessionsSound, HandoffsSound, StepUpsSound, FactorsSound, InvitationsSound, RegistrySound, HoldersExist;
    hide AllConsistent, SingleActive, EndAccountAuthority;
    var u := db.(credentials := BumpRevision(db.credentials, account), resets := resets);
    forall id | id in u.accountSessions
      ensures LoginLinked(u.accountSessions[id], u.accounts, u.credentials)
      ensures u.accountSessions[id].status == Active && u.accountSessions[id].account != account ==>
                RevisionCurrent(u.accountSessions[id], u.credentials)
    {
      assert LoginSound(db.accountSessions[id], db.accounts, db.credentials);
    }
    EndAccountAuthorityKeeps(u, account, now);
  }

  lemma ResetsCleared<X>(t: Table<X>, ids: set<Id>, now: Time)
    requires AllConsistent(t) && SingleActive(t)
    ensures AllConsistent(RevokeLive(t, ids, now)) && SingleActive(RevokeLive(t, ids, now))
  {
    hide UniqueDigests, AllConsistent;
    RevokeKeepsConsistent(t, ids, now);
  }

  lemma ReplacePasswordKeeps(db: Db, op: Op)
    requires Invariant(db) && op.ReplacePasswordOp? && AccountStep(db, op).Ok?
    ensures Invariant(AccountStep(db, op).value)
  {
    hide UniqueDigests, UniqueCurrent, UniqueTenants, UniqueCodes, UniqueEmails, UniqueActiveFactor;
    hide EntitiesSound, MembershipsSound, LoginsSound, SessionsSound, HandoffsSound, StepUpsSound, FactorsSound;
    hide InvitationsSound, RegistrySound, HoldersExist, AllConsistent, SingleActive, GuardAction, ReplaceCredential;
    var account := db.accountSessions[op.id].account;
    GuardKeeps(db, account, op.id, op.stepUp, ChangePassword, op.now);
    var u := db.(stepUps := GuardAction(db, account, op.id, op.stepUp, ChangePassword, op.now).value);
    ResetsCleared(db.resets, OfAccount(db.resets, account), op.now);
    ReplaceCredentialKeeps(u, account, RevokeLive(db.resets, OfAccount(db.resets, account), op.now), op.now);
  }

  lemma ReplaceActive<X>(t: Table<X>, n: Fresh, account: Id, expiresAt: Option<Time>, detail: X, now: Time)
    requires AllConsistent(t) && SingleActive(t)
    requires Insert(RevokeLive(t, OfAccount(t, account), now), n.id, NewRow(n.digest, account, expiresAt, detail)).Ok?
    ensures var u := Insert(RevokeLive(t, OfAccount(t, account), now), n.id, NewRow(n.digest, account, expiresAt, detail)).value;
            AllConsistent(u) && SingleActive(u)
  {
    hide UniqueDigests, AllConsistent, SingleActive;
    RevokeKeepsConsistent(t, OfAccount(t, account), now);
    InsertKeepsConsistent(RevokeLive(t, OfAccount(t, account), now), n, account, expiresAt, detail);
    ReplaceKeepsSingle(t, n.id, NewRow(n.digest, account, expiresAt, detail), now);
  }

  lemma IssueResetKeeps(db: Db, op: Op)
    requires Invariant(db) && op.IssueResetOp? && AccountStep(db, op).Ok?
    ensures Invariant(AccountStep(db, op).value)
  {
    hide UniqueDigests, UniqueCurrent, UniqueTenants, UniqueCodes, UniqueEmails, UniqueActiveFactor;
    hide EntitiesSound, MembershipsSound, LoginsSound, SessionsSound, HandoffsSound, StepUpsSound, FactorsSound;
    hide InvitationsSound, RegistrySound, HoldersExist, AllConsistent, SingleActive;
    ReplaceActive(db.resets, op.n, AccountWithEmail(db.emails, op.email).value, Some(op.now + op.ttl as real), (), op.now);
  }

  /** Consuming a row and revoking the account's others leaves no active row of the account. */
  lemma ConsumeThenClear<X>(t: Table<X>, id: Id, now: Time)
    requires AllConsistent(t) && SingleActive(t) && id in t && Live(t[id])
    ensures var u := Consume(t, id, now);
            var v := RevokeLive(u, OfAccount(u, t[id].account) - {id}, now);
            AllConsistent(v) && SingleActive(v)
  {
    hide UniqueDigests, AllConsistent;
    ConsumeKeepsConsistent(t, id, now);
    RevokeKeepsConsistent(Consume(t, id, now), OfAccount(Consume(t, id, now), t[id].account) - {id}, now);
  }

  lemma ConsumeResetKeeps(db: Db, op: Op)
    requires Invariant(db) && op.ConsumeResetOp? && AccountStep(db, op).Ok?
    ensures Invariant(AccountStep(db, op).value)
  {
    hide UniqueDigests, UniqueCurrent, UniqueTenants, UniqueCodes, UniqueEmails, UniqueActiveFactor;
    hide EntitiesSound, MembershipsSound, LoginsSound, SessionsSound, HandoffsSound, StepUpsSound, FactorsSound;
    hide InvitationsSound, RegistrySound, HoldersExist, AllConsistent, SingleActive, ReplaceCredential;
    var id := Usable(db.resets, op.token, op.now).value;
    var account := db.resets[id].account;
    ConsumeThenClear(db.resets, id, op.now);
    var consumed := Consume(db.resets, id, op.now);
    ReplaceCredentialKeeps(db, account, RevokeLive(consumed, OfAccount(consumed, account) - {id}, op.now), op.now);
  }

  lemma BeginEnrollmentKeeps(db: Db, op: Op)
    requires Invariant(db) && op.BeginEnrollmentOp? && FactorStep(db, op).Ok?
    ensures Invariant(FactorStep(db, op).value)
  {
    hide UniqueDigests, UniqueCurrent, UniqueTenants, UniqueCodes, UniqueEmails, UniqueActiveFactor;
    hide EntitiesSound, MembershipsSound, LoginsSound, SessionsSound, HandoffsSound, StepUpsSound, FactorsSound;
    hide InvitationsSound, RegistrySound, HoldersExist, ChallengesSound;
    PendingKeeps(db.authenticators, db.accountSessions[op.id].account, op.authenticator, op.now);
  }

  lemma PendingKeeps(m: Authenticators, account: Id, id: Id, now: Time)
    requires FactorsSound(m) && ActiveAuthenticator(m, account).None?
    requires InsertPending(RevokePending(m, account, now), id, account).Ok?
    ensures FactorsSound(InsertPending(RevokePending(m, account, now), id, account).value)
  {
    hide UniqueActiveFactor, FactorsSound, RevokePending, ActiveAuthenticator;
    PendingRevoked(m, account, now);
    PendingInserted(RevokePending(m, account, now), account, id);
  }

  lemma PendingRevoked(m: Authenticators, account: Id, now: Time)
    requires FactorsSound(m) && ActiveAuthenticator(m, account).None?
    ensures var u := RevokePending(m, account, now);
            FactorsSound(u) && forall i :: i in u && u[i].account == account ==> u[i].status == FactorRevoked
  {
    hide UniqueActiveFactor, ActiveAuthenticator;
    var u := RevokePending(m, account, now);
    forall i | i in m
      ensures FactorSound(u[i]) && u[i].account == m[i].account
      ensures u[i].account == account ==> u[i].status == FactorRevoked
      ensures u[i].status != FactorRevoked ==> u[i] == m[i]
    {
      assert FactorSound(m[i]);
    }
    hide FactorSound, RevokePending;
    assert forall i, j :: i in u && j in u && BothKept(u[i], u[j]) ==> BothKept(m[i], m[j]);
  }

  lemma PendingInserted(m: Authenticators, account: Id, id: Id)
    requires FactorsSound(m) && id !in m && forall i :: i in m && m[i].account == account ==> m[i].status == FactorRevoked
    ensures FactorsSound(m[id := Authenticator(account, FactorPending, None, None)])
  {
    hide UniqueActiveFactor;
  }

  lemma CompleteEnrollmentKeeps(db: Db, op: Op)
    requires Invariant(db) && op.CompleteEnrollmentOp? && FactorStep(db, op).Ok?
    ensures Invariant(FactorStep(db, op).value)
  {
    hide UniqueDigests, UniqueCurrent, UniqueTenants, UniqueCodes, UniqueEmails, UniqueActiveFactor;
    hide EntitiesSound, MembershipsSound, LoginsSound, SessionsSound, HandoffsSound, StepUpsSound;
    hide InvitationsSound, RegistrySound, HoldersExist, AllConsistent, SingleActive, UseAttestation;
    var account := db.accountSessions[op.id].account;
    UseAttestationKeeps(db, account, op.id, op.authenticator, op.attestation, EnrollFactor, op.now);
    ActivationKeeps(db.authenticators, op.authenticator, op.now);
    hide FactorsSound;
  }

  lemma ActivationKeeps(m: Authenticators, id: Id, now: Time)
    requires FactorsSound(m) && id in m && m[id].status == FactorPending && ActivateFactor(m, id, now).Ok?
    ensures FactorsSound(ActivateFactor(m, id, now).value)
  {
    hide UniqueActiveFactor;
    var u := ActivateFactor(m, id, now).value;
    assert forall i, j :: i in u && j in u && BothKept(u[i], u[j]) ==> BothKept(m[i], m[j]);
  }

  lemma RecoveryTablesReplaced(db: Db, recoveryCodes: Table<()>, stepUps: Table<FactorDetail>)
    requires Invariant(db) && AllConsistent(recoveryCodes) && StepUpsSound(stepUps, db.accountSessions)
    ensures Invariant(db.(recoveryCodes := recoveryCodes, stepUps := stepUps))
  {
    hide UniqueDigests, UniqueCurrent, UniqueTenants, UniqueCodes, UniqueEmails, UniqueActiveFactor;
    hide EntitiesSound, MembershipsSound, LoginsSound, SessionsSound, HandoffsSound, StepUpsSound, FactorsSound;
    hide InvitationsSound, RegistrySound, HoldersExist, AllConsistent, SingleActive;
  }

  lemma RecoveryTablesAre(db: Db)
    requires Invariant(db)
    ensures AllConsistent(db.recoveryCodes) && StepUpsSound(db.stepUps, db.accountSessions)
  {
    hide UniqueDigests, UniqueCurrent, UniqueTenants, UniqueCodes, UniqueEmails, UniqueActiveFactor;
    hide StepUpsSound, AllConsistent;
  }

  lemma RecoveryCodesIssued(db: Db, op: Op)
    requires op.IssueRecoveryCodesOp? && FactorStep(db, op).Ok?
    ensures op.id in db.accountSessions
    ensures var account, u := db.accountSessions[op.id].account, FactorStep(db, op).value;
            var cleared := RevokeLive(db.recoveryCodes, OfAccount(db.recoveryCodes, account), op.now);
            && u == db.(recoveryCodes := u.recoveryCodes, stepUps := u.stepUps)
            && InsertCodes(cleared, op.codes, account) == Ok(u.recoveryCodes)
            && if HasCodes(db.recoveryCodes, account)
               then op.stepUp.Some? && UseStepUp(db, account, op.id, op.stepUp.value, RotateRecovery, op.now) == Ok(u.stepUps)
               else u.stepUps == db.stepUps
  {
    hide UniqueDigests, UniqueCurrent, UniqueTenants, UniqueCodes, UniqueEmails, UniqueActiveFactor;
    hide UseStepUp, InsertCodes, LoadAccountSession, HasCodes, RevokeLive, OfAccount, ActiveAuthenticator;
  }

  lemma IssueRecoveryCodesKeeps(db: Db, op: Op)
    requires Invariant(db) && op.IssueRecoveryCodesOp? && FactorStep(db, op).Ok?
    ensures Invariant(FactorStep(db, op).value)
  {
    hide UniqueDigests, UniqueCurrent, UniqueTenants, UniqueCodes, UniqueEmails, UniqueActiveFactor;
    hide Invariant, StepUpsSound, AllConsistent, UseStepUp, InsertCodes, HasCodes, RevokeLive, OfAccount, FactorStep;
    RecoveryTablesAre(db);
    RecoveryCodesIssued(db, op);
    var account := db.accountSessions[op.id].account;
    if HasCodes(db.recoveryCodes, account) { UseStepUpKeeps(db, account, op.id, op.stepUp.value, RotateRecovery, op.now); }
    var cleared := RevokeLive(db.recoveryCodes, OfAccount(db.recoveryCodes, account), op.now);
    RevokeKeepsConsistent(db.recoveryCodes, OfAccount(db.recoveryCodes, account), op.now);
    InsertCodesKeepsConsistent(cleared, op.codes, account);
    var u := FactorStep(db, op).value;
    RecoveryTablesReplaced(db, u.recoveryCodes, u.stepUps);
  }

  lemma ExchangeAttestationKeeps(db: Db, op: Op)
    requires Invariant(db) && op.ExchangeAttestationOp? && FactorStep(db, op).Ok?
    ensures Invariant(FactorStep(db, op).value)
  {
    hide UniqueDigests, UniqueCurrent, UniqueTenants, UniqueCodes, UniqueEmails, UniqueActiveFactor;
    hide EntitiesSound, MembershipsSound, LoginsSound, SessionsSound, HandoffsSound, StepUpsSound, FactorsSound;
    hide InvitationsSound, RegistrySound, HoldersExist, AllConsistent, SingleActive, UseAttestation, MintStepUp;
    var account := db.accountSessions[op.id].account;
    UseAttestationKeeps(db, account, op.id, op.authenticator, op.token, op.purpose, op.now);
    MintKeeps(db.stepUps, db.accountSessions, op.n, account, FactorDetail(op.id, op.authenticator, op.purpose), op.ttl, op.now);
  }

  lemma ExchangeRecoveryCodeKeeps(db: Db, op: Op)
    requires Invariant(db) && op.ExchangeRecoveryCodeOp? && FactorStep(db, op).Ok?
    ensures Invariant(FactorStep(db, op).value)
  {
    hide UniqueDigests, UniqueCurrent, UniqueTenants, UniqueCodes, UniqueEmails, UniqueActiveFactor;
    hide EntitiesSound, MembershipsSound, LoginsSound, SessionsSound, HandoffsSound, StepUpsSound, FactorsSound;
    hide InvitationsSound, RegistrySound, HoldersExist, AllConsistent, SingleActive, MintStepUp;
    var account := db.accountSessions[op.id].account;
    ConsumeKeepsConsistent(db.recoveryCodes, Usable(db.recoveryCodes, op.code, op.now).value, op.now);
    var factor := ActiveAuthenticator(db.authenticators, account).value;
    MintKeeps(db.stepUps, db.accountSessions, op.n, account, FactorDetail(op.id, factor, op.purpose), op.ttl, op.now);
  }

  lemma ConsumeStepUpKeeps(db: Db, op: Op)
    requires Invariant(db) && op.ConsumeStepUpOp? && FactorStep(db, op).Ok?
    ensures Invariant(FactorStep(db, op).value)
  {
    hide UniqueDigests, UniqueCurrent, UniqueTenants, UniqueCodes, UniqueEmails, UniqueActiveFactor;
    hide EntitiesSound, MembershipsSound, LoginsSound, SessionsSound, HandoffsSound, StepUpsSound, FactorsSound;
    hide InvitationsSound, RegistrySound, HoldersExist, ChallengesSound, UseStepUp;
    UseStepUpKeeps(db, db.accountSessions[op.id].account, op.id, op.token, op.purpose, op.now);
  }

  lemma RequestEmailChangeKeeps(db: Db, op: Op)
    requires Invariant(db) && op.RequestEmailChangeOp? && AccountStep(db, op).Ok?
    ensures Invariant(AccountStep(db, op).value)
  {
    hide UniqueDigests, UniqueCurrent, UniqueTenants, UniqueCodes, UniqueEmails, UniqueActiveFactor;
    hide EntitiesSound, MembershipsSound, LoginsSound, SessionsSound, HandoffsSound, StepUpsSound, FactorsSound;
    hide InvitationsSound, RegistrySound, HoldersExist, AllConsistent, SingleActive, GuardAction;
    var account := db.accountSessions[op.id].account;
    GuardKeeps(db, account, op.id, op.stepUp, ChangeEmail, op.now);
    ReplaceActive(db.emailChanges, op.n, account, Some(op.now + op.ttl as real), op.email, op.now);
  }

  lemma ConsumeEmailChangeKeeps(db: Db, op: Op)
    requires Invariant(db) && op.ConsumeEmailChangeOp? && AccountStep(db, op).Ok?
    ensures Invariant(AccountStep(db, op).value)
  {
    hide UniqueDigests, UniqueCurrent, UniqueTenants, UniqueCodes, UniqueEmails, UniqueActiveFactor;
    hide EntitiesSound, MembershipsSound, SessionsSound, HandoffsSound, StepUpsSound, FactorsSound;
    hide InvitationsSound, RegistrySound, HoldersExist, AllConsistent, SingleActive, EndAccountAuthority;
    var id := Usable(db.emailChanges, op.token, op.now).value;
    var row := db.emailChanges[id];
    ConsumeThenClear(db.emailChanges, id, op.now);
    var consumed := Consume(db.emailChanges, id, op.now);
    OnlyHolder(db.emails, row.detail, row.account);
    var u := db.(emails := ReplaceEmail(db.emails, row.account, row.detail, op.now),
                 emailChanges := RevokeLive(consumed, OfAccount(consumed, row.account) - {id}, op.now));
    forall i | i in u.accountSessions ensures LoginSound(u.accountSessions[i], u.accounts, u.credentials) {
      assert LoginSound(db.accountSessions[i], db.accounts, db.credentials);
    }
    EndAccountAuthorityKeeps(u, row.account, op.now);
  }

  lemma CreatePersonKeeps(db: Db, op: Op)
    requires Invariant(db) && (op.CreateIdentityOp? || op.CreateAccountOp?) && DefinitionStep(db, op).Ok?
    ensures Invariant(DefinitionStep(db, op).value)
  {
    hide UniqueDigests, UniqueCurrent, UniqueTenants, UniqueCodes, UniqueEmails, UniqueActiveFactor;
    hide MembershipsSound, LoginsSound, SessionsSound, HandoffsSound, StepUpsSound, FactorsSound;
    hide InvitationsSound, RegistrySound, HoldersExist, ChallengesSound, EntitiesSound, Grows;
    var u := DefinitionStep(db, op).value;
    AddOne(db.identities, db.accounts, db.credentials, db.organizations, db.tenants, op.id);
    if op.CreateAccountOp? {
      AddAccount(db.identities, db.accounts, db.credentials, db.organizations, db.tenants, op.identity, op.id);
    }
    Stays(db.accounts);
    Stays(db.credentials);
    LoginsGrow(db.accountSessions, db.accounts, db.credentials, u.accounts, u.credentials);
  }

  lemma CreateOrganizationKeeps(db: Db, op: Op)
    requires Invariant(db) && op.CreateOrganizationOp? && DefinitionStep(db, op).Ok?
    ensures Invariant(DefinitionStep(db, op).value)
  {
    hide UniqueDigests, UniqueCurrent, UniqueTenants, UniqueCodes, UniqueEmails, UniqueActiveFactor;
    hide MembershipsSound, LoginsSound, SessionsSound, HandoffsSound, StepUpsSound, FactorsSound;
    hide InvitationsSound, RegistrySound, HoldersExist, ChallengesSound, EntitiesSound, Grows;
    AddOrganization(db.identities, db.accounts, db.credentials, db.organizations, db.tenants, op.id, op.tenant);
    Stays(db.accountSessions);
    Stays(db.memberships);
    var u := DefinitionStep(db, op).value;
    SessionsGrow(db.sessions, db.accountSessions, db.accountSessions, db.memberships, db.memberships, db.organizations,
                 u.organizations, db.tenants, u.tenants);
  }

  /** Definitions are only added, so invitations keep naming existing ones. */
  lemma InvitationsKeep(m: Invitations, roles: Definitions, entitlements: Definitions, roles': Definitions,
                        entitlements': Definitions)
    requires InvitationsSound(m, roles, entitlements) && roles.Keys <= roles'.Keys && entitlements.Keys <= entitlements'.Keys
    ensures InvitationsSound(m, roles', entitlements')
  {
    hide UniqueCodes;
    forall id | id in m ensures InvitationSound(m[id], roles', entitlements') {
      assert InvitationSound(m[id], roles, entitlements);
    }
  }

  /** Replacing the definition tables alone. */
  lemma RegistryReplaced(db: Db, registry: Registry)
    requires Invariant(db) && RegistrySound(registry)
    requires registry.assignments == db.registry.assignments && registry.grants == db.registry.grants
    requires db.registry.roles.Keys <= registry.roles.Keys && db.registry.entitlements.Keys <= registry.entitlements.Keys
    ensures Invariant(db.(registry := registry))
  {
    hide UniqueDigests, UniqueCurrent, UniqueTenants, UniqueCodes, UniqueEmails, UniqueActiveFactor;
    hide EntitiesSound, MembershipsSound, LoginsSound, SessionsSound, HandoffsSound, StepUpsSound, FactorsSound;
    hide ChallengesSound, InvitationsSound, RegistrySound;
    InvitationsKeep(db.invitations, db.registry.roles, db.registry.entitlements, registry.roles, registry.entitlements);
  }

  lemma RegistryIs(db: Db)
    requires Invariant(db)
    ensures RegistrySound(db.registry)
  {
    hide UniqueDigests, UniqueCurrent, UniqueTenants, UniqueCodes, UniqueEmails, UniqueActiveFactor, RegistrySound;
  }

  lemma DefineKeeps(db: Db, op: Op)
    requires Invariant(db) && (op.DefineRoleOp? || op.DefineEntitlementOp? || op.DefinePolicyOp?)
    requires DefinitionStep(db, op).Ok?
    ensures Invariant(DefinitionStep(db, op).value)
  {
    hide Invariant, RegistrySound;
    RegistryIs(db);
    DefinedKeeps(db.registry, op.ref);
    RegistryReplaced(db, DefinitionStep(db, op).value.registry);
  }

  lemma DefineAdapterKeeps(db: Db, op: Op)
    requires Invariant(db) && (op.DefineAdapterOp? || op.DefineOperationOp?) && DefinitionStep(db, op).Ok?
    ensures Invariant(DefinitionStep(db, op).value)
  {
    hide Invariant, RegistrySound;
    RegistryIs(db);
    if op.DefineAdapterOp? {
      AddAdapterKeeps(db.registry, op.id, op.name);
    } else {
      AddOperationKeeps(db.registry, op.id, op.adapter, op.name);
    }
    RegistryReplaced(db, DefinitionStep(db, op).value.registry);
  }

  lemma IssueInvitationKeeps(db: Db, op: Op)
    requires Invariant(db) && op.IssueInvitationOp? && MembershipStep(db, op).Ok?
    ensures Invariant(MembershipStep(db, op).value)
  {
    hide UniqueDigests, UniqueCurrent, UniqueTenants, UniqueCodes, UniqueEmails, UniqueActiveFactor;
    hide EntitiesSound, MembershipsSound, LoginsSound, SessionsSound, HandoffsSound, StepUpsSound, FactorsSound;
    hide ChallengesSound, RegistrySound, HoldersExist;
  }

  lemma InvitationUsed(m: Invitations, roles: Definitions, entitlements: Definitions, id: Id)
    requires InvitationsSound(m, roles, entitlements) && id in m && m[id].active
    requires NoRepeats(m[id].roles) && NoRepeats(m[id].entitlements)
    ensures InvitationsSound(UseInvitation(m, id), roles, entitlements)
  {
    hide UniqueCodes, NoRepeats;
  }

  /** Filling the holdings of a new membership with existing definitions works iff none is repeated. */
  lemma FillsIff(g: Registry, members: set<Id>, membership: Id, row: Invitation)
    requires HoldersExist(g, members) && membership !in members && InvitationSound(row, g.roles, g.entitlements)
    ensures AddHoldings(g.assignments, g.roles, membership, row.roles).Ok? <==> NoRepeats(row.roles)
    ensures AddHoldings(g.grants, g.entitlements, membership, row.entitlements).Ok? <==> NoRepeats(row.entitlements)
  {
    hide NoRepeats, AddHoldings;
    AddHoldingsIff(g.assignments, g.roles, membership, row.roles);
    AddHoldingsIff(g.grants, g.entitlements, membership, row.entitlements);
  }

  lemma OneInvitation(m: Invitations, roles: Definitions, entitlements: Definitions, id: Id)
    requires InvitationsSound(m, roles, entitlements) && id in m
    ensures InvitationSound(m[id], roles, entitlements)
  {
    hide UniqueCodes, InvitationSound;
  }

  /** Filling the holdings of a membership that is being added. */
  lemma HoldingsFilled(g: Registry, members: set<Id>, membership: Id, roles: seq<DefinitionRef>,
                       entitlements: seq<DefinitionRef>)
    requires RegistrySound(g) && HoldersExist(g, members)
    requires AddHoldings(g.assignments, g.roles, membership, roles).Ok?
    requires AddHoldings(g.grants, g.entitlements, membership, entitlements).Ok?
    ensures var u := g.(assignments := AddHoldings(g.assignments, g.roles, membership, roles).value,
                        grants := AddHoldings(g.grants, g.entitlements, membership, entitlements).value);
            RegistrySound(u) && HoldersExist(u, members + {membership})
  {
    hide AddHoldings, RegistrySound, HoldingsSound;
    RegistryParts(g);
    AddHoldingsKeeps(g.assignments, g.roles, membership, roles);
    AddHoldingsKeeps(g.grants, g.entitlements, membership, entitlements);
    AddHoldingsAdds(g.assignments, g.roles, membership, roles);
    AddHoldingsAdds(g.grants, g.entitlements, membership, entitlements);
    HoldingsGrowKeeps(g, AddHoldings(g.assignments, g.roles, membership, roles).value,
                      AddHoldings(g.grants, g.entitlements, membership, entitlements).value);
  }

  lemma RegistryParts(g: Registry)
    requires RegistrySound(g)
    ensures HoldingsSound(g.assignments, g.roles) && HoldingsSound(g.grants, g.entitlements)
  {
    hide HoldingsSound, BindingsSound, DefinitionsSound;
  }

  lemma RedeemInvitationKeeps(db: Db, op: Op)
    requires Invariant(db) && op.RedeemInvitationOp? && MembershipStep(db, op).Ok?
    ensures Invariant(MembershipStep(db, op).value)
  {
    hide UniqueDigests, UniqueCurrent, UniqueTenants, UniqueCodes, UniqueEmails, UniqueActiveFactor;
    hide EntitiesSound, LoginsSound, SessionsSound, HandoffsSound, StepUpsSound, FactorsSound, ChallengesSound;
    hide InvitationsSound, InvitationSound, RegistrySound, HoldersExist, AddHoldings, NoRepeats;
    var u := MembershipStep(db, op).value;
    SessionsGrow(db.sessions, db.accountSessions, db.accountSessions, db.memberships, u.memberships, db.organizations,
                 db.organizations, db.tenants, db.tenants);
    var id := InvitationWithCode(db.invitations, op.code).value;
    OneInvitation(db.invitations, db.registry.roles, db.registry.entitlements, id);
    FillsIff(db.registry, db.memberships.Keys, op.membership, db.invitations[id]);
    InvitationUsed(db.invitations, db.registry.roles, db.registry.entitlements, id);
    HoldingsFilled(db.registry, db.memberships.Keys, op.membership, db.invitations[id].roles, db.invitations[id].entitlements);
    assert u.memberships.Keys == db.memberships.Keys + {op.membership};
  }

  lemma GrantAdapterKeeps(db: Db, op: Op)
    requires Invariant(db) && op.GrantAdapterOp? && MembershipStep(db, op).Ok?
    ensures Invariant(MembershipStep(db, op).value)
  {
    hide UniqueDigests, UniqueCurrent, UniqueTenants, UniqueCodes, UniqueEmails, UniqueActiveFactor;
    hide EntitiesSound, LoginsSound, HandoffsSound, StepUpsSound, FactorsSound, ChallengesSound, InvitationsSound;
    hide RegistrySound, SessionsSound;
    var u := MembershipStep(db, op).value;
    SessionsBumped(db.sessions, db.accountSessions, db.memberships, db.organizations, db.tenants, op.binding.membership);
    AddBindingKeeps(db.registry, op.id, op.binding.(active := true));
    assert u.memberships.Keys == db.memberships.Keys;
  }

  lemma SessionsBumped(t: Table<SessionDetail>, parents: Table<LoginDetail>, m: Memberships, o: map<Id, bool>, tenants: Tenants,
                       membership: Id)
    requires SessionsSound(t, parents, m, o, tenants) && membership in m
    ensures SessionsSound(t, parents, BumpAuthorization(m, membership), o, tenants)
  {
    hide UniqueDigests, UniqueCurrent, UniqueTenants;
    forall id | id in t ensures SessionSound(t[id], parents, BumpAuthorization(m, membership), o, tenants) {
      assert SessionSound(t[id], parents, m, o, tenants);
    }
  }

  lemma InsertedSession(t: Table<SessionDetail>, id: Id, row: Row<SessionDetail>, parents: Table<LoginDetail>,
                        m: Memberships, o: map<Id, bool>, tenants: Tenants)
    requires SessionsSound(t, parents, m, o, tenants) && SessionSound(row, parents, m, o, tenants) && Insert(t, id, row).Ok?
    ensures SessionsSound(Insert(t, id, row).value, parents, m, o, tenants) && Grows(t, Insert(t, id, row).value)
  {
    hide UniqueDigests, UniqueCurrent, UniqueTenants, SessionSound;
  }

  lemma DeriveSessionKeeps(db: Db, op: Op)
    requires Invariant(db) && op.DeriveSessionOp? && MembershipStep(db, op).Ok?
    ensures Invariant(MembershipStep(db, op).value)
  {
    hide UniqueDigests, UniqueCurrent, UniqueTenants, UniqueCodes, UniqueEmails, UniqueActiveFactor;
    hide SessionsSound, HandoffsSound, StepUpsSound, FactorsSound, ChallengesSound, InvitationsSound, RegistrySound, HoldersExist, Grows;
    var u := MembershipStep(db, op).value;
    var row := u.sessions[op.n.id];
    assert LoginSound(db.accountSessions[op.id], db.accounts, db.credentials);
    assert SessionSound(row, db.accountSessions, db.memberships, db.organizations, db.tenants);
    InsertedSession(db.sessions, op.n.id, row, db.accountSessions, db.memberships, db.organizations, db.tenants);
    HandoffsGrow(db.handoffs, db.sessions, u.sessions);
  }

  lemma EndMembershipKeeps(db: Db, op: Op)
    requires Invariant(db) && op.EndMembershipOp? && MembershipStep(db, op).Ok?
    ensures Invariant(MembershipStep(db, op).value)
  {
    hide UniqueDigests, UniqueCurrent, UniqueTenants, UniqueCodes, UniqueEmails, UniqueActiveFactor;
    hide EntitiesSound, LoginsSound, HandoffsSound, StepUpsSound, FactorsSound, ChallengesSound, InvitationsSound, RegistrySound, HoldersExist;
    hide OnlyEnded, SessionLinked;
    var u := MembershipStep(db, op).value;
    SessionsLeave(db.sessions, db.accountSessions, db.memberships, db.organizations, db.tenants, op.id, op.status, op.now);
    RevokeOnlyEnds(db.sessions, InMembership(db.sessions, op.id), op.now);
    assert u.memberships.Keys == db.memberships.Keys;
    HandoffsStayBacked(db.handoffs, db.sessions, u.sessions, InMembership(db.sessions, op.id), op.now);
  }

  lemma SessionsLeave(t: Table<SessionDetail>, parents: Table<LoginDetail>, m: Memberships, o: map<Id, bool>, tenants: Tenants,
                      membership: Id, status: EndingStatus, now: Time)
    requires SessionsSound(t, parents, m, o, tenants) && membership in m && Current(m[membership])
    ensures AllConsistent(t)
    ensures SessionsSound(RevokeLive(t, InMembership(t, membership), now), parents, SetMembership(m, membership, status), o, tenants)
  {
    hide UniqueDigests, UniqueCurrent, UniqueTenants;
    var u := RevokeLive(t, InMembership(t, membership), now);
    forall id | id in t
      ensures Consistent(t[id]) && SessionSound(u[id], parents, SetMembership(m, membership, status), o, tenants)
    {
      assert SessionSound(t[id], parents, m, o, tenants);
    }
  }

  lemma IssueHandoffKeeps(db: Db, op: Op)
    requires Invariant(db) && op.IssueHandoffOp? && MembershipStep(db, op).Ok?
    ensures Invariant(MembershipStep(db, op).value)
  {
    hide UniqueDigests, UniqueCurrent, UniqueTenants, UniqueCodes, UniqueEmails, UniqueActiveFactor;
    hide EntitiesSound, LoginsSound, SessionsSound, StepUpsSound, FactorsSound, ChallengesSound, InvitationsSound, RegistrySound, HoldersExist;
    hide Authenticate, MembershipsSound;
    var u := MembershipStep(db, op).value;
    forall id | id in u.handoffs ensures HandoffSound(u.handoffs[id], db.sessions) {
      assert id != op.n.id ==> HandoffSound(db.handoffs[id], db.sessions);
    }
  }

  lemma HandoffStatusKeeps(t: Table<HandoffDetail>, sessions: Table<SessionDetail>, id: Id, now: Time)
    requires HandoffsSound(t, sessions) && id in t && Live(t[id])
    ensures HandoffsSound(Consume(t, id, now), sessions) && HandoffsSound(RevokeLive(t, {id}, now), sessions)
  {
    hide UniqueDigests;
    forall i | i in t
      ensures HandoffSound(Consume(t, id, now)[i], sessions) && HandoffSound(RevokeLive(t, {id}, now)[i], sessions)
    {
      assert HandoffSound(t[i], sessions);
    }
  }

  lemma SettleHandoffKeeps(db: Db, op: Op)
    requires Invariant(db) && (op.ConsumeHandoffOp? || op.RevokeHandoffOp?) && MembershipStep(db, op).Ok?
    ensures Invariant(MembershipStep(db, op).value)
  {
    hide UniqueDigests, UniqueCurrent, UniqueTenants, UniqueCodes, UniqueEmails, UniqueActiveFactor;
    hide EntitiesSound, LoginsSound, SessionsSound, StepUpsSound, FactorsSound, ChallengesSound, InvitationsSound, RegistrySound, HoldersExist;
    hide HandoffGraph, MembershipsSound, HandoffsSound;
    var id := if op.RevokeHandoffOp? then op.id else Usable(db.handoffs, op.token, op.now).value;
    HandoffStatusKeeps(db.handoffs, db.sessions, id, op.now);
  }

  lemma FileAttestationKeeps(db: Db, op: Op)
    requires Invariant(db) && op.FileAttestationOp? && FactorStep(db, op).Ok?
    ensures Invariant(FactorStep(db, op).value)
  {
    hide UniqueDigests, UniqueCurrent, UniqueTenants, UniqueCodes, UniqueEmails, UniqueActiveFactor;
    hide EntitiesSound, LoginsSound, SessionsSound, StepUpsSound, FactorsSound, HandoffsSound, InvitationsSound, RegistrySound, HoldersExist;
    hide AllConsistent, SingleActive, MembershipsSound;
    InsertKeepsConsistent(db.attestations, op.n, op.account, Some(op.expiresAt), op.detail);
  }

  lemma AccountStepKeeps(db: Db, op: Op)
    requires Invariant(db) && AboutAccounts(op) && AccountStep(db, op).Ok?
    ensures Invariant(AccountStep(db, op).value)
  {
    hide Invariant, AccountStep;
    match op
    case SignupOp(_, _, _, _, _, _) => SignupKeeps(db, op);
    case VerifyEmailOp(_, _) => VerifyEmailKeeps(db, op);
    case LoginOp(_, _, _, _, _) => LoginKeeps(db, op);
    case SignoutOp(_, _, _, _) => SignoutKeeps(db, op);
    case ReplacePasswordOp(_, _, _, _, _, _, _, _) => ReplacePasswordKeeps(db, op);
    case IssueResetOp(_, _, _, _) => IssueResetKeeps(db, op);
    case ConsumeResetOp(_, _, _, _) => ConsumeResetKeeps(db, op);
    case RequestEmailChangeOp(_, _, _, _, _, _, _, _, _) => RequestEmailChangeKeeps(db, op);
    case ConsumeEmailChangeOp(_, _) => ConsumeEmailChangeKeeps(db, op);
  }

  lemma FactorStepKeeps(db: Db, op: Op)
    requires Invariant(db) && AboutFactors(op) && FactorStep(db, op).Ok?
    ensures Invariant(FactorStep(db, op).value)
  {
    hide Invariant, FactorStep;
    match op
    case BeginEnrollmentOp(_, _, _, _, _, _) => BeginEnrollmentKeeps(db, op);
    case CompleteEnrollmentOp(_, _, _, _, _, _) => CompleteEnrollmentKeeps(db, op);
    case IssueRecoveryCodesOp(_, _, _, _, _, _) => IssueRecoveryCodesKeeps(db, op);
    case ExchangeAttestationOp(_, _, _, _, _, _, _, _, _) => ExchangeAttestationKeeps(db, op);
    case ExchangeRecoveryCodeOp(_, _, _, _, _, _, _, _) => ExchangeRecoveryCodeKeeps(db, op);
    case ConsumeStepUpOp(_, _, _, _, _, _) => ConsumeStepUpKeeps(db, op);
    case FileAttestationOp(_, _, _, _) => FileAttestationKeeps(db, op);
  }

  lemma DefinitionStepKeeps(db: Db, op: Op)
    requires Invariant(db) && AboutDefinitions(op) && DefinitionStep(db, op).Ok?
    ensures Invariant(DefinitionStep(db, op).value)
  {
    hide Invariant, DefinitionStep;
    match op
    case CreateIdentityOp(_) => CreatePersonKeeps(db, op);
    case CreateAccountOp(_, _) => CreatePersonKeeps(db, op);
    case CreateOrganizationOp(_, _) => CreateOrganizationKeeps(db, op);
    case DefineRoleOp(_) => DefineKeeps(db, op);
    case DefineEntitlementOp(_) => DefineKeeps(db, op);
    case DefinePolicyOp(_) => DefineKeeps(db, op);
    case DefineAdapterOp(_, _) => DefineAdapterKeeps(db, op);
    case DefineOperationOp(_, _, _) => DefineAdapterKeeps(db, op);
  }

  lemma MembershipStepKeeps(db: Db, op: Op)
    requires Invariant(db) && AboutMemberships(op) && MembershipStep(db, op).Ok?
    ensures Invariant(MembershipStep(db, op).value)
  {
    hide Invariant, MembershipStep;
    if op.IssueInvitationOp? {
      IssueInvitationKeeps(db, op);
    } else if op.RedeemInvitationOp? {
      RedeemInvitationKeeps(db, op);
    } else if op.GrantAdapterOp? {
      GrantAdapterKeeps(db, op);
    } else if op.EndMembershipOp? {
      EndMembershipKeeps(db, op);
    } else if op.DeriveSessionOp? {
      DeriveSessionKeeps(db, op);
    } else if op.IssueHandoffOp? {
      IssueHandoffKeeps(db, op);
    } else if op.ConsumeHandoffOp? {
      SettleHandoffKeeps(db, op);
    } else {
      SettleHandoffKeeps(db, op);
    }
  }

  lemma StepKeeps(db: Db, op: Op)
    requires Invariant(db) && Step(db, op).Ok?
    ensures Invariant(Step(db, op).value)
  {
    hide Invariant, AccountStep, FactorStep, DefinitionStep, MembershipStep;
    if AboutAccounts(op) {
      AccountStepKeeps(db, op);
    } else if AboutFactors(op) {
      FactorStepKeeps(db, op);
    } else if AboutDefinitions(op) {
      DefinitionStepKeeps(db, op);
    } else {
      MembershipStepKeeps(db, op);
    }
  }

  /** The invariant holds after every run from the empty store. */
  lemma {:induction false} RunKeeps(ops: seq<Op>)
    ensures Invariant(After(EMPTY, ops))
    decreases |ops|
  {
    hide Invariant, Step;
    if ops == [] {
      EmptyIsSound();
    } else {
      var n := |ops| - 1;
      RunKeeps(ops[..n]);
      if Step(After(EMPTY, ops[..n]), ops[n]).Ok? { StepKeeps(After(EMPTY, ops[..n]), ops[n]); }
    }
  }
}
