/** The predecessor's session and authority store as a transition system (store.py): each public
    method is one atomic step under the store's lock that either commits its whole effect or, on
    any refusal, changes nothing. */
module StoreSpec {
  import opened Wrappers
  import opened StoreTables
  import opened StoreRegistry

  // ----- rows

  datatype Account = Account(identity: Id, active: bool)
  datatype EmailRow = EmailRow(email: string, verifiedAt: Option<Time>, active: bool)
  datatype Credential = Credential(revision: int, active: bool)
  datatype Tenant = Tenant(organization: Id, active: bool)

  datatype FactorStatus = FactorPending | FactorActive | FactorRevoked
  datatype Authenticator = Authenticator(
    account: Id, status: FactorStatus, verifiedAt: Option<Time>, revokedAt: Option<Time>)

  datatype MembershipStatus = MembershipActive | MembershipSuspended | MembershipLeft | MembershipRevoked
  type EndingStatus = s: MembershipStatus | s != MembershipActive witness MembershipSuspended
  datatype Membership = Membership(
    identity: Id, organization: Id, status: MembershipStatus, authorizationVersion: int, entitlementVersion: int)

  datatype Invitation = Invitation(
    code: Digest, organization: Id, tenant: Id, roles: seq<DefinitionRef>, entitlements: seq<DefinitionRef>,
    expiresAt: Time, maximumUses: int, consumedUses: int, active: bool)

  datatype Purpose = EnrollFactor | RotateRecovery | ChangePassword | ChangeEmail | UnknownPurpose

  datatype LoginDetail = LoginDetail(identity: Id, credentialRevision: int)
  datatype SessionDetail = SessionDetail(
    identity: Id, membership: Id, organization: Id, tenant: Id, accountSession: Id, authorizationVersion: int,
    entitlementVersion: int, credentialRevision: int)
  datatype HandoffDetail = HandoffDetail(
    consumer: string, identity: Id, membership: Id, organization: Id, tenant: Id, sourceSession: Id,
    authorizationVersion: int, entitlementVersion: int)
  datatype FactorDetail = FactorDetail(accountSession: Id, authenticator: Id, purpose: Purpose)

  // ----- tables with their UNIQUE constraints

  predicate UniqueEmails(m: map<Id, EmailRow>) {
    forall i, j :: i in m && j in m && m[i].email == m[j].email ==> i == j
  }
  type Emails = m: map<Id, EmailRow> | UniqueEmails(m) witness map[]

  predicate Current(m: Membership) { m.status == MembershipActive || m.status == MembershipSuspended }

  predicate SamePlace(a: Membership, b: Membership) {
    Current(a) && Current(b) && a.identity == b.identity && a.organization == b.organization
  }

  predicate UniqueCurrent(m: map<Id, Membership>) {
    forall i, j :: i in m && j in m && SamePlace(m[i], m[j]) ==> i == j
  }
  type Memberships = m: map<Id, Membership> | UniqueCurrent(m) witness map[]

  predicate UniqueTenants(m: map<Id, Tenant>) {
    forall i, j :: i in m && j in m && m[i].organization == m[j].organization ==> i == j
  }
  type Tenants = m: map<Id, Tenant> | UniqueTenants(m) witness map[]

  predicate UniqueActiveFactor(m: map<Id, Authenticator>) {
    forall i, j :: i in m && j in m && m[i].status == m[j].status == FactorActive && m[i].account == m[j].account ==> i == j
  }
  type Authenticators = m: map<Id, Authenticator> | UniqueActiveFactor(m) witness map[]

  predicate UniqueCodes(m: map<Id, Invitation>) {
    forall i, j :: i in m && j in m && m[i].code == m[j].code ==> i == j
  }
  type Invitations = m: map<Id, Invitation> | UniqueCodes(m) witness map[]

  datatype Db = Db(
    identities: map<Id, bool>, accounts: map<Id, Account>, emails: Emails, credentials: map<Id, Credential>,
    organizations: map<Id, bool>, tenants: Tenants, memberships: Memberships, invitations: Invitations,
    authenticators: Authenticators, verifications: Table<()>, resets: Table<()>, emailChanges: Table<string>,
    recoveryCodes: Table<()>, attestations: Table<FactorDetail>, stepUps: Table<FactorDetail>,
    accountSessions: Table<LoginDetail>, sessions: Table<SessionDetail>, handoffs: Table<HandoffDetail>,
    registry: Registry)

  const EMPTY: Db := Db(map[], map[], map[], map[], map[], map[], map[], map[], map[], map[], map[], map[], map[],
                        map[], map[], map[], map[], map[], NO_DEFINITIONS)

  // ----- lookups

  predicate ActiveIn(m: map<Id, bool>, id: Id) { id in m && m[id] }

  predicate AccountLive(db: Db, account: Id) { account in db.accounts && db.accounts[account].active }

  predicate CredentialLive(db: Db, account: Id) { account in db.credentials && db.credentials[account].active }

  function AccountWithEmail(m: Emails, email: string): (r: Option<Id>)
    ensures r.Some? ==> r.value in m && m[r.value].email == email
    ensures r.None? ==> forall id :: id in m ==> m[id].email != email
  {
    if exists id :: id in m && m[id].email == email then
      var id :| id in m && m[id].email == email;
      Some(id)
    else None
  }

  predicate Verified(e: EmailRow) { e.active && e.verifiedAt.Some? }

  function CurrentMembership(m: Memberships, identity: Id, organization: Id): (r: Option<Id>)
    ensures r.Some? ==> r.value in m && Current(m[r.value]) && m[r.value].identity == identity
                        && m[r.value].organization == organization
    ensures r.None? ==> forall id :: id in m && Current(m[id]) && m[id].identity == identity ==> m[id].organization != organization
  {
    if exists id :: id in m && Current(m[id]) && m[id].identity == identity && m[id].organization == organization then
      var id :| id in m && Current(m[id]) && m[id].identity == identity && m[id].organization == organization;
      Some(id)
    else None
  }

  function TenantOf(m: Tenants, organization: Id): (r: Option<Id>)
    ensures r.Some? ==> r.value in m && m[r.value].organization == organization
    ensures r.None? ==> forall id :: id in m ==> m[id].organization != organization
  {
    if exists id :: id in m && m[id].organization == organization then
      var id :| id in m && m[id].organization == organization;
      Some(id)
    else None
  }

  /** `_active_mfa_authenticator`. */
  function ActiveAuthenticator(m: Authenticators, account: Id): (r: Option<Id>)
    ensures r.Some? ==> r.value in m && m[r.value].status == FactorActive && m[r.value].account == account
    ensures r.None? ==> forall id :: id in m && m[id].account == account && m[id].verifiedAt.Some? && m[id].revokedAt.None? ==>
                          m[id].status != FactorActive
  {
    if exists id :: id in m && m[id].account == account && m[id].status == FactorActive && m[id].verifiedAt.Some?
                    && m[id].revokedAt.None? then
      var id :| id in m && m[id].account == account && m[id].status == FactorActive && m[id].verifiedAt.Some?
                && m[id].revokedAt.None?;
      Some(id)
    else None
  }

  function InvitationWithCode(m: Invitations, code: Digest): (r: Option<Id>)
    ensures r.Some? ==> r.value in m && m[r.value].code == code
    ensures r.None? ==> forall id :: id in m ==> m[id].code != code
  {
    if exists id :: id in m && m[id].code == code then
      var id :| id in m && m[id].code == code;
      Some(id)
    else None
  }

  // ----- single-row statements on the other tables

  function InsertEmail(m: Emails, account: Id, row: EmailRow): (r: Refusable<Emails>)
    ensures r.Ok? <==> account !in m && AccountWithEmail(m, row.email).None?
    ensures r.Ok? ==> r.value == m[account := row]
  {
    if account in m || AccountWithEmail(m, row.email).Some? then Err(IntegrityFailure)
    else
      assert UniqueEmails(m[account := row]);
      Ok(m[account := row])
  }

  function ConfirmEmail(m: Emails, account: Id, now: Time): (u: Emails)
    requires account in m
    ensures u == m[account := EmailRow(m[account].email, Some(now), true)]
  {
    var u := m[account := EmailRow(m[account].email, Some(now), true)];
    assert UniqueEmails(u);
    u
  }

  function ReplaceEmail(m: Emails, account: Id, email: string, now: Time): (u: Emails)
    requires account in m && (forall id :: id in m && m[id].email == email ==> id == account)
    ensures u == m[account := EmailRow(email, Some(now), true)]
  {
    var u := m[account := EmailRow(email, Some(now), true)];
    assert UniqueEmails(u);
    u
  }

  function InsertTenant(m: Tenants, id: Id, organization: Id): (r: Refusable<Tenants>)
    ensures r.Ok? <==> id !in m && TenantOf(m, organization).None?
    ensures r.Ok? ==> r.value == m[id := Tenant(organization, true)]
  {
    if id in m || TenantOf(m, organization).Some? then Err(IntegrityFailure)
    else
      assert UniqueTenants(m[id := Tenant(organization, true)]);
      Ok(m[id := Tenant(organization, true)])
  }

  function InsertMembership(m: Memberships, id: Id, identity: Id, organization: Id): (r: Refusable<Memberships>)
    ensures r.Ok? <==> id !in m && CurrentMembership(m, identity, organization).None?
    ensures r.Ok? ==> r.value == m[id := Membership(identity, organization, MembershipActive, 1, 1)]
  {
    if id in m || CurrentMembership(m, identity, organization).Some? then Err(IntegrityFailure)
    else
      var u := m[id := Membership(identity, organization, MembershipActive, 1, 1)];
      assert UniqueCurrent(u);
      Ok(u)
  }

  function SetMembership(m: Memberships, id: Id, status: MembershipStatus): (u: Memberships)
    requires id in m && Current(m[id])
    ensures u == m[id := m[id].(status := status, authorizationVersion := m[id].authorizationVersion + 1)]
  {
    var u := m[id := m[id].(status := status, authorizationVersion := m[id].authorizationVersion + 1)];
    assert UniqueCurrent(u);
    u
  }

  function BumpAuthorization(m: Memberships, id: Id): (u: Memberships)
    requires id in m
    ensures u == m[id := m[id].(authorizationVersion := m[id].authorizationVersion + 1)]
  {
    var u := m[id := m[id].(authorizationVersion := m[id].authorizationVersion + 1)];
    assert UniqueCurrent(u);
    u
  }

  function InsertInvitation(m: Invitations, id: Id, row: Invitation): (r: Refusable<Invitations>)
    ensures r.Ok? <==> id !in m && InvitationWithCode(m, row.code).None?
    ensures r.Ok? ==> r.value == m[id := row]
  {
    if id in m || InvitationWithCode(m, row.code).Some? then Err(IntegrityFailure)
    else
      assert UniqueCodes(m[id := row]);
      Ok(m[id := row])
  }

  function UseInvitation(m: Invitations, id: Id): (u: Invitations)
    requires id in m
    ensures u == m[id := m[id].(consumedUses := m[id].consumedUses + 1, active := false)]
  {
    var u := m[id := m[id].(consumedUses := m[id].consumedUses + 1, active := false)];
    assert UniqueCodes(u);
    u
  }

  /** UPDATE revoking the pending authenticators of an account. */
  function RevokePending(m: Authenticators, account: Id, now: Time): (u: Authenticators)
    ensures u.Keys == m.Keys
    ensures forall id :: id in m ==>
              u[id] == if m[id].account == account && m[id].status == FactorPending && m[id].revokedAt.None?
                       then m[id].(status := FactorRevoked, revokedAt := Some(now)) else m[id]
  {
    var u := map id | id in m ::
      if m[id].account == account && m[id].status == FactorPending && m[id].revokedAt.None?
      then m[id].(status := FactorRevoked, revokedAt := Some(now)) else m[id];
    assert UniqueActiveFactor(u);
    u
  }

  function InsertPending(m: Authenticators, id: Id, account: Id): (r: Refusable<Authenticators>)
    ensures r.Ok? <==> id !in m
    ensures r.Ok? ==> r.value == m[id := Authenticator(account, FactorPending, None, None)]
  {
    if id in m then Err(IntegrityFailure)
    else
      var u := m[id := Authenticator(account, FactorPending, None, None)];
      assert UniqueActiveFactor(u);
      Ok(u)
  }

  predicate HasActiveFactor(m: Authenticators, account: Id) {
    exists id :: id in m && m[id].account == account && m[id].status == FactorActive
  }

  /** UPDATE making a pending authenticator active, unless the partial UNIQUE index refuses. */
  function ActivateFactor(m: Authenticators, id: Id, now: Time): (r: Refusable<Authenticators>)
    requires id in m && m[id].status == FactorPending
    ensures r.Ok? <==> !HasActiveFactor(m, m[id].account)
    ensures r.Ok? ==> r.value == m[id := m[id].(status := FactorActive, verifiedAt := Some(now))]
  {
    if HasActiveFactor(m, m[id].account) then Err(IntegrityFailure)
    else
      var u := m[id := m[id].(status := FactorActive, verifiedAt := Some(now))];
      assert UniqueActiveFactor(u);
      Ok(u)
  }

  function BumpRevision(m: map<Id, Credential>, account: Id): map<Id, Credential>
    requires account in m
  {
    m[account := m[account].(revision := m[account].revision + 1)]
  }

  // ----- shared steps

  /** `_load_account_session`. */
  function LoadAccountSession(db: Db, bearer: Digest, id: Id, now: Time): (r: Refusable<Row<LoginDetail>>)
    ensures r.Ok? ==> id in db.accountSessions && r.value == db.accountSessions[id] && r.value.status == Active
                      && r.value.account in db.credentials && r.value.account in db.accounts
                      && r.value.detail.credentialRevision == db.credentials[r.value.account].revision
  {
    var _ :- Check(id in db.accountSessions, Unauthorized);
    var row := db.accountSessions[id];
    var _ :- Check(
      && row.digest == bearer && row.status == Active && row.revokedAt.None? && CredentialLive(db, row.account)
      && AccountLive(db, row.account) && ActiveIn(db.identities, row.detail.identity), Unauthorized);
    var _ :- Check(!Past(row, now), SessionExpired);
    var _ :- Check(row.detail.credentialRevision == db.credentials[row.account].revision, RevisionStale);
    Ok(row)
  }

  function LiveSessionsOf(t: Table<LoginDetail>, account: Id): (ids: set<Id>)
    ensures forall id :: id in ids <==> id in t && t[id].account == account && t[id].status == Active && t[id].revokedAt.None?
  {
    set id | id in t && t[id].account == account && t[id].status == Active && t[id].revokedAt.None?
  }

  function Under(t: Table<SessionDetail>, parents: set<Id>): (ids: set<Id>)
    ensures forall id :: id in ids <==> id in t && t[id].detail.accountSession in parents
  {
    set id | id in t && t[id].detail.accountSession in parents
  }

  function InMembership(t: Table<SessionDetail>, membership: Id): (ids: set<Id>)
    ensures forall id :: id in ids <==> id in t && t[id].detail.membership == membership
  {
    set id | id in t && t[id].detail.membership == membership
  }

  function From(t: Table<HandoffDetail>, sources: set<Id>): (ids: set<Id>)
    ensures forall id :: id in ids <==> id in t && t[id].detail.sourceSession in sources
  {
    set id | id in t && t[id].detail.sourceSession in sources
  }

  function OfSession(t: Table<FactorDetail>, accountSession: Id): (ids: set<Id>)
    ensures forall id :: id in ids <==> id in t && t[id].detail.accountSession == accountSession
  {
    set id | id in t && t[id].detail.accountSession == accountSession
  }

  /** Organization sessions under the given parents end, and then the handoffs of those ended. */
  function EndSessionsUnder(db: Db, parents: set<Id>, now: Time): Db {
    var below := Under(db.sessions, parents);
    var sessions := RevokeActive(db.sessions, below, now);
    db.(sessions := sessions,
        handoffs := RevokeLive(db.handoffs, From(db.handoffs, RevokedAmong(sessions, below)), now))
  }

  /** `_revoke_account_session_mfa_authority`. */
  function EndFactorsOfSession(db: Db, accountSession: Id, now: Time): Db {
    db.(attestations := RevokeLive(db.attestations, OfSession(db.attestations, accountSession), now),
        stepUps := RevokeLive(db.stepUps, OfSession(db.stepUps, accountSession), now))
  }

  /** `_revoke_mfa_authority`. */
  function EndFactorsOfAccount(db: Db, account: Id, now: Time): Db {
    db.(attestations := RevokeLive(db.attestations, OfAccount(db.attestations, account), now),
        stepUps := RevokeLive(db.stepUps, OfAccount(db.stepUps, account), now))
  }

  /** `_revoke_account_authority`. */
  function EndAccountAuthority(db: Db, account: Id, now: Time): Db {
    var parents := LiveSessionsOf(db.accountSessions, account);
    var ended := db.(accountSessions := RevokeLive(db.accountSessions, parents, now));
    EndFactorsOfAccount(EndSessionsUnder(ended, parents, now), account, now)
  }

  /** `_revoke_membership_sessions`. */
  function EndMembershipSessions(db: Db, membership: Id, now: Time): Db {
    var below := InMembership(db.sessions, membership);
    var sessions := RevokeLive(db.sessions, below, now);
    db.(sessions := sessions,
        handoffs := RevokeLive(db.handoffs, From(db.handoffs, RevokedAmong(sessions, below)), now))
  }

  /** `_consume_mfa_broker_attestation`. */
  function UseAttestation(db: Db, account: Id, accountSession: Id, authenticator: Id, token: Digest, purpose: Purpose,
                          now: Time): (r: Refusable<Table<FactorDetail>>)
    ensures r.Ok? ==> var found := Lookup(db.attestations, token);
                      found.Some? && Live(db.attestations[found.value]) && r.value == Consume(db.attestations, found.value, now)
  {
    var id :- Usable(db.attestations, token, now);
    var row := db.attestations[id];
    var _ :- Check(row.account == account, AccountMismatch);
    var _ :- Check(row.detail.accountSession == accountSession, OwnerMismatch);
    var _ :- Check(row.detail.authenticator == authenticator, FactorMismatch);
    var _ :- Check(row.detail.purpose == purpose, PurposeMismatch);
    Ok(Consume(db.attestations, id, now))
  }

  /** `_consume_mfa_step_up_for_action`. */
  function UseStepUp(db: Db, account: Id, accountSession: Id, token: Digest, purpose: Purpose, now: Time):
    (r: Refusable<Table<FactorDetail>>)
    ensures r.Ok? ==> var found := Lookup(db.stepUps, token);
                      found.Some? && Live(db.stepUps[found.value]) && r.value == Consume(db.stepUps, found.value, now)
  {
    var _ :- Check(purpose != UnknownPurpose && purpose != EnrollFactor, UnsupportedPurpose);
    var id :- Usable(db.stepUps, token, now);
    var row := db.stepUps[id];
    var _ :- Check(row.account == account, AccountMismatch);
    var _ :- Check(row.detail.accountSession == accountSession, OwnerMismatch);
    var _ :- Check(row.detail.purpose == purpose, PurposeMismatch);
    var factor := ActiveAuthenticator(db.authenticators, account);
    var _ :- Check(factor.Some?, FactorRequired);
    var _ :- Check(factor.value == row.detail.authenticator, FactorMismatch);
    Ok(Consume(db.stepUps, id, now))
  }

  /** A sensitive action consumes a step-up exactly when the account has an active factor. */
  function GuardAction(db: Db, account: Id, accountSession: Id, stepUp: Option<Digest>, purpose: Purpose, now: Time):
    (r: Refusable<Table<FactorDetail>>)
  {
    if ActiveAuthenticator(db.authenticators, account).None? then Ok(db.stepUps)
    else if stepUp.None? then Err(StepUpRequired)
    else UseStepUp(db, account, accountSession, stepUp.value, purpose, now)
  }

  /** `_mint_mfa_step_up`. */
  function MintStepUp(t: Table<FactorDetail>, n: Fresh, account: Id, detail: FactorDetail, ttl: int, now: Time):
    (r: Refusable<Table<FactorDetail>>)
  {
    var _ :- Check(ttl >= 1, InvalidArgument);
    Insert(t, n.id, NewRow(n.digest, account, Some(now + ttl as real), detail))
  }

  /** An id and a secret's digest drawn for a new row. */
  datatype Fresh = Fresh(id: Id, digest: Digest)

  function InsertCodes(t: Table<()>, codes: seq<Fresh>, account: Id): Refusable<Table<()>>
    decreases |codes|
  {
    if codes == [] then Ok(t)
    else
      var n := |codes| - 1;
      var before :- InsertCodes(t, codes[..n], account);
      Insert(before, codes[n].id, NewRow(codes[n].digest, account, None, ()))
  }

  // ----- the public methods

  function Signup(db: Db, email: string, identity: Id, account: Id, n: Fresh, ttl: int, now: Time): Refusable<Db> {
    var _ :- Check(ttl >= 1, InvalidArgument);
    var _ :- Check(identity !in db.identities && account !in db.accounts && account !in db.credentials, EmailUnavailable);
    var _ :- Check(forall id :: id in db.accounts ==> db.accounts[id].identity != identity, EmailUnavailable);
    var emails := InsertEmail(db.emails, account, EmailRow(email, None, false));
    var _ :- Check(emails.Ok?, EmailUnavailable);
    var verifications := Insert(db.verifications, n.id, NewRow(n.digest, account, Some(now + ttl as real), ()));
    var _ :- Check(verifications.Ok?, EmailUnavailable);
    Ok(db.(identities := db.identities[identity := true],
           accounts := db.accounts[account := Account(identity, true)],
           emails := emails.value,
           credentials := db.credentials[account := Credential(1, true)],
           verifications := verifications.value))
  }

  function VerifyEmail(db: Db, token: Digest, now: Time): Refusable<Db> {
    var id :- Usable(db.verifications, token, now);
    var account := db.verifications[id].account;
    var _ :- Check(account in db.emails && !db.emails[account].active && db.emails[account].verifiedAt.None?, Unavailable);
    Ok(db.(emails := ConfirmEmail(db.emails, account, now), verifications := Consume(db.verifications, id, now)))
  }

  function Login(db: Db, email: string, passwordMatches: bool, n: Fresh, ttl: int, now: Time): Refusable<Db> {
    var _ :- Check(ttl >= 1, InvalidArgument);
    var found := AccountWithEmail(db.emails, email);
    var _ :- Check(found.Some?, Unauthorized);
    var account := found.value;
    var _ :- Check(
      && Verified(db.emails[account]) && AccountLive(db, account) && CredentialLive(db, account)
      && ActiveIn(db.identities, db.accounts[account].identity), Unauthorized);
    var _ :- Check(passwordMatches, Unauthorized);
    var detail := LoginDetail(db.accounts[account].identity, db.credentials[account].revision);
    var sessions :- Insert(db.accountSessions, n.id, NewRow(n.digest, account, Some(now + ttl as real), detail));
    Ok(db.(accountSessions := sessions))
  }

  function Signout(db: Db, bearer: Digest, id: Id, clock: Time, now: Time): Refusable<Db> {
    var _ :- LoadAccountSession(db, bearer, id, clock);
    var _ :- Check(Live(db.accountSessions[id]), Unavailable);
    var ended := db.(accountSessions := RevokeLive(db.accountSessions, {id}, now));
    Ok(EndFactorsOfSession(EndSessionsUnder(ended, {id}, now), id, now))
  }

  /** What replacing the password of an account ends, besides the given other reset rows. */
  function ReplaceCredential(db: Db, account: Id, resets: Table<()>, now: Time): Db
    requires account in db.credentials
  {
    EndAccountAuthority(db.(credentials := BumpRevision(db.credentials, account), resets := resets), account, now)
  }

  function ReplacePassword(db: Db, bearer: Digest, id: Id, acceptable: bool, currentMatches: bool, samePassword: bool,
                              stepUp: Option<Digest>, clock: Time, now: Time): Refusable<Db> {
    var session :- LoadAccountSession(db, bearer, id, clock);
    var _ :- Check(acceptable, PasswordRefused);
    var account := session.account;
    var _ :- Check(CredentialLive(db, account), CredentialUnavailable);
    var _ :- Check(currentMatches, CurrentPasswordInvalid);
    var _ :- Check(!samePassword, PasswordUnchanged);
    var stepUps :- GuardAction(db, account, id, stepUp, ChangePassword, now);
    var resets := RevokeLive(db.resets, OfAccount(db.resets, account), now);
    Ok(ReplaceCredential(db.(stepUps := stepUps), account, resets, now))
  }

  function IssueReset(db: Db, email: string, n: Fresh, ttl: int, now: Time): Refusable<Db> {
    var _ :- Check(ttl >= 1, InvalidArgument);
    var found := AccountWithEmail(db.emails, email);
    var _ :- Check(found.Some?, Unavailable);
    var account := found.value;
    var _ :- Check(Verified(db.emails[account]) && AccountLive(db, account) && CredentialLive(db, account), Unavailable);
    var cleared := RevokeLive(db.resets, OfAccount(db.resets, account), now);
    var resets :- Insert(cleared, n.id, NewRow(n.digest, account, Some(now + ttl as real), ()));
    Ok(db.(resets := resets))
  }

  function ConsumeReset(db: Db, token: Digest, acceptable: bool, samePassword: bool, now: Time): Refusable<Db> {
    var _ :- Check(acceptable, PasswordRefused);
    var id :- Usable(db.resets, token, now);
    var account := db.resets[id].account;
    var _ :- Check(CredentialLive(db, account), CredentialUnavailable);
    var _ :- Check(!samePassword, PasswordUnchanged);
    var consumed := Consume(db.resets, id, now);
    var resets := RevokeLive(consumed, OfAccount(consumed, account) - {id}, now);
    Ok(ReplaceCredential(db, account, resets, now))
  }

  function BeginEnrollment(db: Db, bearer: Digest, id: Id, referenceValid: bool, authenticator: Id, clock: Time, now: Time):
    Refusable<Db> {
    var session :- LoadAccountSession(db, bearer, id, clock);
    var _ :- Check(referenceValid, InvalidArgument);
    var _ :- Check(ActiveAuthenticator(db.authenticators, session.account).None?, FactorExists);
    var authenticators :- InsertPending(RevokePending(db.authenticators, session.account, now), authenticator, session.account);
    Ok(db.(authenticators := authenticators))
  }

  function CompleteEnrollment(db: Db, bearer: Digest, id: Id, authenticator: Id, attestation: Digest, clock: Time, now: Time):
    Refusable<Db> {
    var session :- LoadAccountSession(db, bearer, id, clock);
    var _ :- Check(authenticator in db.authenticators, FactorUnavailable);
    var row := db.authenticators[authenticator];
    var _ :- Check(
      row.account == session.account && row.status == FactorPending && row.verifiedAt.None? && row.revokedAt.None?,
      FactorUnavailable);
    var attestations :- UseAttestation(db, session.account, id, authenticator, attestation, EnrollFactor, now);
    var authenticators :- ActivateFactor(db.authenticators, authenticator, now);
    Ok(db.(attestations := attestations, authenticators := authenticators))
  }

  predicate HasCodes(t: Table<()>, account: Id) { exists id :: id in t && t[id].account == account }

  /** The codes of an account are replaced; replacing existing ones takes a step-up. */
  function IssueRecoveryCodes(db: Db, bearer: Digest, id: Id, codes: seq<Fresh>, stepUp: Option<Digest>, clock: Time,
                              now: Time): Refusable<Db> {
    var session :- LoadAccountSession(db, bearer, id, clock);
    var account := session.account;
    var _ :- Check(1 <= |codes| <= 20, InvalidArgument);
    var _ :- Check(ActiveAuthenticator(db.authenticators, account).Some?, FactorRequired);
    var rotation := HasCodes(db.recoveryCodes, account);
    var _ :- Check(!rotation || stepUp.Some?, StepUpRequired);
    var stepUps :- if rotation then UseStepUp(db, account, id, stepUp.value, RotateRecovery, now) else Ok(db.stepUps);
    var cleared := RevokeLive(db.recoveryCodes, OfAccount(db.recoveryCodes, account), now);
    var recoveryCodes :- InsertCodes(cleared, codes, account);
    Ok(db.(stepUps := stepUps, recoveryCodes := recoveryCodes))
  }

  function ExchangeAttestation(db: Db, bearer: Digest, id: Id, authenticator: Id, token: Digest, purpose: Purpose, n: Fresh,
                               ttl: int, clock: Time, now: Time): Refusable<Db> {
    var session :- LoadAccountSession(db, bearer, id, clock);
    var account := session.account;
    var _ :- Check(purpose != UnknownPurpose && purpose != EnrollFactor, UnsupportedPurpose);
    var factor := ActiveAuthenticator(db.authenticators, account);
    var _ :- Check(factor.Some?, FactorRequired);
    var _ :- Check(factor.value == authenticator, FactorMismatch);
    var attestations :- UseAttestation(db, account, id, authenticator, token, purpose, now);
    var stepUps :- MintStepUp(db.stepUps, n, account, FactorDetail(id, authenticator, purpose), ttl, now);
    Ok(db.(attestations := attestations, stepUps := stepUps))
  }

  function ExchangeRecoveryCode(db: Db, bearer: Digest, id: Id, code: Digest, purpose: Purpose, n: Fresh, ttl: int,
                                clock: Time, now: Time): Refusable<Db> {
    var session :- LoadAccountSession(db, bearer, id, clock);
    var account := session.account;
    var _ :- Check(purpose != UnknownPurpose && purpose != EnrollFactor, UnsupportedPurpose);
    var factor := ActiveAuthenticator(db.authenticators, account);
    var _ :- Check(factor.Some?, FactorRequired);
    var found := Lookup(db.recoveryCodes, code);
    var _ :- Check(found.Some? && db.recoveryCodes[found.value].account == account, Unavailable);
    var used :- Usable(db.recoveryCodes, code, now);
    var stepUps :- MintStepUp(db.stepUps, n, account, FactorDetail(id, factor.value, purpose), ttl, now);
    Ok(db.(recoveryCodes := Consume(db.recoveryCodes, used, now), stepUps := stepUps))
  }

  function ConsumeStepUp(db: Db, bearer: Digest, id: Id, token: Digest, purpose: Purpose, clock: Time, now: Time):
    Refusable<Db> {
    var session :- LoadAccountSession(db, bearer, id, clock);
    var stepUps :- UseStepUp(db, session.account, id, token, purpose, now);
    Ok(db.(stepUps := stepUps))
  }

  function RequestEmailChange(db: Db, bearer: Digest, id: Id, currentMatches: bool, email: string, n: Fresh, ttl: int,
                              stepUp: Option<Digest>, clock: Time, now: Time): Refusable<Db> {
    var session :- LoadAccountSession(db, bearer, id, clock);
    var account := session.account;
    var _ :- Check(ttl >= 1, InvalidArgument);
    var _ :- Check(account in db.emails && Verified(db.emails[account]), Unavailable);
    var _ :- Check(db.emails[account].email != email, EmailUnchanged);
    var _ :- Check(CredentialLive(db, account), CredentialUnavailable);
    var _ :- Check(currentMatches, CurrentPasswordInvalid);
    var _ :- Check(AccountWithEmail(db.emails, email).None?, EmailUnavailable);
    var stepUps :- GuardAction(db, account, id, stepUp, ChangeEmail, now);
    var cleared := RevokeLive(db.emailChanges, OfAccount(db.emailChanges, account), now);
    var emailChanges :- Insert(cleared, n.id, NewRow(n.digest, account, Some(now + ttl as real), email));
    Ok(db.(stepUps := stepUps, emailChanges := emailChanges))
  }

  function ConsumeEmailChange(db: Db, token: Digest, now: Time): Refusable<Db> {
    var id :- Usable(db.emailChanges, token, now);
    var row := db.emailChanges[id];
    var holder := AccountWithEmail(db.emails, row.detail);
    var _ :- Check(holder.None? || holder.value == row.account, EmailUnavailable);
    var _ :- Check(row.account in db.emails && Verified(db.emails[row.account]), Unavailable);
    var consumed := Consume(db.emailChanges, id, now);
    var emailChanges := RevokeLive(consumed, OfAccount(consumed, row.account) - {id}, now);
    OnlyHolder(db.emails, row.detail, row.account);
    var changed := db.(emails := ReplaceEmail(db.emails, row.account, row.detail, now), emailChanges := emailChanges);
    Ok(EndAccountAuthority(changed, row.account, now))
  }

  lemma OnlyHolder(m: Emails, email: string, account: Id)
    requires var holder := AccountWithEmail(m, email); holder.None? || holder.value == account
    ensures forall id :: id in m && m[id].email == email ==> id == account
  {
  }

  function CreateIdentity(db: Db, id: Id): Refusable<Db> {
    var _ :- Check(id !in db.identities, IntegrityFailure);
    Ok(db.(identities := db.identities[id := true]))
  }

  function CreateAccount(db: Db, identity: Id, id: Id): Refusable<Db> {
    var _ :- Check(id !in db.accounts && identity in db.identities, IntegrityFailure);
    var _ :- Check(forall a :: a in db.accounts ==> db.accounts[a].identity != identity, IntegrityFailure);
    Ok(db.(accounts := db.accounts[id := Account(identity, true)]))
  }

  function CreateOrganization(db: Db, id: Id, tenant: Id): Refusable<Db> {
    var _ :- Check(id !in db.organizations, IntegrityFailure);
    var tenants :- InsertTenant(db.tenants, tenant, id);
    Ok(db.(organizations := db.organizations[id := true], tenants := tenants))
  }

  /** Adds to the definition tables: one function per public method. */
  function DefineRole(db: Db, ref: DefinitionRef): Refusable<Db> {
    var roles :- Define(db.registry.roles, ref);
    Ok(db.(registry := db.registry.(roles := roles)))
  }

  function DefineEntitlement(db: Db, ref: DefinitionRef): Refusable<Db> {
    var entitlements :- Define(db.registry.entitlements, ref);
    Ok(db.(registry := db.registry.(entitlements := entitlements)))
  }

  function DefinePolicy(db: Db, ref: DefinitionRef): Refusable<Db> {
    var policies :- Define(db.registry.policies, ref);
    Ok(db.(registry := db.registry.(policies := policies)))
  }

  function DefineAdapter(db: Db, id: Id, name: string): Refusable<Db> {
    var registry :- AddAdapter(db.registry, id, name);
    Ok(db.(registry := registry))
  }

  function DefineOperation(db: Db, adapter: Id, id: Id, name: string): Refusable<Db> {
    var registry :- AddOperation(db.registry, id, adapter, name);
    Ok(db.(registry := registry))
  }

  /** Repeated references are not removed. */
  function IssueInvitation(db: Db, organization: Id, tenant: Id, roles: seq<DefinitionRef>, entitlements: seq<DefinitionRef>,
                           n: Fresh, ttl: int, now: Time): Refusable<Db> {
    var _ :- Check(ttl >= 1, InvalidArgument);
    var _ :- Check(
      && ActiveIn(db.organizations, organization) && tenant in db.tenants && db.tenants[tenant].active
      && db.tenants[tenant].organization == organization, ScopeRequired);
    var _ :- Check(forall r :: r in roles ==> ActiveDefinition(db.registry.roles, r), RoleRequired);
    var _ :- Check(forall r :: r in entitlements ==> ActiveDefinition(db.registry.entitlements, r), EntitlementRequired);
    var invitations :- InsertInvitation(
      db.invitations, n.id, Invitation(n.digest, organization, tenant, roles, entitlements, now + ttl as real, 1, 0, true));
    Ok(db.(invitations := invitations))
  }

  function RedeemInvitation(db: Db, code: Digest, identity: Id, membership: Id, now: Time): Refusable<Db> {
    var found := InvitationWithCode(db.invitations, code);
    var _ :- Check(found.Some?, Unavailable);
    var row := db.invitations[found.value];
    var _ :- Check(row.active, Unavailable);
    var _ :- Check(now < row.expiresAt, Expired);
    var _ :- Check(row.consumedUses < row.maximumUses, AlreadyConsumed);
    var _ :- Check(CurrentMembership(db.memberships, identity, row.organization).None?, MembershipExists);
    var _ :- Check(identity in db.identities, IntegrityFailure);
    var memberships :- InsertMembership(db.memberships, membership, identity, row.organization);
    var g := db.registry;
    var assignments :- AddHoldings(g.assignments, g.roles, membership, row.roles);
    var grants :- AddHoldings(g.grants, g.entitlements, membership, row.entitlements);
    Ok(db.(memberships := memberships, invitations := UseInvitation(db.invitations, found.value),
           registry := g.(assignments := assignments, grants := grants)))
  }

  function GrantAdapter(db: Db, id: Id, b: Binding): Refusable<Db> {
    var registry :- AddBinding(db.registry, id, b.(active := true));
    var _ :- Check(b.membership in db.memberships, IntegrityFailure);
    Ok(db.(memberships := BumpAuthorization(db.memberships, b.membership), registry := registry))
  }

  function Earlier(a: Time, b: Time): Time { if a <= b then a else b }

  function DeriveSession(db: Db, bearer: Digest, id: Id, organization: Id, n: Fresh, ttl: int, clock: Time, now: Time):
    Refusable<Db> {
    var _ :- Check(ttl >= 1, InvalidArgument);
    var parent :- LoadAccountSession(db, bearer, id, clock);
    var membership := CurrentMembership(db.memberships, parent.detail.identity, organization);
    var _ :- Check(membership.Some? && db.memberships[membership.value].status == MembershipActive, MembershipRequired);
    var m := db.memberships[membership.value];
    var tenant := TenantOf(db.tenants, organization);
    var _ :- Check(tenant.Some? && db.tenants[tenant.value].active, TenantRequired);
    var expiry := now + ttl as real;
    var bounded := if parent.expiresAt.Some? then Earlier(expiry, parent.expiresAt.value) else expiry;
    var detail := SessionDetail(parent.detail.identity, membership.value, organization, tenant.value, id,
                                m.authorizationVersion, m.entitlementVersion, parent.detail.credentialRevision);
    var sessions :- Insert(db.sessions, n.id, NewRow(n.digest, parent.account, Some(bounded), detail));
    Ok(db.(sessions := sessions))
  }

  /** `project_authorized_subject`: every check in order. */
  function ProjectSubject(db: Db, id: Id, now: Time): (r: Refusable<Row<SessionDetail>>)
    ensures r.Ok? ==> id in db.sessions && r.value == db.sessions[id] && r.value.status == Active
  {
    var _ :- Check(id in db.sessions, SessionUnavailable);
    var row := db.sessions[id];
    var d := row.detail;
    var _ :- Check(row.status == Active && !Past(row, now) && row.revokedAt.None?, SessionInactive);
    var _ :- Check(
      && d.accountSession in db.accountSessions && db.accountSessions[d.accountSession].account in db.credentials
      && db.accountSessions[d.accountSession].account in db.accounts
      && db.accountSessions[d.accountSession].detail.identity in db.identities
      && d.organization in db.organizations && d.tenant in db.tenants, GraphUnavailable);
    var parent := db.accountSessions[d.accountSession];
    var _ :- Check(parent.status == Active && parent.revokedAt.None? && !Past(parent, now), ParentInactive);
    var _ :- Check(
      && parent.detail.identity == d.identity && parent.account == row.account
      && db.accounts[parent.account].identity == d.identity
      && db.tenants[d.tenant].organization == d.organization, GraphMismatch);
    var _ :- Check(
      && db.credentials[parent.account].active
      && db.credentials[parent.account].revision == parent.detail.credentialRevision
      && d.credentialRevision == parent.detail.credentialRevision, RevisionStale);
    var _ :- Check(
      && db.identities[parent.detail.identity] && db.accounts[parent.account].active
      && db.organizations[d.organization] && db.tenants[d.tenant].active, GraphInactive);
    var _ :- Check(d.membership in db.memberships && db.memberships[d.membership].status == MembershipActive,
                   MembershipInactive);
    var m := db.memberships[d.membership];
    var _ :- Check(m.identity == d.identity && m.organization == d.organization, MembershipMismatch);
    var _ :- Check(d.authorizationVersion == m.authorizationVersion, AuthorizationStale);
    var _ :- Check(d.entitlementVersion == m.entitlementVersion, EntitlementStale);
    var definitions := DefinitionError(db.registry, d.membership);
    if definitions.Some? then Err(definitions.value) else Ok(row)
  }

  function Authenticate(db: Db, bearer: Digest, id: Id, now: Time): (r: Refusable<Row<SessionDetail>>)
    ensures r.Ok? ==> id in db.sessions && r.value == db.sessions[id] && r.value.status == Active
  {
    var found := Lookup(db.sessions, bearer);
    var _ :- Check(found.Some?, Unauthorized);
    var _ :- Check(found.value == id, OwnerMismatch);
    ProjectSubject(db, id, now)
  }

  function EndMembership(db: Db, id: Id, status: EndingStatus, now: Time): Refusable<Db> {
    var _ :- Check(
      id in db.memberships && (db.memberships[id].status == MembershipActive
                               || (status == MembershipRevoked && db.memberships[id].status == MembershipSuspended)),
      MembershipRequired);
    Ok(EndMembershipSessions(db.(memberships := SetMembership(db.memberships, id, status)), id, now))
  }

  const CONSUMER := "adforge"

  function IssueHandoff(db: Db, bearer: Digest, session: Id, consumer: string, n: Fresh, ttl: int,
                        clock: Time, now: Time): Refusable<Db> {
    var _ :- Check(ttl >= 1, InvalidArgument);
    var _ :- Check(consumer == CONSUMER, UnsupportedConsumer);
    var subject :- Authenticate(db, bearer, session, clock);
    var d := subject.detail;
    var detail := HandoffDetail(consumer, d.identity, d.membership, d.organization, d.tenant, session,
                                d.authorizationVersion, d.entitlementVersion);
    var handoffs :- Insert(db.handoffs, n.id, NewRow(n.digest, subject.account, Some(now + ttl as real), detail));
    Ok(db.(handoffs := handoffs))
  }

  /** The checks of `consume_consumer_handoff` on the graph below the handoff, in order. */
  function HandoffGraph(db: Db, row: Row<HandoffDetail>, now: Time, clock: Time): Refusable<()> {
    var h := row.detail;
    var _ :- Check(h.sourceSession in db.sessions, SessionUnavailable);
    var source := db.sessions[h.sourceSession];
    var _ :- Check(source.status == Active && source.revokedAt.None? && !Past(source, now), SourceInactive);
    var s := source.detail;
    var _ :- Check(
      && s.identity == h.identity && source.account == row.account && s.membership == h.membership
      && s.organization == h.organization && s.tenant == h.tenant, SourceMismatch);
    var _ :- Check(s.authorizationVersion == h.authorizationVersion, AuthorizationStale);
    var _ :- Check(s.entitlementVersion == h.entitlementVersion, EntitlementStale);
    var _ :- Check(ActiveIn(db.identities, h.identity), GraphInactive);
    var _ :- Check(AccountLive(db, row.account) && db.accounts[row.account].identity == h.identity, GraphInactive);
    var _ :- Check(
      && h.membership in db.memberships && db.memberships[h.membership].status == MembershipActive
      && db.memberships[h.membership].identity == h.identity
      && db.memberships[h.membership].organization == h.organization, MembershipRequired);
    var m := db.memberships[h.membership];
    var _ :- Check(m.authorizationVersion == h.authorizationVersion, AuthorizationStale);
    var _ :- Check(m.entitlementVersion == h.entitlementVersion, EntitlementStale);
    var _ :- Check(ActiveIn(db.organizations, h.organization), GraphInactive);
    var _ :- Check(
      h.tenant in db.tenants && db.tenants[h.tenant].active && db.tenants[h.tenant].organization == h.organization,
      TenantRequired);
    var _ :- ProjectSubject(db, h.sourceSession, clock);
    Ok(())
  }

  function ConsumeHandoff(db: Db, token: Digest, consumer: string, now: Time, clock: Time):
    Refusable<Db> {
    var _ :- Check(consumer == CONSUMER, UnsupportedConsumer);
    var found := Lookup(db.handoffs, token);
    var _ :- Check(found.Some?, Unavailable);
    var _ :- Check(db.handoffs[found.value].detail.consumer == consumer, ConsumerMismatch);
    var id :- Usable(db.handoffs, token, now);
    var _ :- HandoffGraph(db, db.handoffs[id], now, clock);
    Ok(db.(handoffs := Consume(db.handoffs, id, now)))
  }

  function RevokeHandoff(db: Db, id: Id, now: Time): Refusable<Db> {
    var _ :- Check(id in db.handoffs && Live(db.handoffs[id]), Unavailable);
    Ok(db.(handoffs := RevokeLive(db.handoffs, {id}, now)))
  }

  /** The external factor broker files an attestation; the schema's foreign keys are all that is
      demanded of it. */
  function FileAttestation(db: Db, n: Fresh, account: Id, detail: FactorDetail, expiresAt: Time): Refusable<Db> {
    var _ :- Check(
      && account in db.accounts && detail.accountSession in db.accountSessions
      && detail.authenticator in db.authenticators, IntegrityFailure);
    var attestations :- Insert(db.attestations, n.id, NewRow(n.digest, account, Some(expiresAt), detail));
    Ok(db.(attestations := attestations))
  }

  // ----- runs

  datatype Op =
    SignupOp(email: string, identity: Id, account: Id, n: Fresh, ttl: int, now: Time)
    | VerifyEmailOp(token: Digest, now: Time)
    | LoginOp(email: string, passwordMatches: bool, n: Fresh, ttl: int, now: Time)
    | SignoutOp(bearer: Digest, id: Id, clock: Time, now: Time)
    | ReplacePasswordOp(bearer: Digest, id: Id, acceptable: bool, currentMatches: bool, samePassword: bool,
        stepUp: Option<Digest>, clock: Time, now: Time)
    | IssueResetOp(email: string, n: Fresh, ttl: int, now: Time)
    | ConsumeResetOp(token: Digest, acceptable: bool, samePassword: bool, now: Time)
    | BeginEnrollmentOp(bearer: Digest, id: Id, referenceValid: bool, authenticator: Id, clock: Time, now: Time)
    | CompleteEnrollmentOp(bearer: Digest, id: Id, authenticator: Id, attestation: Digest, clock: Time, now: Time)
    | IssueRecoveryCodesOp(bearer: Digest, id: Id, codes: seq<Fresh>, stepUp: Option<Digest>, clock: Time, now: Time)
    | ExchangeAttestationOp(bearer: Digest, id: Id, authenticator: Id, token: Digest, purpose: Purpose, n: Fresh,
        ttl: int, clock: Time, now: Time)
    | ExchangeRecoveryCodeOp(bearer: Digest, id: Id, code: Digest, purpose: Purpose, n: Fresh, ttl: int, clock: Time,
        now: Time)
    | ConsumeStepUpOp(bearer: Digest, id: Id, token: Digest, purpose: Purpose, clock: Time, now: Time)
    | RequestEmailChangeOp(bearer: Digest, id: Id, currentMatches: bool, email: string, n: Fresh, ttl: int,
        stepUp: Option<Digest>, clock: Time, now: Time)
    | ConsumeEmailChangeOp(token: Digest, now: Time)
    | CreateIdentityOp(id: Id)
    | CreateAccountOp(identity: Id, id: Id)
    | CreateOrganizationOp(id: Id, tenant: Id)
    | DefineRoleOp(ref: DefinitionRef)
    | DefineEntitlementOp(ref: DefinitionRef)
    | DefinePolicyOp(ref: DefinitionRef)
    | DefineAdapterOp(id: Id, name: string)
    | DefineOperationOp(adapter: Id, id: Id, name: string)
    | IssueInvitationOp(organization: Id, tenant: Id, roles: seq<DefinitionRef>, entitlements: seq<DefinitionRef>, n: Fresh,
                        ttl: int, now: Time)
    | RedeemInvitationOp(code: Digest, identity: Id, membership: Id, now: Time)
    | GrantAdapterOp(id: Id, binding: Binding)
    | DeriveSessionOp(bearer: Digest, id: Id, organization: Id, n: Fresh, ttl: int, clock: Time, now: Time)
    | EndMembershipOp(id: Id, status: EndingStatus, now: Time)
    | IssueHandoffOp(bearer: Digest, session: Id, consumer: string, n: Fresh, ttl: int,
        clock: Time, now: Time)
    | ConsumeHandoffOp(token: Digest, consumer: string, now: Time, clock: Time)
    | RevokeHandoffOp(id: Id, now: Time)
    | FileAttestationOp(n: Fresh, account: Id, detail: FactorDetail, expiresAt: Time)

  /** Accounts, passwords, addresses and account sessions. */
  predicate AboutAccounts(op: Op) {
    op.SignupOp? || op.VerifyEmailOp? || op.LoginOp? || op.SignoutOp? || op.ReplacePasswordOp?
    || op.IssueResetOp? || op.ConsumeResetOp? || op.RequestEmailChangeOp? || op.ConsumeEmailChangeOp?
  }

  function AccountStep(db: Db, op: Op): Refusable<Db>
    requires AboutAccounts(op)
  {
    match op
    case SignupOp(email, identity, account, n, ttl, now) =>
      Signup(db, email, identity, account, n, ttl, now)
    case VerifyEmailOp(token, now) =>
      VerifyEmail(db, token, now)
    case LoginOp(email, passwordMatches, n, ttl, now) =>
      Login(db, email, passwordMatches, n, ttl, now)
    case SignoutOp(bearer, id, clock, now) =>
      Signout(db, bearer, id, clock, now)
    case ReplacePasswordOp(bearer, id, acceptable, currentMatches, samePassword, stepUp, clock, now) =>
      ReplacePassword(db, bearer, id, acceptable, currentMatches, samePassword, stepUp, clock, now)
    case IssueResetOp(email, n, ttl, now) =>
      IssueReset(db, email, n, ttl, now)
    case ConsumeResetOp(token, acceptable, samePassword, now) =>
      ConsumeReset(db, token, acceptable, samePassword, now)
    case RequestEmailChangeOp(bearer, id, currentMatches, email, n, ttl, stepUp, clock, now) =>
      RequestEmailChange(db, bearer, id, currentMatches, email, n, ttl, stepUp, clock, now)
    case ConsumeEmailChangeOp(token, now) =>
      ConsumeEmailChange(db, token, now)
  }

  /** Authenticators, recovery codes, attestations and step-ups. */
  predicate AboutFactors(op: Op) {
    op.BeginEnrollmentOp? || op.CompleteEnrollmentOp? || op.IssueRecoveryCodesOp? || op.ExchangeAttestationOp?
    || op.ExchangeRecoveryCodeOp? || op.ConsumeStepUpOp? || op.FileAttestationOp?
  }

  function FactorStep(db: Db, op: Op): Refusable<Db>
    requires AboutFactors(op)
  {
    match op
    case BeginEnrollmentOp(bearer, id, referenceValid, authenticator, clock, now) =>
      BeginEnrollment(db, bearer, id, referenceValid, authenticator, clock, now)
    case CompleteEnrollmentOp(bearer, id, authenticator, attestation, clock, now) =>
      CompleteEnrollment(db, bearer, id, authenticator, attestation, clock, now)
    case IssueRecoveryCodesOp(bearer, id, codes, stepUp, clock, now) =>
      IssueRecoveryCodes(db, bearer, id, codes, stepUp, clock, now)
    case ExchangeAttestationOp(bearer, id, authenticator, token, purpose, n, ttl, clock, now) =>
      ExchangeAttestation(db, bearer, id, authenticator, token, purpose, n, ttl, clock, now)
    case ExchangeRecoveryCodeOp(bearer, id, code, purpose, n, ttl, clock, now) =>
      ExchangeRecoveryCode(db, bearer, id, code, purpose, n, ttl, clock, now)
    case ConsumeStepUpOp(bearer, id, token, purpose, clock, now) =>
      ConsumeStepUp(db, bearer, id, token, purpose, clock, now)
    case FileAttestationOp(n, account, detail, expiresAt) =>
      FileAttestation(db, n, account, detail, expiresAt)
  }

  /** Identities, organizations and definitions. */
  predicate AboutDefinitions(op: Op) {
    op.CreateIdentityOp? || op.CreateAccountOp? || op.CreateOrganizationOp? || op.DefineRoleOp?
    || op.DefineEntitlementOp? || op.DefinePolicyOp? || op.DefineAdapterOp? || op.DefineOperationOp?
  }

  function DefinitionStep(db: Db, op: Op): Refusable<Db>
    requires AboutDefinitions(op)
  {
    match op
    case CreateIdentityOp(id) =>
      CreateIdentity(db, id)
    case CreateAccountOp(identity, id) =>
      CreateAccount(db, identity, id)
    case CreateOrganizationOp(id, tenant) =>
      CreateOrganization(db, id, tenant)
    case DefineRoleOp(ref) =>
      DefineRole(db, ref)
    case DefineEntitlementOp(ref) =>
      DefineEntitlement(db, ref)
    case DefinePolicyOp(ref) =>
      DefinePolicy(db, ref)
    case DefineAdapterOp(id, name) =>
      DefineAdapter(db, id, name)
    case DefineOperationOp(adapter, id, name) =>
      DefineOperation(db, adapter, id, name)
  }

  /** Invitations, memberships, organization sessions and handoffs. */
  predicate AboutMemberships(op: Op) {
    op.IssueInvitationOp? || op.RedeemInvitationOp? || op.GrantAdapterOp? || op.EndMembershipOp?
    || op.DeriveSessionOp? || op.IssueHandoffOp? || op.ConsumeHandoffOp? || op.RevokeHandoffOp?
  }

  function MembershipStep(db: Db, op: Op): Refusable<Db>
    requires AboutMemberships(op)
  {
    match op
    case IssueInvitationOp(organization, tenant, roles, entitlements, n, ttl, now) =>
      IssueInvitation(db, organization, tenant, roles, entitlements, n, ttl, now)
    case RedeemInvitationOp(code, identity, membership, now) =>
      RedeemInvitation(db, code, identity, membership, now)
    case GrantAdapterOp(id, binding) =>
      GrantAdapter(db, id, binding)
    case EndMembershipOp(id, status, now) =>
      EndMembership(db, id, status, now)
    case DeriveSessionOp(bearer, id, organization, n, ttl, clock, now) =>
      DeriveSession(db, bearer, id, organization, n, ttl, clock, now)
    case IssueHandoffOp(bearer, session, consumer, n, ttl, clock, now) =>
      IssueHandoff(db, bearer, session, consumer, n, ttl, clock, now)
    case ConsumeHandoffOp(token, consumer, now, clock) =>
      ConsumeHandoff(db, token, consumer, now, clock)
    case RevokeHandoffOp(id, now) =>
      RevokeHandoff(db, id, now)
  }

  function Step(db: Db, op: Op): Refusable<Db> {
    if AboutAccounts(op) then AccountStep(db, op)
    else if AboutFactors(op) then FactorStep(db, op)
    else if AboutDefinitions(op) then DefinitionStep(db, op)
    else MembershipStep(db, op)
  }

  /** A refused operation changes nothing. */
  function Next(db: Db, op: Op): Db {
    var r := Step(db, op);
    if r.Ok? then r.value else db
  }

  /** The database after a run: the operations of all callers in the order the lock served them. */
  function After(db: Db, ops: seq<Op>): Db
    decreases |ops|
  {
    if ops == [] then db else Next(After(db, ops[..|ops| - 1]), ops[|ops| - 1])
  }
}
