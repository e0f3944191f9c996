/** Safety of the predecessor store over every run (store.py): derived authority is backed, tokens
    are single-use, authority is cut off with its source, and exactly when a session or a handoff
    is still good. */
module StoreTheorems {
  import opened Wrappers
  import opened StoreTables
  import opened StoreRegistry
  import opened StoreSpec
  import opened StoreInvariants
  import opened StoreProofs
  import opened StoreForward

  // ----- derived authority is backed

  /** In every reachable state an active account session carries the current revision of its
      account's credential. */
  lemma ActiveLoginIsCurrent(ops: seq<Op>, id: Id)
    requires var db := After(EMPTY, ops); id in db.accountSessions && db.accountSessions[id].status == Active
    ensures var db := After(EMPTY, ops);
            Live(db.accountSessions[id]) && RevisionCurrent(db.accountSessions[id], db.credentials)
  {
    hide After, UniqueDigests, UniqueCurrent, UniqueTenants, UniqueCodes, UniqueEmails, UniqueActiveFactor;
    hide EntitiesSound, MembershipsSound, HandoffsSound, FactorsSound, InvitationsSound, RegistrySound, HoldersExist, ChallengesSound;
    RunKeeps(ops);
    var db := After(EMPTY, ops);
    assert LoginSound(db.accountSessions[id], db.accounts, db.credentials);
  }

  /** In every reachable state an active step-up belongs to the account of an active session. */
  lemma ActiveStepUpIsBacked(ops: seq<Op>, id: Id)
    requires var db := After(EMPTY, ops); id in db.stepUps && db.stepUps[id].status == Active
    ensures var db := After(EMPTY, ops);
            var parent := db.stepUps[id].detail.accountSession;
            && parent in db.accountSessions && Live(db.accountSessions[parent])
            && db.accountSessions[parent].account == db.stepUps[id].account
  {
    hide After, UniqueDigests, UniqueCurrent, UniqueTenants, UniqueCodes, UniqueEmails, UniqueActiveFactor;
    hide EntitiesSound, MembershipsSound, HandoffsSound, FactorsSound, InvitationsSound, RegistrySound, HoldersExist, ChallengesSound;
    RunKeeps(ops);
    var db := After(EMPTY, ops);
    assert StepUpSound(db.stepUps[id], db.accountSessions);
    ActiveLoginIsCurrent(ops, db.stepUps[id].detail.accountSession);
  }

  /** In every reachable state an active organization session has an active membership of its own
      identity and organization, and an active account session that does not expire before it. */
  lemma ActiveSessionIsBacked(ops: seq<Op>, id: Id)
    requires var db := After(EMPTY, ops); id in db.sessions && db.sessions[id].status == Active
    ensures var db := After(EMPTY, ops);
            var row := db.sessions[id];
            && Live(row) && row.detail.membership in db.memberships && row.detail.accountSession in db.accountSessions
            && var m := db.memberships[row.detail.membership];
            && m.status == MembershipActive && m.identity == row.detail.identity && m.organization == row.detail.organization
            && var parent := db.accountSessions[row.detail.accountSession];
            && Live(parent) && row.account == parent.account && row.expiresAt.Some? && parent.expiresAt.Some?
            && row.expiresAt.value <= parent.expiresAt.value
  {
    hide After, UniqueDigests, UniqueCurrent, UniqueTenants, UniqueCodes, UniqueEmails, UniqueActiveFactor;
    hide EntitiesSound, MembershipsSound, HandoffsSound, StepUpsSound, FactorsSound, InvitationsSound, RegistrySound, HoldersExist, ChallengesSound;
    RunKeeps(ops);
    var db := After(EMPTY, ops);
    assert SessionSound(db.sessions[id], db.accountSessions, db.memberships, db.organizations, db.tenants);
    assert LoginSound(db.accountSessions[db.sessions[id].detail.accountSession], db.accounts, db.credentials);
  }

  /** In every reachable state an active handoff stands on an active session with the same holder
      and versions, and so on everything that session stands on. */
  lemma ActiveHandoffIsBacked(ops: seq<Op>, id: Id)
    requires var db := After(EMPTY, ops); id in db.handoffs && db.handoffs[id].status == Active
    ensures var db := After(EMPTY, ops);
            && Live(db.handoffs[id]) && db.handoffs[id].detail.sourceSession in db.sessions
            && var source := db.sessions[db.handoffs[id].detail.sourceSession];
            && Live(source) && source.account == db.handoffs[id].account
            && source.detail.identity == db.handoffs[id].detail.identity
            && source.detail.authorizationVersion == db.handoffs[id].detail.authorizationVersion
            && source.detail.membership == db.handoffs[id].detail.membership
            && source.detail.membership in db.memberships
            && db.memberships[source.detail.membership].status == MembershipActive
            && source.detail.accountSession in db.accountSessions
            && Live(db.accountSessions[source.detail.accountSession])
            && RevisionCurrent(db.accountSessions[source.detail.accountSession], db.credentials)
  {
    hide After, UniqueDigests, UniqueCurrent, UniqueTenants, UniqueCodes, UniqueEmails, UniqueActiveFactor;
    hide EntitiesSound, MembershipsSound, StepUpsSound, FactorsSound, InvitationsSound, RegistrySound, HoldersExist, ChallengesSound;
    RunKeeps(ops);
    var db := After(EMPTY, ops);
    assert HandoffSound(db.handoffs[id], db.sessions);
    var source := db.handoffs[id].detail.sourceSession;
    ActiveSessionIsBacked(ops, source);
    ActiveLoginIsCurrent(ops, db.sessions[source].detail.accountSession);
  }

  predicate ActiveOf<X>(t: Table<X>, id: Id, account: Id) {
    id in t && t[id].status == Active && t[id].account == account
  }

  predicate KeptOf(m: Authenticators, id: Id, account: Id) {
    id in m && m[id].status != FactorRevoked && m[id].account == account
  }

  /** In every reachable state an account has at most one active reset, one active email change
      and one authenticator that is not revoked. */
  lemma OnePerAccount(ops: seq<Op>, account: Id)
    ensures var db := After(EMPTY, ops);
            && (forall i, j :: ActiveOf(db.resets, i, account) && ActiveOf(db.resets, j, account) ==> i == j)
            && (forall i, j :: ActiveOf(db.emailChanges, i, account) && ActiveOf(db.emailChanges, j, account) ==> i == j)
            && (forall i, j :: KeptOf(db.authenticators, i, account) && KeptOf(db.authenticators, j, account) ==> i == j)
  {
    hide After, UniqueDigests, UniqueCurrent, UniqueTenants, UniqueCodes, UniqueEmails, UniqueActiveFactor;
    hide EntitiesSound, MembershipsSound, LoginsSound, SessionsSound, HandoffsSound, StepUpsSound, InvitationsSound, RegistrySound, HoldersExist;
    hide AllConsistent;
    RunKeeps(ops);
    var m := After(EMPTY, ops).authenticators;
    assert forall i, j :: KeptOf(m, i, account) && KeptOf(m, j, account) ==> BothKept(m[i], m[j]);
  }

  // ----- single use

  datatype TokenKind =
    VerificationToken | ResetToken | EmailChangeToken | RecoveryCode | AttestationToken | StepUpToken | HandoffToken
    | InvitationCode

  predicate SpentIn<X>(t: Table<X>, digest: Digest) {
    var found := Lookup(t, digest);
    found.Some? && t[found.value].status != Active
  }

  predicate Spent(db: Db, kind: TokenKind, digest: Digest) {
    match kind
    case VerificationToken => SpentIn(db.verifications, digest)
    case ResetToken => SpentIn(db.resets, digest)
    case EmailChangeToken => SpentIn(db.emailChanges, digest)
    case RecoveryCode => SpentIn(db.recoveryCodes, digest)
    case AttestationToken => SpentIn(db.attestations, digest)
    case StepUpToken => SpentIn(db.stepUps, digest)
    case HandoffToken => SpentIn(db.handoffs, digest)
    case InvitationCode =>
      var found := InvitationWithCode(db.invitations, digest);
      found.Some? && !db.invitations[found.value].active
  }

  predicate NeedsStepUp(db: Db, id: Id) {
    id in db.accountSessions && ActiveAuthenticator(db.authenticators, db.accountSessions[id].account).Some?
  }

  function Optional(kind: TokenKind, needed: bool, digest: Option<Digest>): set<(TokenKind, Digest)> {
    if needed && digest.Some? then {(kind, digest.value)} else {}
  }

  /** The single-use tokens an operation has to consume to succeed in a state. */
  function Presented(db: Db, op: Op): set<(TokenKind, Digest)> {
    match op
    case VerifyEmailOp(token, _) => {(VerificationToken, token)}
    case ReplacePasswordOp(_, id, _, _, _, stepUp, _, _) => Optional(StepUpToken, NeedsStepUp(db, id), stepUp)
    case ConsumeResetOp(token, _, _, _) => {(ResetToken, token)}
    case CompleteEnrollmentOp(_, _, _, attestation, _, _) => {(AttestationToken, attestation)}
    case IssueRecoveryCodesOp(_, id, _, stepUp, _, _) =>
      Optional(StepUpToken, id in db.accountSessions && HasCodes(db.recoveryCodes, db.accountSessions[id].account), stepUp)
    case ExchangeAttestationOp(_, _, _, token, _, _, _, _, _) => {(AttestationToken, token)}
    case ExchangeRecoveryCodeOp(_, _, code, _, _, _, _, _) => {(RecoveryCode, code)}
    case ConsumeStepUpOp(_, _, token, _, _, _) => {(StepUpToken, token)}
    case RequestEmailChangeOp(_, id, _, _, _, _, stepUp, _, _) => Optional(StepUpToken, NeedsStepUp(db, id), stepUp)
    case ConsumeEmailChangeOp(token, _) => {(EmailChangeToken, token)}
    case RedeemInvitationOp(code, _, _, _) => {(InvitationCode, code)}
    case ConsumeHandoffOp(token, _, _, _) => {(HandoffToken, token)}
    case _ => {}
  }

  lemma ConsumedIsSpent<X>(t: Table<X>, id: Id, ids: set<Id>, now: Time)
    requires id in t && Live(t[id])
    ensures !SpentIn(t, t[id].digest) && SpentIn(Consume(t, id, now), t[id].digest)
    ensures SpentIn(RevokeLive(Consume(t, id, now), ids, now), t[id].digest)
  {
    var u := Consume(t, id, now);
    var v := RevokeLive(u, ids, now);
    assert UniqueDigests(t) && UniqueDigests(u) && UniqueDigests(v);
    assert id in u && u[id].digest == t[id].digest && id in v && v[id] == u[id];
  }

  /** A table that still holds the consumed row spent, whatever else was revoked around it. */
  lemma StaysSpent<X>(t: Table<X>, u: Table<X>, digest: Digest)
    requires SpentIn(t, digest) && OneWay(t, u)
    ensures SpentIn(u, digest)
  {
    var id := Lookup(t, digest).value;
    assert id in u && RowOneWay(t[id], u[id]);
    assert UniqueDigests(u);
  }

  lemma SpentForever(db: Db, u: Db, kind: TokenKind, digest: Digest)
    requires Spent(db, kind, digest) && Forward(db, u)
    ensures Spent(u, kind, digest)
  {
    hide UniqueDigests, UniqueCurrent, UniqueTenants, UniqueEmails, UniqueActiveFactor, OneWay, SpentIn;
    match kind
    case VerificationToken => StaysSpent(db.verifications, u.verifications, digest);
    case ResetToken => StaysSpent(db.resets, u.resets, digest);
    case EmailChangeToken => StaysSpent(db.emailChanges, u.emailChanges, digest);
    case RecoveryCode => StaysSpent(db.recoveryCodes, u.recoveryCodes, digest);
    case AttestationToken => StaysSpent(db.attestations, u.attestations, digest);
    case StepUpToken => StaysSpent(db.stepUps, u.stepUps, digest);
    case HandoffToken => StaysSpent(db.handoffs, u.handoffs, digest);
    case InvitationCode =>
      var id := InvitationWithCode(db.invitations, digest).value;
      assert id in u.invitations && u.invitations[id].code == digest;
      assert UniqueCodes(u.invitations);
  }

  lemma RevokedElsewhere(db: Db, account: Id, now: Time, kind: TokenKind, digest: Digest)
    requires Spent(db, kind, digest)
    ensures Spent(EndAccountAuthority(db, account, now), kind, digest)
  {
    hide Spent, Forward, EndAccountAuthority;
    AuthorityForward(db, account, now);
    SpentForever(db, EndAccountAuthority(db, account, now), kind, digest);
  }

  lemma GuardSpends(db: Db, id: Id, stepUp: Option<Digest>, purpose: Purpose, now: Time)
    requires id in db.accountSessions && NeedsStepUp(db, id)
    requires GuardAction(db, db.accountSessions[id].account, id, stepUp, purpose, now).Ok?
    ensures stepUp.Some? && !SpentIn(db.stepUps, stepUp.value)
    ensures SpentIn(GuardAction(db, db.accountSessions[id].account, id, stepUp, purpose, now).value, stepUp.value)
  {
    hide UniqueDigests, UniqueCurrent, UniqueTenants, UniqueCodes, UniqueEmails, UniqueActiveFactor, SpentIn, UseStepUp;
    ConsumedIsSpent(db.stepUps, Lookup(db.stepUps, stepUp.value).value, {}, now);
  }

  lemma PasswordSpends(db: Db, op: Op, x: (TokenKind, Digest))
    requires op.ReplacePasswordOp? && AccountStep(db, op).Ok? && x in Presented(db, op)
    ensures !Spent(db, x.0, x.1) && Spent(AccountStep(db, op).value, x.0, x.1)
  {
    hide UniqueDigests, UniqueCurrent, UniqueTenants, UniqueCodes, UniqueEmails, UniqueActiveFactor, SpentIn;
    hide GuardAction, EndAccountAuthority;
    GuardSpends(db, op.id, op.stepUp, ChangePassword, op.now);
    var account := db.accountSessions[op.id].account;
    var u := db.(stepUps := GuardAction(db, account, op.id, op.stepUp, ChangePassword, op.now).value,
                 credentials := BumpRevision(db.credentials, account),
                 resets := RevokeLive(db.resets, OfAccount(db.resets, account), op.now));
    RevokedElsewhere(u, account, op.now, x.0, x.1);
  }

  lemma ResetSpends(db: Db, op: Op, x: (TokenKind, Digest))
    requires op.ConsumeResetOp? && AccountStep(db, op).Ok? && x in Presented(db, op)
    ensures !Spent(db, x.0, x.1) && Spent(AccountStep(db, op).value, x.0, x.1)
  {
    hide UniqueDigests, UniqueCurrent, UniqueTenants, UniqueCodes, UniqueEmails, UniqueActiveFactor, SpentIn;
    hide EndAccountAuthority;
    var id := Usable(db.resets, op.token, op.now).value;
    var account := db.resets[id].account;
    var ids := OfAccount(Consume(db.resets, id, op.now), account) - {id};
    ConsumedIsSpent(db.resets, id, ids, op.now);
    var u := db.(credentials := BumpRevision(db.credentials, account),
                 resets := RevokeLive(Consume(db.resets, id, op.now), ids, op.now));
    RevokedElsewhere(u, account, op.now, x.0, x.1);
  }

  lemma EmailChangeSpends(db: Db, op: Op, x: (TokenKind, Digest))
    requires op.ConsumeEmailChangeOp? && AccountStep(db, op).Ok? && x in Presented(db, op)
    ensures !Spent(db, x.0, x.1) && Spent(AccountStep(db, op).value, x.0, x.1)
  {
    hide UniqueDigests, UniqueCurrent, UniqueTenants, UniqueCodes, UniqueEmails, UniqueActiveFactor, SpentIn;
    hide EndAccountAuthority;
    var id := Usable(db.emailChanges, op.token, op.now).value;
    var row := db.emailChanges[id];
    var ids := OfAccount(Consume(db.emailChanges, id, op.now), row.account) - {id};
    ConsumedIsSpent(db.emailChanges, id, ids, op.now);
    OnlyHolder(db.emails, row.detail, row.account);
    var u := db.(emails := ReplaceEmail(db.emails, row.account, row.detail, op.now),
                 emailChanges := RevokeLive(Consume(db.emailChanges, id, op.now), ids, op.now));
    RevokedElsewhere(u, row.account, op.now, x.0, x.1);
  }

  lemma AttestationSpends(db: Db, op: Op, x: (TokenKind, Digest))
    requires (op.CompleteEnrollmentOp? || op.ExchangeAttestationOp?) && FactorStep(db, op).Ok? && x in Presented(db, op)
    ensures !Spent(db, x.0, x.1) && Spent(FactorStep(db, op).value, x.0, x.1)
  {
    hide UniqueDigests, UniqueCurrent, UniqueTenants, UniqueCodes, UniqueEmails, UniqueActiveFactor, SpentIn;
    hide UseAttestation, MintStepUp, LoadAccountSession;
    ConsumedIsSpent(db.attestations, Lookup(db.attestations, x.1).value, {}, op.now);
  }

  lemma RecoverySpends(db: Db, op: Op, x: (TokenKind, Digest))
    requires op.ExchangeRecoveryCodeOp? && FactorStep(db, op).Ok? && x in Presented(db, op)
    ensures !Spent(db, x.0, x.1) && Spent(FactorStep(db, op).value, x.0, x.1)
  {
    hide UniqueDigests, UniqueCurrent, UniqueTenants, UniqueCodes, UniqueEmails, UniqueActiveFactor, SpentIn;
    hide MintStepUp, LoadAccountSession;
    ConsumedIsSpent(db.recoveryCodes, Usable(db.recoveryCodes, op.code, op.now).value, {}, op.now);
  }

  lemma StepUpSpends(db: Db, op: Op, x: (TokenKind, Digest))
    requires (op.ConsumeStepUpOp? || op.IssueRecoveryCodesOp?) && FactorStep(db, op).Ok? && x in Presented(db, op)
    ensures !Spent(db, x.0, x.1) && Spent(FactorStep(db, op).value, x.0, x.1)
  {
    hide UniqueDigests, UniqueCurrent, UniqueTenants, UniqueCodes, UniqueEmails, UniqueActiveFactor, SpentIn;
    hide UseStepUp, InsertCodes, LoadAccountSession;
    ConsumedIsSpent(db.stepUps, Lookup(db.stepUps, x.1).value, {}, op.now);
  }

  lemma AddressSpends(db: Db, op: Op, x: (TokenKind, Digest))
    requires (op.VerifyEmailOp? || op.RequestEmailChangeOp?) && AccountStep(db, op).Ok? && x in Presented(db, op)
    ensures !Spent(db, x.0, x.1) && Spent(AccountStep(db, op).value, x.0, x.1)
  {
    hide UniqueDigests, UniqueCurrent, UniqueTenants, UniqueCodes, UniqueEmails, UniqueActiveFactor, SpentIn, GuardAction;
    if op.VerifyEmailOp? {
      ConsumedIsSpent(db.verifications, Usable(db.verifications, op.token, op.now).value, {}, op.now);
    } else {
      GuardSpends(db, op.id, op.stepUp, ChangeEmail, op.now);
    }
  }

  lemma HandoffSpends(db: Db, op: Op, x: (TokenKind, Digest))
    requires op.ConsumeHandoffOp? && MembershipStep(db, op).Ok? && x in Presented(db, op)
    ensures !Spent(db, x.0, x.1) && Spent(MembershipStep(db, op).value, x.0, x.1)
  {
    hide UniqueDigests, UniqueCurrent, UniqueTenants, UniqueCodes, UniqueEmails, UniqueActiveFactor, SpentIn, HandoffGraph;
    ConsumedIsSpent(db.handoffs, Usable(db.handoffs, op.token, op.now).value, {}, op.now);
  }

  lemma RedemptionSpends(db: Db, op: Op, x: (TokenKind, Digest))
    requires op.RedeemInvitationOp? && MembershipStep(db, op).Ok? && x in Presented(db, op)
    ensures !Spent(db, x.0, x.1) && Spent(MembershipStep(db, op).value, x.0, x.1)
  {
    hide UniqueDigests, UniqueCurrent, UniqueTenants, UniqueCodes, UniqueEmails, UniqueActiveFactor, SpentIn, AddHoldings;
    UsedOnce(db.invitations, InvitationWithCode(db.invitations, op.code).value);
  }

  lemma UsedOnce(m: Invitations, id: Id)
    requires id in m
    ensures InvitationWithCode(UseInvitation(m, id), m[id].code) == Some(id)
  {
    var u := UseInvitation(m, id);
    assert UniqueCodes(u);
    assert id in u && u[id].code == m[id].code;
  }

  lemma AccountStepSpends(db: Db, op: Op, x: (TokenKind, Digest))
    requires AboutAccounts(op) && AccountStep(db, op).Ok? && x in Presented(db, op)
    ensures !Spent(db, x.0, x.1) && Spent(AccountStep(db, op).value, x.0, x.1)
  {
    hide Spent, NeedsStepUp, HasCodes, AccountStep;
    match op
    case VerifyEmailOp(_, _) => AddressSpends(db, op, x);
    case ReplacePasswordOp(_, _, _, _, _, _, _, _) => PasswordSpends(db, op, x);
    case ConsumeResetOp(_, _, _, _) => ResetSpends(db, op, x);
    case RequestEmailChangeOp(_, _, _, _, _, _, _, _, _) => AddressSpends(db, op, x);
    case ConsumeEmailChangeOp(_, _) => EmailChangeSpends(db, op, x);
    case _ =>
  }

  lemma FactorStepSpends(db: Db, op: Op, x: (TokenKind, Digest))
    requires AboutFactors(op) && FactorStep(db, op).Ok? && x in Presented(db, op)
    ensures !Spent(db, x.0, x.1) && Spent(FactorStep(db, op).value, x.0, x.1)
  {
    hide Spent, NeedsStepUp, HasCodes, FactorStep;
    match op
    case CompleteEnrollmentOp(_, _, _, _, _, _) => AttestationSpends(db, op, x);
    case IssueRecoveryCodesOp(_, _, _, _, _, _) => StepUpSpends(db, op, x);
    case ExchangeAttestationOp(_, _, _, _, _, _, _, _, _) => AttestationSpends(db, op, x);
    case ExchangeRecoveryCodeOp(_, _, _, _, _, _, _, _) => RecoverySpends(db, op, x);
    case ConsumeStepUpOp(_, _, _, _, _, _) => StepUpSpends(db, op, x);
    case _ =>
  }

  lemma MembershipStepSpends(db: Db, op: Op, x: (TokenKind, Digest))
    requires AboutMemberships(op) && MembershipStep(db, op).Ok? && x in Presented(db, op)
    ensures !Spent(db, x.0, x.1) && Spent(MembershipStep(db, op).value, x.0, x.1)
  {
    hide Spent, NeedsStepUp, HasCodes, MembershipStep;
    match op
    case RedeemInvitationOp(_, _, _, _) => RedemptionSpends(db, op, x);
    case ConsumeHandoffOp(_, _, _, _) => HandoffSpends(db, op, x);
    case _ =>
  }

  /** A token an operation consumes was not spent before, and is spent afterwards. */
  lemma SuccessSpends(db: Db, op: Op, x: (TokenKind, Digest))
    requires Step(db, op).Ok? && x in Presented(db, op)
    ensures !Spent(db, x.0, x.1) && Spent(Step(db, op).value, x.0, x.1)
  {
    hide Spent, NeedsStepUp, HasCodes, AccountStep, FactorStep, DefinitionStep, MembershipStep;
    if AboutAccounts(op) {
      AccountStepSpends(db, op, x);
    } else if AboutFactors(op) {
      FactorStepSpends(db, op, x);
    } else {
      MembershipStepSpends(db, op, x);
    }
  }

  /** Single use: after an operation has consumed a token, no operation that needs that token ever
      succeeds again, whatever ran in between. */
  lemma TokensAreSingleUse(db: Db, op: Op, ops: seq<Op>, again: Op, x: (TokenKind, Digest))
    requires Step(db, op).Ok? && x in Presented(db, op)
    requires x in Presented(After(Step(db, op).value, ops), again)
    ensures Step(After(Step(db, op).value, ops), again).Err?
  {
    hide Step, Spent, Presented, After, Forward;
    var u := Step(db, op).value;
    SuccessSpends(db, op, x);
    RunForward(u, ops);
    SpentForever(u, After(u, ops), x.0, x.1);
    if Step(After(u, ops), again).Ok? { SuccessSpends(After(u, ops), again, x); }
  }

  // ----- versions

  predicate Behind(db: Db, id: Id) {
    && id in db.sessions && db.sessions[id].detail.membership in db.memberships
    && db.sessions[id].detail.authorizationVersion < db.memberships[db.sessions[id].detail.membership].authorizationVersion
  }

  /** A session behind its membership's authorization version never authenticates again. */
  lemma BehindNeverAuthenticates(db: Db, id: Id, ops: seq<Op>, bearer: Digest, now: Time)
    requires Behind(db, id)
    ensures Behind(After(db, ops), id) && Authenticate(After(db, ops), bearer, id, now).Err?
  {
    hide After, UniqueDigests, UniqueCurrent, UniqueTenants, UniqueCodes, UniqueEmails, UniqueActiveFactor;
    hide InvitationsForward;
    RunForward(db, ops);
    var u := After(db, ops);
    assert RowOneWay(db.sessions[id], u.sessions[id]);
    assert MembershipForward(db.memberships[db.sessions[id].detail.membership], u.memberships[db.sessions[id].detail.membership]);
  }

  /** In a reachable state, granting an adapter operation leaves every session the membership
      already had behind, for ever. */
  lemma GrantOutdatesSessions(ops: seq<Op>, grant: Op, id: Id, later: seq<Op>, bearer: Digest, now: Time)
    requires grant.GrantAdapterOp? && MembershipStep(After(EMPTY, ops), grant).Ok?
    requires var db := After(EMPTY, ops); id in db.sessions && db.sessions[id].detail.membership == grant.binding.membership
    ensures var db := MembershipStep(After(EMPTY, ops), grant).value;
            Authenticate(After(db, later), bearer, id, now).Err?
  {
    hide After, UniqueDigests, UniqueCurrent, UniqueTenants, UniqueCodes, UniqueEmails, UniqueActiveFactor, Authenticate;
    hide EntitiesSound, MembershipsSound, LoginsSound, HandoffsSound, StepUpsSound, FactorsSound, InvitationsSound, RegistrySound, HoldersExist, ChallengesSound;
    RunKeeps(ops);
    var db := After(EMPTY, ops);
    assert SessionSound(db.sessions[id], db.accountSessions, db.memberships, db.organizations, db.tenants);
    BehindNeverAuthenticates(MembershipStep(db, grant).value, id, later, bearer, now);
  }

  /** A membership that was suspended, left or revoked is never active again, and no session or
      handoff of it is active in any later state. */
  lemma EndedMembershipStaysEnded(ops: seq<Op>, later: seq<Op>, id: Id)
    requires var db := After(EMPTY, ops); id in db.memberships && db.memberships[id].status != MembershipActive
    ensures var u := After(After(EMPTY, ops), later);
            && id in u.memberships && u.memberships[id].status != MembershipActive
            && (forall s :: s in u.sessions && u.sessions[s].detail.membership == id ==> u.sessions[s].status != Active)
            && (forall h :: h in u.handoffs && u.handoffs[h].detail.membership == id ==> u.handoffs[h].status != Active)
  {
    var db := After(EMPTY, ops);
    RunForward(db, later);
    AfterConcat(EMPTY, ops, later);
    RunKeeps(ops + later);
    hide After, UniqueDigests, UniqueCurrent, UniqueTenants, UniqueCodes, UniqueEmails, UniqueActiveFactor;
    hide EntitiesSound, MembershipsSound, LoginsSound, StepUpsSound, FactorsSound, InvitationsSound, RegistrySound, HoldersExist, ChallengesSound;
    hide InvitationsForward, OneWay;
    var u := After(db, later);
    assert MembershipForward(db.memberships[id], u.memberships[id]);
    forall s | s in u.sessions && u.sessions[s].detail.membership == id ensures u.sessions[s].status != Active {
      assert SessionSound(u.sessions[s], u.accountSessions, u.memberships, u.organizations, u.tenants);
    }
    forall h | h in u.handoffs && u.handoffs[h].detail.membership == id ensures u.handoffs[h].status != Active {
      assert HandoffSound(u.handoffs[h], u.sessions);
    }
  }

  lemma {:induction false} AfterConcat(db: Db, a: seq<Op>, b: seq<Op>)
    ensures After(db, a + b) == After(After(db, a), b)
    decreases |b|
  {
    hide Next;
    if b == [] {
      assert a + b == a;
    } else {
      var n := |b| - 1;
      AfterConcat(db, a, b[..n]);
      assert (a + b)[..|a + b| - 1] == a + b[..n];
    }
  }

  // ----- cutting authority off

  /** Nothing derived from an account's sessions is active. */
  ghost predicate CutOff(db: Db, account: Id) {
    && (forall id :: id in db.accountSessions && db.accountSessions[id].account == account ==> db.accountSessions[id].status != Active)
    && (forall id :: id in db.sessions && db.sessions[id].account == account ==> db.sessions[id].status != Active)
    && (forall id :: id in db.handoffs && db.handoffs[id].account == account ==> db.handoffs[id].status != Active)
    && (forall id :: id in db.stepUps && db.stepUps[id].account == account ==> db.stepUps[id].status != Active)
  }

  lemma NoLoginsMeansCutOff(db: Db, account: Id)
    requires Invariant(db)
    requires forall id :: id in db.accountSessions && db.accountSessions[id].account == account ==> db.accountSessions[id].status != Active
    ensures CutOff(db, account)
  {
    hide UniqueDigests, UniqueCurrent, UniqueTenants, UniqueCodes, UniqueEmails, UniqueActiveFactor;
    hide EntitiesSound, MembershipsSound, LoginsSound, FactorsSound, InvitationsSound, RegistrySound, HoldersExist, ChallengesSound;
    forall id | id in db.sessions && db.sessions[id].account == account ensures db.sessions[id].status != Active {
      assert SessionSound(db.sessions[id], db.accountSessions, db.memberships, db.organizations, db.tenants);
    }
    forall id | id in db.handoffs && db.handoffs[id].account == account ensures db.handoffs[id].status != Active {
      assert HandoffSound(db.handoffs[id], db.sessions);
    }
    forall id | id in db.stepUps && db.stepUps[id].account == account ensures db.stepUps[id].status != Active {
      assert StepUpSound(db.stepUps[id], db.accountSessions);
    }
  }

  /** The account whose credential or address an operation replaces. */
  function AccountOf(db: Db, op: Op): Option<Id> {
    match op
    case ReplacePasswordOp(_, id, _, _, _, _, _, _) =>
      if id in db.accountSessions then Some(db.accountSessions[id].account) else None
    case ConsumeResetOp(token, _, _, _) =>
      var found := Lookup(db.resets, token);
      if found.Some? then Some(db.resets[found.value].account) else None
    case ConsumeEmailChangeOp(token, _) =>
      var found := Lookup(db.emailChanges, token);
      if found.Some? then Some(db.emailChanges[found.value].account) else None
    case _ => None
  }

  lemma EndsEveryLogin(db: Db, account: Id, now: Time)
    requires AllConsistent(db.accountSessions)
    ensures var u := EndAccountAuthority(db, account, now);
            forall id :: id in u.accountSessions && u.accountSessions[id].account == account ==> u.accountSessions[id].status != Active
  {
    hide UniqueDigests, UniqueCurrent, UniqueTenants, UniqueCodes, UniqueEmails, UniqueActiveFactor;
    hide EndSessionsUnder, EndFactorsOfAccount, AllConsistent;
    SameLogins(db, account, now);
    var u := RevokeLive(db.accountSessions, LiveSessionsOf(db.accountSessions, account), now);
    forall id | id in u && u[id].account == account ensures u[id].status != Active {
      OneConsistent(db.accountSessions, id);
    }
  }

  lemma OneConsistent<X>(t: Table<X>, id: Id)
    requires AllConsistent(t) && id in t
    ensures Consistent(t[id])
  {
    hide UniqueDigests;
  }

  lemma SameLogins(db: Db, account: Id, now: Time)
    ensures EndAccountAuthority(db, account, now).accountSessions
         == RevokeLive(db.accountSessions, LiveSessionsOf(db.accountSessions, account), now)
  {
    hide UniqueDigests, UniqueCurrent, UniqueTenants, UniqueCodes, UniqueEmails, UniqueActiveFactor;
  }

  lemma LoginsConsistent(t: Table<LoginDetail>, accounts: map<Id, Account>, credentials: map<Id, Credential>)
    requires LoginsSound(t, accounts, credentials)
    ensures AllConsistent(t)
  {
    hide UniqueDigests;
    forall id | id in t ensures Consistent(t[id]) { assert LoginSound(t[id], accounts, credentials); }
  }

  /** After `EndAccountAuthority` nothing of the account is active, if the outcome is sound. */
  lemma EndedIsCutOff(db: Db, account: Id, now: Time)
    requires AllConsistent(db.accountSessions) && Invariant(EndAccountAuthority(db, account, now))
    ensures CutOff(EndAccountAuthority(db, account, now), account)
  {
    hide Invariant, CutOff, EndAccountAuthority, AllConsistent;
    EndsEveryLogin(db, account, now);
    NoLoginsMeansCutOff(EndAccountAuthority(db, account, now), account);
  }

  /** Replacing a password, by session or by reset token, or changing the address of an account
      ends every account session, organization session, handoff and step-up of that account. */
  lemma ReplacementCutsOff(ops: seq<Op>, op: Op)
    requires op.ReplacePasswordOp? || op.ConsumeResetOp? || op.ConsumeEmailChangeOp?
    requires AccountStep(After(EMPTY, ops), op).Ok?
    ensures AccountOf(After(EMPTY, ops), op).Some?
    ensures CutOff(AccountStep(After(EMPTY, ops), op).value, AccountOf(After(EMPTY, ops), op).value)
  {
    hide After, UniqueDigests, UniqueCurrent, UniqueTenants, UniqueCodes, UniqueEmails, UniqueActiveFactor;
    hide Invariant, CutOff, EndAccountAuthority, AllConsistent, AccountStep, AccountOf;
    RunKeeps(ops);
    var db := After(EMPTY, ops);
    AccountStepKeeps(db, op);
    LoginsAre(db);
    if op.ReplacePasswordOp? {
      PasswordReplaced(db, op);
    } else if op.ConsumeResetOp? {
      PasswordReset(db, op);
    } else {
      AddressChanged(db, op);
    }
  }

  lemma PasswordReplaced(db: Db, op: Op)
    requires op.ReplacePasswordOp? && AccountStep(db, op).Ok? && Invariant(AccountStep(db, op).value)
    requires AllConsistent(db.accountSessions)
    ensures AccountOf(db, op).Some? && CutOff(AccountStep(db, op).value, AccountOf(db, op).value)
  {
    hide UniqueDigests, UniqueCurrent, UniqueTenants, UniqueCodes, UniqueEmails, UniqueActiveFactor;
    hide Invariant, CutOff, EndAccountAuthority, GuardAction, AllConsistent;
    var account := AccountOf(db, op).value;
    var stepUps := GuardAction(db, account, op.id, op.stepUp, ChangePassword, op.now).value;
    EndedIsCutOff(db.(stepUps := stepUps, credentials := BumpRevision(db.credentials, account),
                      resets := RevokeLive(db.resets, OfAccount(db.resets, account), op.now)), account, op.now);
  }

  lemma PasswordReset(db: Db, op: Op)
    requires op.ConsumeResetOp? && AccountStep(db, op).Ok? && Invariant(AccountStep(db, op).value)
    requires AllConsistent(db.accountSessions)
    ensures AccountOf(db, op).Some? && CutOff(AccountStep(db, op).value, AccountOf(db, op).value)
  {
    hide UniqueDigests, UniqueCurrent, UniqueTenants, UniqueCodes, UniqueEmails, UniqueActiveFactor;
    hide Invariant, CutOff, EndAccountAuthority, AllConsistent;
    var account := AccountOf(db, op).value;
    var id := Usable(db.resets, op.token, op.now).value;
    var consumed := Consume(db.resets, id, op.now);
    EndedIsCutOff(db.(credentials := BumpRevision(db.credentials, account),
                      resets := RevokeLive(consumed, OfAccount(consumed, account) - {id}, op.now)), account, op.now);
  }

  lemma AddressChanged(db: Db, op: Op)
    requires op.ConsumeEmailChangeOp? && AccountStep(db, op).Ok? && Invariant(AccountStep(db, op).value)
    requires AllConsistent(db.accountSessions)
    ensures AccountOf(db, op).Some? && CutOff(AccountStep(db, op).value, AccountOf(db, op).value)
  {
    hide UniqueDigests, UniqueCurrent, UniqueTenants, UniqueCodes, UniqueEmails, UniqueActiveFactor;
    hide Invariant, CutOff, EndAccountAuthority, AllConsistent, Consume, RevokeLive, OfAccount, ReplaceEmail;
    var account := AccountOf(db, op).value;
    var id := Usable(db.emailChanges, op.token, op.now).value;
    var row := db.emailChanges[id];
    var consumed := Consume(db.emailChanges, id, op.now);
    OnlyHolder(db.emails, row.detail, row.account);
    EndedIsCutOff(db.(emails := ReplaceEmail(db.emails, account, row.detail, op.now),
                      emailChanges := RevokeLive(consumed, OfAccount(consumed, account) - {id}, op.now)), account, op.now);
  }

  lemma LoginsAre(db: Db)
    requires Invariant(db)
    ensures AllConsistent(db.accountSessions)
  {
    hide UniqueDigests, UniqueCurrent, UniqueTenants, UniqueCodes, UniqueEmails, UniqueActiveFactor;
    hide LoginsSound, SessionsSound, HandoffsSound, StepUpsSound, FactorsSound, EntitiesSound, ChallengesSound;
    LoginsConsistent(db.accountSessions, db.accounts, db.credentials);
  }

  // ----- exactly when derived authority is good

  /** In a reachable state a session authenticates iff it is active, unexpired, presented with its
      own bearer and level with its membership's authorization version: the invariant makes every
      other check of the graph below it, definitions, grants and bindings included, redundant. */
  lemma AuthenticatesIff(ops: seq<Op>, bearer: Digest, id: Id, now: Time)
    ensures var db := After(EMPTY, ops);
            Authenticate(db, bearer, id, now).Ok? <==>
              (&& id in db.sessions && db.sessions[id].digest == bearer && db.sessions[id].status == Active
               && !Past(db.sessions[id], now) && !Behind(db, id))
  {
    hide After, UniqueCurrent, UniqueTenants, UniqueCodes, UniqueEmails, UniqueActiveFactor, ProjectSubject;
    hide HandoffsSound, StepUpsSound, FactorsSound, InvitationsSound, RegistrySound, HoldersExist, ChallengesSound, Behind, Invariant;
    RunKeeps(ops);
    var db := After(EMPTY, ops);
    assert UniqueDigests(db.sessions);
    hide UniqueDigests;
    ProjectsIff(db, id, now);
  }

  lemma ProjectsIff(db: Db, id: Id, now: Time)
    requires Invariant(db)
    ensures ProjectSubject(db, id, now).Ok? <==>
              id in db.sessions && db.sessions[id].status == Active && !Past(db.sessions[id], now) && !Behind(db, id)
  {
    hide UniqueDigests, UniqueCurrent, UniqueTenants, UniqueCodes, UniqueEmails, UniqueActiveFactor;
    hide HandoffsSound, StepUpsSound, FactorsSound, InvitationsSound, RegistrySound, HoldersExist, ChallengesSound;
    if id in db.sessions {
      var row := db.sessions[id];
      assert SessionSound(row, db.accountSessions, db.memberships, db.organizations, db.tenants);
      assert LoginSound(db.accountSessions[row.detail.accountSession], db.accounts, db.credentials);
      SoundHasNoError(db.registry, row.detail.membership);
    }
  }

  /** In a reachable state a handoff can be consumed iff it is active and unexpired, its source
      session is unexpired at both readings of the clock and level with its membership, and it is
      presented by its consumer: an inactive source, parent, membership, credential or definition
      cannot remain behind an active handoff.  Read from right to left this is about a connection
      without an open transaction: a single insert refused earlier leaves SQLite's implicit
      transaction open, and consuming then raises at BEGIN IMMEDIATE, before any check. */
  lemma ConsumesHandoffIff(ops: seq<Op>, token: Digest, consumer: string, now: Time, clock: Time)
    ensures var db := After(EMPTY, ops);
            ConsumeHandoff(db, token, consumer, now, clock).Ok? <==>
              (&& consumer == CONSUMER && Lookup(db.handoffs, token).Some?
               && var h := db.handoffs[Lookup(db.handoffs, token).value];
               && h.status == Active && !Past(h, now) && h.detail.sourceSession in db.sessions
               && !Past(db.sessions[h.detail.sourceSession], now) && !Past(db.sessions[h.detail.sourceSession], clock)
               && !Behind(db, h.detail.sourceSession))
  {
    hide After, UniqueDigests, UniqueCurrent, UniqueTenants, UniqueCodes, UniqueEmails, UniqueActiveFactor;
    hide StepUpsSound, FactorsSound, InvitationsSound, RegistrySound, HoldersExist, ChallengesSound, ProjectSubject, Behind, Invariant, HandoffGraph;
    RunKeeps(ops);
    var db := After(EMPTY, ops);
    var found := Lookup(db.handoffs, token);
    if found.Some? {
      HandoffIsSound(db, found.value);
      if db.handoffs[found.value].status == Active { HandoffGraphIff(db, found.value, now, clock); }
    }
  }

  lemma HandoffIsSound(db: Db, id: Id)
    requires Invariant(db) && id in db.handoffs
    ensures HandoffSound(db.handoffs[id], db.sessions)
  {
    hide UniqueDigests, UniqueCurrent, UniqueTenants, UniqueCodes, UniqueEmails, UniqueActiveFactor, HandoffSound;
  }

  lemma HandoffGraphIff(db: Db, id: Id, now: Time, clock: Time)
    requires Invariant(db) && id in db.handoffs && db.handoffs[id].status == Active
    ensures HandoffGraph(db, db.handoffs[id], now, clock).Ok? <==>
              (var source := db.handoffs[id].detail.sourceSession;
               source in db.sessions && !Past(db.sessions[source], now) && !Past(db.sessions[source], clock)
               && !Behind(db, source))
  {
    hide UniqueDigests, UniqueCurrent, UniqueTenants, UniqueCodes, UniqueEmails, UniqueActiveFactor;
    hide StepUpsSound, FactorsSound, InvitationsSound, RegistrySound, HoldersExist, ChallengesSound, ProjectSubject;
    var h := db.handoffs[id];
    assert HandoffSound(h, db.sessions);
    var source := h.detail.sourceSession;
    assert SessionSound(db.sessions[source], db.accountSessions, db.memberships, db.organizations, db.tenants);
    assert LoginSound(db.accountSessions[db.sessions[source].detail.accountSession], db.accounts, db.credentials);
    ProjectsIff(db, source, clock);
  }
}
