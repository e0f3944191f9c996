/** Rows of the predecessor store move one way only (store.py): every operation, and so every run,
    leaves consumed and revoked rows as they are. */
module StoreForward {
  import opened Wrappers
  import opened StoreTables
  import opened StoreRegistry
  import opened StoreSpec

  // ----- one-way rows

  /** A membership keeps its identity and organization, its version never falls, and once it is
      not active it never is again. */
  predicate MembershipForward(a: Membership, b: Membership) {
    && a.identity == b.identity && a.organization == b.organization
    && a.authorizationVersion <= b.authorizationVersion
    && (a.status != MembershipActive ==> b.status != MembershipActive)
  }

  ghost predicate MembershipsForward(m: map<Id, Membership>, n: map<Id, Membership>) {
    forall id :: id in m ==> id in n && MembershipForward(m[id], n[id])
  }

  /** An invitation is used once, and keeps every other column. */
  predicate InvitationForward(a: Invitation, b: Invitation) {
    b == a || (a.active && b == a.(consumedUses := a.consumedUses + 1, active := false))
  }

  ghost predicate InvitationsForward(m: map<Id, Invitation>, n: map<Id, Invitation>) {
    forall id :: id in m ==> id in n && InvitationForward(m[id], n[id])
  }

  ghost predicate Forward(db: Db, u: Db) {
    && MembershipsForward(db.memberships, u.memberships) && InvitationsForward(db.invitations, u.invitations)
    && OneWay(db.verifications, u.verifications) && OneWay(db.resets, u.resets)
    && OneWay(db.emailChanges, u.emailChanges) && OneWay(db.recoveryCodes, u.recoveryCodes)
    && OneWay(db.attestations, u.attestations) && OneWay(db.stepUps, u.stepUps)
    && OneWay(db.accountSessions, u.accountSessions) && OneWay(db.sessions, u.sessions)
    && OneWay(db.handoffs, u.handoffs)
  }

  lemma Unmoved(db: Db)
    ensures Forward(db, db)
  {
    hide UniqueDigests, UniqueCurrent, UniqueTenants, UniqueCodes, UniqueEmails, UniqueActiveFactor;
  }

  lemma ForwardTransitive(a: Db, b: Db, c: Db)
    requires Forward(a, b) && Forward(b, c)
    ensures Forward(a, c)
  {
    hide OneWay, UniqueDigests, UniqueCurrent, UniqueTenants, UniqueCodes, UniqueEmails, UniqueActiveFactor;
    OneWayTransitive(a.verifications, b.verifications, c.verifications);
    OneWayTransitive(a.resets, b.resets, c.resets);
    OneWayTransitive(a.emailChanges, b.emailChanges, c.emailChanges);
    OneWayTransitive(a.recoveryCodes, b.recoveryCodes, c.recoveryCodes);
    OneWayTransitive(a.attestations, b.attestations, c.attestations);
    OneWayTransitive(a.stepUps, b.stepUps, c.stepUps);
    OneWayTransitive(a.accountSessions, b.accountSessions, c.accountSessions);
    OneWayTransitive(a.sessions, b.sessions, c.sessions);
    OneWayTransitive(a.handoffs, b.handoffs, c.handoffs);
  }

  lemma InsertForward<X>(t: Table<X>, id: Id, row: Row<X>)
    requires Insert(t, id, row).Ok?
    ensures OneWay(t, Insert(t, id, row).value)
  {
    hide UniqueDigests;
  }

  lemma ConsumeForward<X>(t: Table<X>, id: Id, now: Time)
    requires id in t && Live(t[id])
    ensures OneWay(t, Consume(t, id, now))
  {
    hide UniqueDigests;
  }

  lemma RevokeForward<X>(t: Table<X>, ids: set<Id>, now: Time)
    ensures OneWay(t, RevokeLive(t, ids, now)) && OneWay(t, RevokeActive(t, ids, now))
  {
    hide UniqueDigests;
  }

  lemma ReplaceForward<X>(t: Table<X>, ids: set<Id>, id: Id, row: Row<X>, now: Time)
    requires Insert(RevokeLive(t, ids, now), id, row).Ok?
    ensures OneWay(t, Insert(RevokeLive(t, ids, now), id, row).value)
  {
    hide OneWay, UniqueDigests;
    RevokeForward(t, ids, now);
    InsertForward(RevokeLive(t, ids, now), id, row);
    OneWayTransitive(t, RevokeLive(t, ids, now), Insert(RevokeLive(t, ids, now), id, row).value);
  }

  lemma ConsumeClearForward<X>(t: Table<X>, id: Id, ids: set<Id>, now: Time)
    requires id in t && Live(t[id])
    ensures OneWay(t, RevokeLive(Consume(t, id, now), ids, now))
  {
    hide OneWay, UniqueDigests;
    ConsumeForward(t, id, now);
    RevokeForward(Consume(t, id, now), ids, now);
    OneWayTransitive(t, Consume(t, id, now), RevokeLive(Consume(t, id, now), ids, now));
  }

  lemma {:induction false} InsertCodesForward(t: Table<()>, codes: seq<Fresh>, account: Id)
    requires InsertCodes(t, codes, account).Ok?
    ensures OneWay(t, InsertCodes(t, codes, account).value)
    decreases |codes|
  {
    hide UniqueDigests;
    if codes != [] {
      var n := |codes| - 1;
      var before := InsertCodes(t, codes[..n], account).value;
      InsertCodesForward(t, codes[..n], account);
      hide OneWay;
      InsertForward(before, codes[n].id, NewRow(codes[n].digest, account, None, ()));
      OneWayTransitive(t, before, InsertCodes(t, codes, account).value);
    }
  }

  lemma GuardForward(db: Db, account: Id, accountSession: Id, stepUp: Option<Digest>, purpose: Purpose, now: Time)
    requires GuardAction(db, account, accountSession, stepUp, purpose, now).Ok?
    ensures OneWay(db.stepUps, GuardAction(db, account, accountSession, stepUp, purpose, now).value)
  {
    hide UniqueDigests, UniqueCurrent, UniqueTenants, UniqueCodes, UniqueEmails, UniqueActiveFactor, OneWay, UseStepUp;
    if ActiveAuthenticator(db.authenticators, account).Some? {
      ConsumeForward(db.stepUps, Lookup(db.stepUps, stepUp.value).value, now);
    } else {
      Unmoved(db);
    }
  }

  lemma AuthorityForward(db: Db, account: Id, now: Time)
    ensures Forward(db, EndAccountAuthority(db, account, now))
  {
    hide UniqueDigests, UniqueCurrent, UniqueTenants, UniqueCodes, UniqueEmails, UniqueActiveFactor, OneWay;
    hide MembershipsForward, InvitationsForward;
    Unmoved(db);
    var parents := LiveSessionsOf(db.accountSessions, account);
    var below := Under(db.sessions, parents);
    RevokeForward(db.accountSessions, parents, now);
    RevokeForward(db.sessions, below, now);
    RevokeForward(db.handoffs, From(db.handoffs, RevokedAmong(RevokeActive(db.sessions, below, now), below)), now);
    RevokeForward(db.attestations, OfAccount(db.attestations, account), now);
    RevokeForward(db.stepUps, OfAccount(db.stepUps, account), now);
  }

  lemma AccountsForward(db: Db, op: Op)
    requires (op.SignupOp? || op.VerifyEmailOp?) && AccountStep(db, op).Ok?
    ensures Forward(db, AccountStep(db, op).value)
  {
    hide UniqueDigests, UniqueCurrent, UniqueTenants, UniqueCodes, UniqueEmails, UniqueActiveFactor, OneWay;
    hide MembershipsForward, InvitationsForward;
    Unmoved(db);
    if op.SignupOp? {
      InsertForward(db.verifications, op.n.id, NewRow(op.n.digest, op.account, Some(op.now + op.ttl as real), ()));
    } else {
      ConsumeForward(db.verifications, Usable(db.verifications, op.token, op.now).value, op.now);
    }
  }

  lemma FactorsForward(db: Db, op: Op)
    requires (op.BeginEnrollmentOp? || op.FileAttestationOp?) && FactorStep(db, op).Ok?
    ensures Forward(db, FactorStep(db, op).value)
  {
    hide UniqueDigests, UniqueCurrent, UniqueTenants, UniqueCodes, UniqueEmails, UniqueActiveFactor, OneWay;
    hide MembershipsForward, InvitationsForward, LoadAccountSession;
    Unmoved(db);
    if op.FileAttestationOp? {
      InsertForward(db.attestations, op.n.id, NewRow(op.n.digest, op.account, Some(op.expiresAt), op.detail));
    }
  }

  lemma LoginForward(db: Db, op: Op)
    requires (op.LoginOp? || op.IssueResetOp?) && AccountStep(db, op).Ok?
    ensures Forward(db, AccountStep(db, op).value)
  {
    hide UniqueDigests, UniqueCurrent, UniqueTenants, UniqueCodes, UniqueEmails, UniqueActiveFactor, OneWay;
    hide MembershipsForward, InvitationsForward;
    Unmoved(db);
    var account := AccountWithEmail(db.emails, op.email).value;
    if op.LoginOp? {
      InsertForward(db.accountSessions, op.n.id, NewRow(op.n.digest, account, Some(op.now + op.ttl as real),
        LoginDetail(db.accounts[account].identity, db.credentials[account].revision)));
    } else {
      ReplaceForward(db.resets, OfAccount(db.resets, account), op.n.id,
                     NewRow(op.n.digest, account, Some(op.now + op.ttl as real), ()), op.now);
    }
  }

  /** These operations touch none of the one-way tables. */
  lemma CreationForward(db: Db, op: Op)
    requires AboutDefinitions(op) && DefinitionStep(db, op).Ok?
    ensures Forward(db, DefinitionStep(db, op).value)
  {
    hide UniqueDigests, UniqueCurrent, UniqueTenants, UniqueCodes, UniqueEmails, UniqueActiveFactor, OneWay;
    hide MembershipsForward, InvitationsForward;
    Unmoved(db);
  }

  lemma SignoutForward(db: Db, op: Op)
    requires op.SignoutOp? && AccountStep(db, op).Ok?
    ensures Forward(db, AccountStep(db, op).value)
  {
    hide UniqueDigests, UniqueCurrent, UniqueTenants, UniqueCodes, UniqueEmails, UniqueActiveFactor, OneWay;
    hide MembershipsForward, InvitationsForward, LoadAccountSession;
    Unmoved(db);
    var below := Under(db.sessions, {op.id});
    RevokeForward(db.accountSessions, {op.id}, op.now);
    RevokeForward(db.sessions, below, op.now);
    RevokeForward(db.handoffs, From(db.handoffs, RevokedAmong(RevokeActive(db.sessions, below, op.now), below)), op.now);
    RevokeForward(db.attestations, OfSession(db.attestations, op.id), op.now);
    RevokeForward(db.stepUps, OfSession(db.stepUps, op.id), op.now);
  }

  lemma ReplacePasswordForward(db: Db, op: Op)
    requires op.ReplacePasswordOp? && AccountStep(db, op).Ok?
    ensures Forward(db, AccountStep(db, op).value)
  {
    hide UniqueDigests, UniqueCurrent, UniqueTenants, UniqueCodes, UniqueEmails, UniqueActiveFactor, OneWay;
    hide MembershipsForward, InvitationsForward, GuardAction, EndAccountAuthority;
    Unmoved(db);
    var account := db.accountSessions[op.id].account;
    GuardForward(db, account, op.id, op.stepUp, ChangePassword, op.now);
    RevokeForward(db.resets, OfAccount(db.resets, account), op.now);
    var u := db.(stepUps := GuardAction(db, account, op.id, op.stepUp, ChangePassword, op.now).value,
                 credentials := BumpRevision(db.credentials, account),
                 resets := RevokeLive(db.resets, OfAccount(db.resets, account), op.now));
    AuthorityForward(u, account, op.now);
    ForwardTransitive(db, u, AccountStep(db, op).value);
  }

  lemma ConsumeResetForward(db: Db, op: Op)
    requires op.ConsumeResetOp? && AccountStep(db, op).Ok?
    ensures Forward(db, AccountStep(db, op).value)
  {
    hide UniqueDigests, UniqueCurrent, UniqueTenants, UniqueCodes, UniqueEmails, UniqueActiveFactor, OneWay;
    hide MembershipsForward, InvitationsForward, EndAccountAuthority;
    Unmoved(db);
    var id := Usable(db.resets, op.token, op.now).value;
    var account := db.resets[id].account;
    var consumed := Consume(db.resets, id, op.now);
    var ids := OfAccount(consumed, account) - {id};
    ConsumeClearForward(db.resets, id, ids, op.now);
    var u := db.(credentials := BumpRevision(db.credentials, account), resets := RevokeLive(consumed, ids, op.now));
    AuthorityForward(u, account, op.now);
    ForwardTransitive(db, u, AccountStep(db, op).value);
  }

  lemma ConsumeEmailChangeForward(db: Db, op: Op)
    requires op.ConsumeEmailChangeOp? && AccountStep(db, op).Ok?
    ensures Forward(db, AccountStep(db, op).value)
  {
    hide UniqueDigests, UniqueCurrent, UniqueTenants, UniqueCodes, UniqueEmails, UniqueActiveFactor, OneWay;
    hide MembershipsForward, InvitationsForward, EndAccountAuthority;
    Unmoved(db);
    var id := Usable(db.emailChanges, op.token, op.now).value;
    var row := db.emailChanges[id];
    var consumed := Consume(db.emailChanges, id, op.now);
    var ids := OfAccount(consumed, row.account) - {id};
    ConsumeClearForward(db.emailChanges, id, ids, op.now);
    OnlyHolder(db.emails, row.detail, row.account);
    var u := db.(emails := ReplaceEmail(db.emails, row.account, row.detail, op.now),
                 emailChanges := RevokeLive(consumed, ids, op.now));
    AuthorityForward(u, row.account, op.now);
    ForwardTransitive(db, u, AccountStep(db, op).value);
  }

  lemma FactorUseForward(db: Db, op: Op)
    requires (op.CompleteEnrollmentOp? || op.ConsumeStepUpOp?) && FactorStep(db, op).Ok?
    ensures Forward(db, FactorStep(db, op).value)
  {
    hide UniqueDigests, UniqueCurrent, UniqueTenants, UniqueCodes, UniqueEmails, UniqueActiveFactor, OneWay;
    hide MembershipsForward, InvitationsForward, UseAttestation, UseStepUp, LoadAccountSession;
    Unmoved(db);
    if op.CompleteEnrollmentOp? {
      ConsumeForward(db.attestations, Lookup(db.attestations, op.attestation).value, op.now);
    } else {
      ConsumeForward(db.stepUps, Lookup(db.stepUps, op.token).value, op.now);
    }
  }

  lemma MintForward(t: Table<FactorDetail>, n: Fresh, account: Id, detail: FactorDetail, ttl: int, now: Time)
    requires MintStepUp(t, n, account, detail, ttl, now).Ok?
    ensures OneWay(t, MintStepUp(t, n, account, detail, ttl, now).value)
  {
    hide UniqueDigests, OneWay;
    InsertForward(t, n.id, NewRow(n.digest, account, Some(now + ttl as real), detail));
  }

  lemma ExchangeForward(db: Db, op: Op)
    requires (op.ExchangeAttestationOp? || op.ExchangeRecoveryCodeOp?) && FactorStep(db, op).Ok?
    ensures Forward(db, FactorStep(db, op).value)
  {
    hide UniqueDigests, UniqueCurrent, UniqueTenants, UniqueCodes, UniqueEmails, UniqueActiveFactor, OneWay;
    hide MembershipsForward, InvitationsForward, UseAttestation, LoadAccountSession, MintStepUp;
    Unmoved(db);
    var account := db.accountSessions[op.id].account;
    var factor := ActiveAuthenticator(db.authenticators, account).value;
    MintForward(db.stepUps, op.n, account, FactorDetail(op.id, factor, op.purpose), op.ttl, op.now);
    if op.ExchangeAttestationOp? {
      ConsumeForward(db.attestations, Lookup(db.attestations, op.token).value, op.now);
    } else {
      ConsumeForward(db.recoveryCodes, Usable(db.recoveryCodes, op.code, op.now).value, op.now);
    }
  }

  lemma IssueRecoveryCodesForward(db: Db, op: Op)
    requires op.IssueRecoveryCodesOp? && FactorStep(db, op).Ok?
    ensures Forward(db, FactorStep(db, op).value)
  {
    hide UniqueDigests, UniqueCurrent, UniqueTenants, UniqueCodes, UniqueEmails, UniqueActiveFactor, OneWay;
    hide MembershipsForward, InvitationsForward, UseStepUp, InsertCodes;
    Unmoved(db);
    var account := db.accountSessions[op.id].account;
    if HasCodes(db.recoveryCodes, account) {
      ConsumeForward(db.stepUps, Lookup(db.stepUps, op.stepUp.value).value, op.now);
    }
    var cleared := RevokeLive(db.recoveryCodes, OfAccount(db.recoveryCodes, account), op.now);
    RevokeForward(db.recoveryCodes, OfAccount(db.recoveryCodes, account), op.now);
    InsertCodesForward(cleared, op.codes, account);
    OneWayTransitive(db.recoveryCodes, cleared, InsertCodes(cleared, op.codes, account).value);
  }

  lemma RequestEmailChangeForward(db: Db, op: Op)
    requires op.RequestEmailChangeOp? && AccountStep(db, op).Ok?
    ensures Forward(db, AccountStep(db, op).value)
  {
    hide UniqueDigests, UniqueCurrent, UniqueTenants, UniqueCodes, UniqueEmails, UniqueActiveFactor, OneWay;
    hide MembershipsForward, InvitationsForward, GuardAction;
    Unmoved(db);
    var account := db.accountSessions[op.id].account;
    GuardForward(db, account, op.id, op.stepUp, ChangeEmail, op.now);
    ReplaceForward(db.emailChanges, OfAccount(db.emailChanges, account), op.n.id,
                   NewRow(op.n.digest, account, Some(op.now + op.ttl as real), op.email), op.now);
  }

  lemma IssueInvitationForward(db: Db, op: Op)
    requires op.IssueInvitationOp? && MembershipStep(db, op).Ok?
    ensures Forward(db, MembershipStep(db, op).value)
  {
    hide UniqueDigests, UniqueCurrent, UniqueTenants, UniqueCodes, UniqueEmails, UniqueActiveFactor, OneWay;
    hide MembershipsForward, ActiveDefinition;
    Unmoved(db);
  }

  lemma RedeemInvitationForward(db: Db, op: Op)
    requires op.RedeemInvitationOp? && MembershipStep(db, op).Ok?
    ensures Forward(db, MembershipStep(db, op).value)
  {
    hide UniqueDigests, UniqueCurrent, UniqueTenants, UniqueCodes, UniqueEmails, UniqueActiveFactor, OneWay, AddHoldings;
    Unmoved(db);
  }

  lemma GrantAdapterForward(db: Db, op: Op)
    requires op.GrantAdapterOp? && MembershipStep(db, op).Ok?
    ensures Forward(db, MembershipStep(db, op).value)
  {
    hide UniqueDigests, UniqueCurrent, UniqueTenants, UniqueCodes, UniqueEmails, UniqueActiveFactor, OneWay;
    hide InvitationsForward, AddBinding;
    Unmoved(db);
  }

  lemma EndMembershipForward(db: Db, op: Op)
    requires op.EndMembershipOp? && MembershipStep(db, op).Ok?
    ensures Forward(db, MembershipStep(db, op).value)
  {
    hide UniqueDigests, UniqueCurrent, UniqueTenants, UniqueCodes, UniqueEmails, UniqueActiveFactor, OneWay;
    hide InvitationsForward;
    Unmoved(db);
    var below := InMembership(db.sessions, op.id);
    RevokeForward(db.sessions, below, op.now);
    RevokeForward(db.handoffs, From(db.handoffs, RevokedAmong(RevokeLive(db.sessions, below, op.now), below)), op.now);
  }

  lemma DeriveForward(db: Db, op: Op)
    requires (op.DeriveSessionOp? || op.IssueHandoffOp?) && MembershipStep(db, op).Ok?
    ensures Forward(db, MembershipStep(db, op).value)
  {
    hide UniqueDigests, UniqueCurrent, UniqueTenants, UniqueCodes, UniqueEmails, UniqueActiveFactor, OneWay;
    hide MembershipsForward, InvitationsForward, Authenticate, LoadAccountSession;
    Unmoved(db);
    if op.DeriveSessionOp? {
      InsertForward(db.sessions, op.n.id, MembershipStep(db, op).value.sessions[op.n.id]);
    } else {
      InsertForward(db.handoffs, op.n.id, MembershipStep(db, op).value.handoffs[op.n.id]);
    }
  }

  lemma SettleForward(db: Db, op: Op)
    requires (op.ConsumeHandoffOp? || op.RevokeHandoffOp?) && MembershipStep(db, op).Ok?
    ensures Forward(db, MembershipStep(db, op).value)
  {
    hide UniqueDigests, UniqueCurrent, UniqueTenants, UniqueCodes, UniqueEmails, UniqueActiveFactor, OneWay;
    hide MembershipsForward, InvitationsForward, HandoffGraph;
    Unmoved(db);
    if op.ConsumeHandoffOp? {
      ConsumeForward(db.handoffs, Usable(db.handoffs, op.token, op.now).value, op.now);
    } else {
      RevokeForward(db.handoffs, {op.id}, op.now);
    }
  }

  lemma AccountStepForward(db: Db, op: Op)
    requires AboutAccounts(op) && AccountStep(db, op).Ok?
    ensures Forward(db, AccountStep(db, op).value)
  {
    hide Forward, AccountStep;
    match op
    case SignupOp(_, _, _, _, _, _) => AccountsForward(db, op);
    case VerifyEmailOp(_, _) => AccountsForward(db, op);
    case LoginOp(_, _, _, _, _) => LoginForward(db, op);
    case SignoutOp(_, _, _, _) => SignoutForward(db, op);
    case ReplacePasswordOp(_, _, _, _, _, _, _, _) => ReplacePasswordForward(db, op);
    case IssueResetOp(_, _, _, _) => LoginForward(db, op);
    case ConsumeResetOp(_, _, _, _) => ConsumeResetForward(db, op);
    case RequestEmailChangeOp(_, _, _, _, _, _, _, _, _) => RequestEmailChangeForward(db, op);
    case ConsumeEmailChangeOp(_, _) => ConsumeEmailChangeForward(db, op);
  }

  lemma FactorStepForward(db: Db, op: Op)
    requires AboutFactors(op) && FactorStep(db, op).Ok?
    ensures Forward(db, FactorStep(db, op).value)
  {
    hide Forward, FactorStep;
    match op
    case BeginEnrollmentOp(_, _, _, _, _, _) => FactorsForward(db, op);
    case CompleteEnrollmentOp(_, _, _, _, _, _) => FactorUseForward(db, op);
    case IssueRecoveryCodesOp(_, _, _, _, _, _) => IssueRecoveryCodesForward(db, op);
    case ExchangeAttestationOp(_, _, _, _, _, _, _, _, _) => ExchangeForward(db, op);
    case ExchangeRecoveryCodeOp(_, _, _, _, _, _, _, _) => ExchangeForward(db, op);
    case ConsumeStepUpOp(_, _, _, _, _, _) => FactorUseForward(db, op);
    case FileAttestationOp(_, _, _, _) => FactorsForward(db, op);
  }

  lemma MembershipStepForward(db: Db, op: Op)
    requires AboutMemberships(op) && MembershipStep(db, op).Ok?
    ensures Forward(db, MembershipStep(db, op).value)
  {
    hide Forward, MembershipStep;
    if op.IssueInvitationOp? {
      IssueInvitationForward(db, op);
    } else if op.RedeemInvitationOp? {
      RedeemInvitationForward(db, op);
    } else if op.GrantAdapterOp? {
      GrantAdapterForward(db, op);
    } else if op.EndMembershipOp? {
      EndMembershipForward(db, op);
    } else if op.DeriveSessionOp? {
      DeriveForward(db, op);
    } else if op.IssueHandoffOp? {
      DeriveForward(db, op);
    } else if op.ConsumeHandoffOp? {
      SettleForward(db, op);
    } else {
      SettleForward(db, op);
    }
  }

  /** Every operation moves every row forward only. */
  lemma StepForward(db: Db, op: Op)
    ensures Forward(db, Next(db, op))
  {
    hide Forward, AccountStep, FactorStep, DefinitionStep, MembershipStep;
    if Step(db, op).Err? {
      Unmoved(db);
    } else if AboutAccounts(op) {
      AccountStepForward(db, op);
    } else if AboutFactors(op) {
      FactorStepForward(db, op);
    } else if AboutDefinitions(op) {
      CreationForward(db, op);
    } else {
      MembershipStepForward(db, op);
    }
  }

  /** Every run moves every row forward only: nothing consumed or revoked is ever active again,
      and no other column of a token, session or handoff ever changes. */
  lemma {:induction false} RunForward(db: Db, ops: seq<Op>)
    ensures Forward(db, After(db, ops))
    decreases |ops|
  {
    hide Next, Forward;
    if ops == [] {
      Unmoved(db);
    } else {
      var n := |ops| - 1;
      RunForward(db, ops[..n]);
      StepForward(After(db, ops[..n]), ops[n]);
      ForwardTransitive(db, After(db, ops[..n]), After(db, ops));
    }
  }
}
