/** What is issued can be used (store.py): each token, session and handoff the predecessor store
    hands out is good exactly until it expires, in the very next step. */
module StoreRoundTrips {
  import opened Wrappers
  import opened Selection
  import opened StoreTables
  import opened StoreRegistry
  import opened StoreSpec
  import opened StoreInvariants
  import opened StoreProofs
  import opened StoreForward
  import opened StoreTheorems

  /** A row just inserted is found again by its digest, and is usable until it expires. */
  lemma InsertedIsUsable<X>(t: Table<X>, n: Fresh, account: Id, expiresAt: Time, detail: X, now: Time)
    requires Insert(t, n.id, NewRow(n.digest, account, Some(expiresAt), detail)).Ok?
    ensures var u := Insert(t, n.id, NewRow(n.digest, account, Some(expiresAt), detail)).value;
            && Lookup(u, n.digest) == Some(n.id) && n.id in u && u[n.id] == NewRow(n.digest, account, Some(expiresAt), detail)
            && Usable(u, n.digest, now) == (if now < expiresAt then Ok(n.id) else Err(Expired))
  {
    var u := Insert(t, n.id, NewRow(n.digest, account, Some(expiresAt), detail)).value;
    assert n.id in u && u[n.id].digest == n.digest;
    assert UniqueDigests(u);
  }

  /** The verification token of a new account works exactly until it expires, and no other
      account is touched by using it. */
  lemma SignupThenVerify(db: Db, signup: Op, later: Time)
    requires signup.SignupOp? && AccountStep(db, signup).Ok?
    ensures var u := AccountStep(db, signup).value;
            && (AccountStep(u, VerifyEmailOp(signup.n.digest, later)).Ok? <==> later < signup.now + signup.ttl as real)
            && (AccountStep(u, VerifyEmailOp(signup.n.digest, later)).Ok? ==>
                  var v := AccountStep(u, VerifyEmailOp(signup.n.digest, later)).value;
                  v.emails == db.emails[signup.account := EmailRow(signup.email, Some(later), true)])
  {
    hide UniqueDigests, UniqueCurrent, UniqueTenants, UniqueCodes, UniqueEmails, UniqueActiveFactor, AccountStep;
    SignedUp(db, signup);
    InsertedIsUsable(db.verifications, signup.n, signup.account, signup.now + signup.ttl as real, (), later);
    VerifyIs(AccountStep(db, signup).value, signup.n.id, signup.n.digest, later);
  }

  lemma SignedUp(db: Db, signup: Op)
    requires signup.SignupOp? && AccountStep(db, signup).Ok?
    ensures var u := AccountStep(db, signup).value;
            var row := NewRow(signup.n.digest, signup.account, Some(signup.now + signup.ttl as real), ());
            && Insert(db.verifications, signup.n.id, row) == Ok(u.verifications)
            && u.emails == db.emails[signup.account := EmailRow(signup.email, None, false)]
  {
    hide UniqueDigests, UniqueCurrent, UniqueTenants, UniqueCodes, UniqueEmails, UniqueActiveFactor;
  }

  lemma VerifyIs(db: Db, id: Id, token: Digest, now: Time)
    requires id in db.verifications && db.verifications[id].account in db.emails
    requires var e := db.emails[db.verifications[id].account]; !e.active && e.verifiedAt.None?
    requires Usable(db.verifications, token, now).Ok? ==> Usable(db.verifications, token, now).value == id
    ensures var verify := AccountStep(db, VerifyEmailOp(token, now));
            var account := db.verifications[id].account;
            && (verify.Ok? <==> Usable(db.verifications, token, now).Ok?)
            && (verify.Ok? ==> verify.value.emails == db.emails[account := EmailRow(db.emails[account].email, Some(now), true)])
  {
    hide UniqueDigests, UniqueCurrent, UniqueTenants, UniqueCodes, UniqueEmails, UniqueActiveFactor;
  }

  /** The only account with an address is the one found by it. */
  lemma FoundByEmail(m: Emails, account: Id)
    requires account in m
    ensures AccountWithEmail(m, m[account].email) == Some(account)
  {
    assert UniqueEmails(m);
  }

  /** In a reachable state the owner of a verified address logs in with the right password, and the
      account session is good exactly until it expires. */
  lemma LoginIsGood(ops: seq<Op>, account: Id, n: Fresh, ttl: int, now: Time, later: Time)
    requires var db := After(EMPTY, ops); account in db.emails && Verified(db.emails[account]) && account in db.credentials
    requires ttl >= 1
    requires var db := After(EMPTY, ops); n.id !in db.accountSessions && Lookup(db.accountSessions, n.digest).None?
    ensures var db := After(EMPTY, ops);
            var login := LoginOp(db.emails[account].email, true, n, ttl, now);
            && AccountStep(db, login).Ok?
            && (LoadAccountSession(AccountStep(db, login).value, n.digest, n.id, later).Ok? <==> later < now + ttl as real)
  {
    hide After, UniqueDigests, UniqueCurrent, UniqueTenants, UniqueCodes, UniqueEmails, UniqueActiveFactor;
    hide MembershipsSound, LoginsSound, SessionsSound, HandoffsSound, StepUpsSound, FactorsSound, InvitationsSound, RegistrySound, HoldersExist;
    hide ChallengesSound;
    RunKeeps(ops);
    FoundByEmail(After(EMPTY, ops).emails, account);
  }

  /** A reset token resets the password exactly until it expires, given an acceptable new password. */
  lemma IssueThenReset(db: Db, issue: Op, later: Time)
    requires issue.IssueResetOp? && AccountStep(db, issue).Ok?
    ensures var u := AccountStep(db, issue).value;
            AccountStep(u, ConsumeResetOp(issue.n.digest, true, false, later)).Ok? <==> later < issue.now + issue.ttl as real
  {
    hide UniqueDigests, UniqueCurrent, UniqueTenants, UniqueCodes, UniqueEmails, UniqueActiveFactor, EndAccountAuthority;
    var account := AccountWithEmail(db.emails, issue.email).value;
    var cleared := RevokeLive(db.resets, OfAccount(db.resets, account), issue.now);
    InsertedIsUsable(cleared, issue.n, account, issue.now + issue.ttl as real, (), later);
  }

  /** An email-change token moves the account to the proposed address exactly until it expires. */
  lemma RequestThenChange(db: Db, request: Op, later: Time)
    requires request.RequestEmailChangeOp? && AccountStep(db, request).Ok?
    ensures var u := AccountStep(db, request).value;
            var change := AccountStep(u, ConsumeEmailChangeOp(request.n.digest, later));
            && (change.Ok? <==> later < request.now + request.ttl as real)
            && (change.Ok? ==>
                  var account := db.accountSessions[request.id].account;
                  change.value.emails == db.emails[account := EmailRow(request.email, Some(later), true)])
  {
    hide UniqueDigests, UniqueCurrent, UniqueTenants, UniqueCodes, UniqueEmails, UniqueActiveFactor, EndAccountAuthority, AccountStep;
    Requested(db, request);
    var account := db.accountSessions[request.id].account;
    var cleared := RevokeLive(db.emailChanges, OfAccount(db.emailChanges, account), request.now);
    InsertedIsUsable(cleared, request.n, account, request.now + request.ttl as real, request.email, later);
    var u := AccountStep(db, request).value;
    ChangeIs(u, request.n.id, request.n.digest, later);
    if later < request.now + request.ttl as real {
      AuthorityKeepsEmails(ChangedAddress(u, request.n.id, later), account, later);
    }
  }

  lemma Requested(db: Db, request: Op)
    requires request.RequestEmailChangeOp? && AccountStep(db, request).Ok?
    ensures request.id in db.accountSessions
    ensures var u := AccountStep(db, request).value;
            var account := db.accountSessions[request.id].account;
            var cleared := RevokeLive(db.emailChanges, OfAccount(db.emailChanges, account), request.now);
            var row := NewRow(request.n.digest, account, Some(request.now + request.ttl as real), request.email);
            && u.emails == db.emails && account in db.emails && Verified(db.emails[account])
            && AccountWithEmail(db.emails, request.email).None? && Insert(cleared, request.n.id, row) == Ok(u.emailChanges)
  {
    hide UniqueDigests, UniqueCurrent, UniqueTenants, UniqueCodes, UniqueEmails, UniqueActiveFactor;
    hide GuardAction, LoadAccountSession;
  }

  lemma ChangeIs(db: Db, id: Id, token: Digest, now: Time)
    requires id in db.emailChanges && AccountWithEmail(db.emails, db.emailChanges[id].detail).None?
    requires db.emailChanges[id].account in db.emails && Verified(db.emails[db.emailChanges[id].account])
    requires Usable(db.emailChanges, token, now).Ok? ==> Usable(db.emailChanges, token, now).value == id
    ensures AccountStep(db, ConsumeEmailChangeOp(token, now)).Ok? <==> Usable(db.emailChanges, token, now).Ok?
    ensures Usable(db.emailChanges, token, now).Ok? ==>
              AccountStep(db, ConsumeEmailChangeOp(token, now))
              == Ok(EndAccountAuthority(ChangedAddress(db, id, now), db.emailChanges[id].account, now))
  {
    hide UniqueDigests, UniqueCurrent, UniqueTenants, UniqueCodes, UniqueEmails, UniqueActiveFactor, EndAccountAuthority;
  }

  function ChangedAddress(db: Db, id: Id, now: Time): Db
    requires id in db.emailChanges && Live(db.emailChanges[id]) && db.emailChanges[id].account in db.emails
    requires forall a :: a in db.emails && db.emails[a].email == db.emailChanges[id].detail ==> a == db.emailChanges[id].account
  {
    var row := db.emailChanges[id];
    var consumed := Consume(db.emailChanges, id, now);
    db.(emails := ReplaceEmail(db.emails, row.account, row.detail, now),
        emailChanges := RevokeLive(consumed, OfAccount(consumed, row.account) - {id}, now))
  }

  lemma AuthorityKeepsEmails(db: Db, account: Id, now: Time)
    ensures EndAccountAuthority(db, account, now).emails == db.emails
  {
    hide UniqueDigests, UniqueCurrent, UniqueTenants, UniqueCodes, UniqueEmails, UniqueActiveFactor;
  }

  /** A minted step-up authorizes its own purpose exactly until it expires, on its own session, as
      long as that session can still be loaded. */
  lemma ExchangeThenStepUp(db: Db, exchange: Op, clock: Time, later: Time)
    requires exchange.ExchangeAttestationOp? && FactorStep(db, exchange).Ok?
    ensures var u := FactorStep(db, exchange).value;
            FactorStep(u, ConsumeStepUpOp(exchange.bearer, exchange.id, exchange.n.digest, exchange.purpose, clock, later)).Ok? <==>
              (LoadAccountSession(db, exchange.bearer, exchange.id, clock).Ok? && later < exchange.now + exchange.ttl as real)
  {
    hide UniqueDigests, UniqueCurrent, UniqueTenants, UniqueCodes, UniqueEmails, UniqueActiveFactor;
    hide FactorStep, LoadAccountSession, UseStepUp, ActiveAuthenticator, Usable;
    Minted(db, exchange);
    var u := FactorStep(db, exchange).value;
    var account := db.accountSessions[exchange.id].account;
    var detail := FactorDetail(exchange.id, exchange.authenticator, exchange.purpose);
    InsertedIsUsable(db.stepUps, exchange.n, account, exchange.now + exchange.ttl as real, detail, later);
    ConsumesStepUp(u, exchange.bearer, exchange.id, exchange.n.digest, exchange.purpose, clock, later);
    SameLogin(db, u, exchange.bearer, exchange.id, clock);
    MintedIsGood(u, exchange.n, account, exchange.now + exchange.ttl as real, detail, later);
  }

  /** What an exchange leaves: the step-up it minted, and everything its later use depends on. */
  lemma Minted(db: Db, exchange: Op)
    requires exchange.ExchangeAttestationOp? && FactorStep(db, exchange).Ok?
    ensures exchange.id in db.accountSessions && exchange.purpose != UnknownPurpose && exchange.purpose != EnrollFactor
    ensures var u, account := FactorStep(db, exchange).value, db.accountSessions[exchange.id].account;
            var row := NewRow(exchange.n.digest, account, Some(exchange.now + exchange.ttl as real),
                              FactorDetail(exchange.id, exchange.authenticator, exchange.purpose));
            && u == db.(attestations := u.attestations, stepUps := u.stepUps)
            && Insert(db.stepUps, exchange.n.id, row) == Ok(u.stepUps)
            && ActiveAuthenticator(db.authenticators, account) == Some(exchange.authenticator)
  {
    hide UniqueDigests, UniqueCurrent, UniqueTenants, UniqueCodes, UniqueEmails, UniqueActiveFactor;
    hide UseAttestation, LoadAccountSession, ActiveAuthenticator;
  }

  lemma ConsumesStepUp(db: Db, bearer: Digest, id: Id, token: Digest, purpose: Purpose, clock: Time, now: Time)
    ensures FactorStep(db, ConsumeStepUpOp(bearer, id, token, purpose, clock, now)).Ok? <==>
              (LoadAccountSession(db, bearer, id, clock).Ok?
               && UseStepUp(db, db.accountSessions[id].account, id, token, purpose, now).Ok?)
  {
    hide UniqueDigests, UniqueCurrent, UniqueTenants, UniqueCodes, UniqueEmails, UniqueActiveFactor;
    hide LoadAccountSession, UseStepUp;
  }

  /** Loading an account session looks at no token table. */
  lemma SameLogin(db: Db, u: Db, bearer: Digest, id: Id, clock: Time)
    requires u == db.(attestations := u.attestations, stepUps := u.stepUps)
    ensures LoadAccountSession(u, bearer, id, clock) == LoadAccountSession(db, bearer, id, clock)
  {
    hide UniqueDigests, UniqueCurrent, UniqueTenants, UniqueCodes, UniqueEmails, UniqueActiveFactor;
  }

  lemma MintedIsGood(db: Db, n: Fresh, account: Id, expiresAt: Time, detail: FactorDetail, now: Time)
    requires n.id in db.stepUps && db.stepUps[n.id] == NewRow(n.digest, account, Some(expiresAt), detail)
    requires Usable(db.stepUps, n.digest, now) == (if now < expiresAt then Ok(n.id) else Err(Expired))
    requires detail.purpose != UnknownPurpose && detail.purpose != EnrollFactor
    requires ActiveAuthenticator(db.authenticators, account) == Some(detail.authenticator)
    ensures UseStepUp(db, account, detail.accountSession, n.digest, detail.purpose, now).Ok? <==> now < expiresAt
  {
    hide UniqueDigests, UniqueCurrent, UniqueTenants, UniqueCodes, UniqueEmails, UniqueActiveFactor;
    hide Usable, ActiveAuthenticator;
  }

  /** In a reachable state a derived session authenticates exactly until the earlier of its own
      expiry and its parent's. */
  lemma DeriveThenAuthenticate(ops: seq<Op>, derive: Op, later: Time)
    requires derive.DeriveSessionOp? && MembershipStep(After(EMPTY, ops), derive).Ok?
    ensures var db := After(EMPTY, ops);
            var parent := db.accountSessions[derive.id].expiresAt;
            && parent.Some?
            && (Authenticate(MembershipStep(db, derive).value, derive.n.digest, derive.n.id, later).Ok? <==>
                  later < derive.now + derive.ttl as real && later < parent.value)
  {
    hide UniqueDigests, UniqueCurrent, UniqueTenants, UniqueCodes, UniqueEmails, UniqueActiveFactor, Authenticate, After;
    hide SessionsSound, HandoffsSound, StepUpsSound, FactorsSound, InvitationsSound, RegistrySound, HoldersExist, ChallengesSound;
    var db := After(EMPTY, ops);
    RunKeeps(ops);
    assert LoginSound(db.accountSessions[derive.id], db.accounts, db.credentials);
    AfterOneMore(ops, derive);
    AuthenticatesIff(ops + [derive], derive.n.digest, derive.n.id, later);
  }

  lemma AfterOneMore(ops: seq<Op>, op: Op)
    requires AboutMemberships(op) && MembershipStep(After(EMPTY, ops), op).Ok?
    ensures After(EMPTY, ops + [op]) == MembershipStep(After(EMPTY, ops), op).value
  {
    hide AccountStep, FactorStep, DefinitionStep, MembershipStep;
    assert (ops + [op])[..|ops + [op]| - 1] == ops;
  }

  /** In a reachable state a handoff just issued can be consumed exactly until it or its session
      expires. */
  lemma IssueThenConsumeHandoff(ops: seq<Op>, issue: Op, later: Time, clock: Time)
    requires issue.IssueHandoffOp? && MembershipStep(After(EMPTY, ops), issue).Ok?
    ensures var db := After(EMPTY, ops);
            && issue.session in db.sessions
            && (ConsumeHandoff(MembershipStep(db, issue).value, issue.n.digest, issue.consumer, later, clock).Ok? <==>
                  later < issue.now + issue.ttl as real
                  && !Past(db.sessions[issue.session], later) && !Past(db.sessions[issue.session], clock))
  {
    hide UniqueDigests, UniqueCurrent, UniqueTenants, UniqueCodes, UniqueEmails, UniqueActiveFactor, After;
    hide ConsumeHandoff, ProjectSubject, Behind;
    var db := After(EMPTY, ops);
    AfterOneMore(ops, issue);
    ConsumesHandoffIff(ops + [issue], issue.n.digest, issue.consumer, later, clock);
    var row := db.sessions[issue.session];
    InsertedIsUsable(db.handoffs, issue.n, row.account, issue.now + issue.ttl as real, IssuedDetail(row, issue), later);
    AuthenticatesIff(ops, issue.bearer, issue.session, issue.clock);
    SameBehind(db, MembershipStep(db, issue).value, issue.session);
  }

  function IssuedDetail(row: Row<SessionDetail>, issue: Op): HandoffDetail
    requires issue.IssueHandoffOp?
  {
    var d := row.detail;
    HandoffDetail(issue.consumer, d.identity, d.membership, d.organization, d.tenant, issue.session,
                  d.authorizationVersion, d.entitlementVersion)
  }

  lemma SameBehind(db: Db, u: Db, id: Id)
    requires u.sessions == db.sessions && u.memberships == db.memberships
    ensures Behind(u, id) <==> Behind(db, id)
  {
  }

  /** In a reachable state redeeming an invitation succeeds, for an existing identity, iff it is
      still active and unexpired, the identity has no current membership there, and neither of its
      reference lists repeats a reference.  The definitions it names are never in the way. */
  lemma RedeemsIff(ops: seq<Op>, id: Id, identity: Id, membership: Id, now: Time)
    requires var db := After(EMPTY, ops); id in db.invitations && identity in db.identities && membership !in db.memberships
    ensures var db := After(EMPTY, ops);
            var row := db.invitations[id];
            MembershipStep(db, RedeemInvitationOp(row.code, identity, membership, now)).Ok? <==>
              (&& row.active && now < row.expiresAt
               && CurrentMembership(db.memberships, identity, row.organization).None?
               && NoRepeats(row.roles) && NoRepeats(row.entitlements))
  {
    hide After, Invariant, NoRepeats, InvitationSound;
    RunKeeps(ops);
    var db := After(EMPTY, ops);
    InvitationParts(db, id);
    FillsIff(db.registry, db.memberships.Keys, membership, db.invitations[id]);
    RedeemIs(db, id, identity, membership, now);
  }

  lemma InvitationParts(db: Db, id: Id)
    requires Invariant(db) && id in db.invitations
    ensures InvitationSound(db.invitations[id], db.registry.roles, db.registry.entitlements)
    ensures HoldersExist(db.registry, db.memberships.Keys)
  {
    hide UniqueDigests, UniqueCurrent, UniqueTenants, UniqueCodes, UniqueEmails, UniqueActiveFactor;
    hide InvitationSound, HoldersExist;
  }

  /** What redeeming comes to when the invitation is sound. */
  lemma RedeemIs(db: Db, id: Id, identity: Id, membership: Id, now: Time)
    requires id in db.invitations && InvitationSound(db.invitations[id], db.registry.roles, db.registry.entitlements)
    requires identity in db.identities && membership !in db.memberships
    ensures var g := db.registry;
            var row := db.invitations[id];
            MembershipStep(db, RedeemInvitationOp(row.code, identity, membership, now)).Ok? <==>
              (&& row.active && now < row.expiresAt
               && CurrentMembership(db.memberships, identity, row.organization).None?
               && AddHoldings(g.assignments, g.roles, membership, row.roles).Ok?
               && AddHoldings(g.grants, g.entitlements, membership, row.entitlements).Ok?)
  {
    hide UniqueDigests, UniqueCurrent, UniqueTenants, UniqueEmails, UniqueActiveFactor, AddHoldings;
    assert UniqueCodes(db.invitations);
    assert InvitationWithCode(db.invitations, db.invitations[id].code) == Some(id);
  }

  /** A new invitation admits an identity without a current membership exactly until it expires,
      if neither of its reference lists repeats a reference, and never otherwise. */
  lemma InviteThenRedeem(ops: seq<Op>, invite: Op, identity: Id, membership: Id, later: Time)
    requires invite.IssueInvitationOp? && MembershipStep(After(EMPTY, ops), invite).Ok?
    requires var db := After(EMPTY, ops); identity in db.identities && membership !in db.memberships
    ensures var db := After(EMPTY, ops);
            var redeem := MembershipStep(MembershipStep(db, invite).value, RedeemInvitationOp(invite.n.digest, identity, membership, later));
            && (redeem.Ok? <==> later < invite.now + invite.ttl as real && NoRepeats(invite.roles)
                                && NoRepeats(invite.entitlements)
                                && CurrentMembership(db.memberships, identity, invite.organization).None?)
            && (redeem.Ok? ==> Admitted(db, redeem.value, membership, identity, invite))
  {
    hide After, NoRepeats, AddHoldings, Admitted;
    hide UniqueDigests, UniqueCurrent, UniqueTenants, UniqueCodes, UniqueEmails, UniqueActiveFactor;
    AfterOneMore(ops, invite);
    var u := MembershipStep(After(EMPTY, ops), invite).value;
    RedeemsIff(ops + [invite], invite.n.id, identity, membership, later);
    if MembershipStep(u, RedeemInvitationOp(invite.n.digest, identity, membership, later)).Ok? {
      RedeemedAdmits(After(EMPTY, ops), invite, identity, membership, later);
    }
  }

  /** The new membership holds exactly what the invitation names, and nobody else gains or loses. */
  ghost predicate Admitted(db: Db, u: Db, membership: Id, identity: Id, invite: Op)
    requires invite.IssueInvitationOp?
  {
    && u.memberships == db.memberships[membership := Membership(identity, invite.organization, MembershipActive, 1, 1)]
    && HoldsExactly(db.registry.assignments, u.registry.assignments, membership, invite.roles)
    && HoldsExactly(db.registry.grants, u.registry.grants, membership, invite.entitlements)
  }

  ghost predicate HoldsExactly(t: Holdings, u: Holdings, membership: Id, refs: seq<DefinitionRef>) {
    && (forall h :: h in t ==> h in u && u[h] == t[h])
    && (forall h :: h in u <==> h in t || (h.membership == membership && h.ref in refs))
  }

  lemma InvitationIssued(db: Db, invite: Op)
    requires invite.IssueInvitationOp? && MembershipStep(db, invite).Ok?
    ensures var u := MembershipStep(db, invite).value;
            && u.memberships == db.memberships && u.registry == db.registry && invite.n.id in u.invitations
            && u.invitations[invite.n.id] == Invitation(invite.n.digest, invite.organization, invite.tenant, invite.roles,
                                                        invite.entitlements, invite.now + invite.ttl as real, 1, 0, true)
  {
    hide UniqueDigests, UniqueCurrent, UniqueTenants, UniqueCodes, UniqueEmails, UniqueActiveFactor, ActiveDefinition;
  }

  lemma InvitationRedeemed(db: Db, id: Id, identity: Id, membership: Id, now: Time)
    requires id in db.invitations && MembershipStep(db, RedeemInvitationOp(db.invitations[id].code, identity, membership, now)).Ok?
    ensures var u := MembershipStep(db, RedeemInvitationOp(db.invitations[id].code, identity, membership, now)).value;
            var row, g := db.invitations[id], db.registry;
            && u.memberships == db.memberships[membership := Membership(identity, row.organization, MembershipActive, 1, 1)]
            && AddHoldings(g.assignments, g.roles, membership, row.roles) == Ok(u.registry.assignments)
            && AddHoldings(g.grants, g.entitlements, membership, row.entitlements) == Ok(u.registry.grants)
  {
    hide UniqueDigests, UniqueCurrent, UniqueTenants, UniqueEmails, UniqueActiveFactor, AddHoldings;
    assert UniqueCodes(db.invitations);
    assert InvitationWithCode(db.invitations, db.invitations[id].code) == Some(id);
  }

  lemma RedeemedAdmits(db: Db, invite: Op, identity: Id, membership: Id, later: Time)
    requires invite.IssueInvitationOp? && MembershipStep(db, invite).Ok?
    requires MembershipStep(MembershipStep(db, invite).value, RedeemInvitationOp(invite.n.digest, identity, membership, later)).Ok?
    ensures Admitted(db, MembershipStep(MembershipStep(db, invite).value, RedeemInvitationOp(invite.n.digest, identity, membership, later)).value,
                     membership, identity, invite)
  {
    hide UniqueDigests, UniqueCurrent, UniqueTenants, UniqueEmails, UniqueActiveFactor, AddHoldings, MembershipStep;
    InvitationIssued(db, invite);
    InvitationRedeemed(MembershipStep(db, invite).value, invite.n.id, identity, membership, later);
    AddHoldingsAdds(db.registry.assignments, db.registry.roles, membership, invite.roles);
    AddHoldingsAdds(db.registry.grants, db.registry.entitlements, membership, invite.entitlements);
  }

  /** An invitation that repeats a reference is never used up and never admits anybody, however
      long the run: it stays as it was issued and every redemption is refused. */
  lemma RepeatedNeverAdmits(ops: seq<Op>, id: Id, more: seq<Op>, identity: Id, membership: Id, now: Time)
    requires id in After(EMPTY, ops).invitations
    requires var row := After(EMPTY, ops).invitations[id]; !NoRepeats(row.roles) || !NoRepeats(row.entitlements)
    ensures var db, u := After(EMPTY, ops), After(EMPTY, ops + more);
            && db.invitations[id].active && id in u.invitations && u.invitations[id] == db.invitations[id]
            && MembershipStep(u, RedeemInvitationOp(db.invitations[id].code, identity, membership, now)).Err?
  {
    hide After, Invariant, NoRepeats;
    var db, u := After(EMPTY, ops), After(EMPTY, ops + more);
    RunKeeps(ops);
    RunKeeps(ops + more);
    RunForward(db, more);
    AfterConcat(EMPTY, ops, more);
    InvitationMoved(db, u, id);
    InvitationParts(db, id);
    InvitationParts(u, id);
    if MembershipStep(u, RedeemInvitationOp(db.invitations[id].code, identity, membership, now)).Ok? {
      RedeemerExists(u, db.invitations[id].code, identity, membership, now);
      RedeemsIff(ops + more, id, identity, membership, now);
      assert false;
    }
  }

  lemma InvitationMoved(db: Db, u: Db, id: Id)
    requires Forward(db, u) && id in db.invitations
    ensures id in u.invitations && InvitationForward(db.invitations[id], u.invitations[id])
  {
    hide UniqueDigests, UniqueCurrent, UniqueTenants, UniqueCodes, UniqueEmails, UniqueActiveFactor;
    hide OneWay, MembershipsForward, InvitationForward;
  }

  lemma RedeemerExists(db: Db, code: Digest, identity: Id, membership: Id, now: Time)
    requires MembershipStep(db, RedeemInvitationOp(code, identity, membership, now)).Ok?
    ensures identity in db.identities && membership !in db.memberships
  {
    hide UniqueDigests, UniqueCurrent, UniqueTenants, UniqueCodes, UniqueEmails, UniqueActiveFactor, AddHoldings;
  }

  /** Such an invitation is accepted: the store issues one that names the same role twice. */
  lemma RepeatedReferenceIsIssued(role: DefinitionRef, n: Fresh, more: seq<Op>, identity: Id, membership: Id, now: Time)
    requires role.version >= 1
    ensures var ops := [CreateOrganizationOp("org", "tnt"), DefineRoleOp(role),
                        IssueInvitationOp("org", "tnt", [role, role], [], n, 3600, 0.0)];
            var db := After(EMPTY, ops);
            && n.id in db.invitations && db.invitations[n.id].code == n.digest && db.invitations[n.id].active
            && MembershipStep(After(EMPTY, ops + more), RedeemInvitationOp(n.digest, identity, membership, now)).Err?
  {
    hide After, MembershipStep;
    var create, define := CreateOrganizationOp("org", "tnt"), DefineRoleOp(role);
    var invite := IssueInvitationOp("org", "tnt", [role, role], [], n, 3600, 0.0);
    var ops := [create, define, invite];
    ThreeSteps(create, define, invite);
    IssuesTwice(role, n);
    var row := After(EMPTY, ops).invitations[n.id];
    assert row.roles[0] == row.roles[1];
    RepeatedNeverAdmits(ops, n.id, more, identity, membership, now);
  }

  lemma ThreeSteps(a: Op, b: Op, c: Op)
    ensures After(EMPTY, [a, b, c]) == Next(Next(Next(EMPTY, a), b), c)
  {
    hide Next;
    assert [a, b, c][..2] == [a, b] && [a, b][..1] == [a] && [a][..0] == [];
    assert After(EMPTY, [a]) == Next(After(EMPTY, []), a);
    assert After(EMPTY, [a, b]) == Next(After(EMPTY, [a]), b);
  }

  lemma IssuesTwice(role: DefinitionRef, n: Fresh)
    requires role.version >= 1
    ensures var a := Next(EMPTY, CreateOrganizationOp("org", "tnt"));
            var b := Next(a, DefineRoleOp(role));
            var c := Next(b, IssueInvitationOp("org", "tnt", [role, role], [], n, 3600, 0.0));
            && n.id in c.invitations
            && c.invitations[n.id] == Invitation(n.digest, "org", "tnt", [role, role], [], 3600.0, 1, 0, true)
  {
    hide Next, DefinitionStep, MembershipStep;
    var a := Next(EMPTY, CreateOrganizationOp("org", "tnt"));
    NextDefinition(EMPTY, CreateOrganizationOp("org", "tnt"));
    OrganizationCreated(EMPTY, "org", "tnt");
    var b := Next(a, DefineRoleOp(role));
    NextDefinition(a, DefineRoleOp(role));
    RoleDefined(a, role);
    NextMembership(b, IssueInvitationOp("org", "tnt", [role, role], [], n, 3600, 0.0));
    InvitationAccepted(b, "org", "tnt", [role, role], n, 3600, 0.0);
  }

  lemma NextDefinition(db: Db, op: Op)
    requires AboutDefinitions(op)
    ensures Next(db, op) == if DefinitionStep(db, op).Ok? then DefinitionStep(db, op).value else db
  {
    hide AccountStep, FactorStep, DefinitionStep, MembershipStep;
    assert Step(db, op) == DefinitionStep(db, op);
  }

  lemma NextMembership(db: Db, op: Op)
    requires AboutMemberships(op)
    ensures Next(db, op) == if MembershipStep(db, op).Ok? then MembershipStep(db, op).value else db
  {
    hide AccountStep, FactorStep, DefinitionStep, MembershipStep;
    assert Step(db, op) == MembershipStep(db, op);
  }

  lemma OrganizationCreated(db: Db, id: Id, tenant: Id)
    requires id !in db.organizations && db.tenants == map[]
    ensures var create := DefinitionStep(db, CreateOrganizationOp(id, tenant));
            && create.Ok? && tenant in create.value.tenants && create.value.tenants[tenant] == Tenant(id, true)
            && create.value == db.(organizations := db.organizations[id := true], tenants := create.value.tenants)
  {
    hide UniqueDigests, UniqueCurrent, UniqueCodes, UniqueEmails, UniqueActiveFactor;
  }

  lemma RoleDefined(db: Db, role: DefinitionRef)
    requires role.version >= 1 && role !in db.registry.roles
    ensures DefinitionStep(db, DefineRoleOp(role)) == Ok(db.(registry := db.registry.(roles := db.registry.roles[role := true])))
  {
    hide UniqueDigests, UniqueCurrent, UniqueTenants, UniqueCodes, UniqueEmails, UniqueActiveFactor;
  }

  lemma InvitationAccepted(db: Db, organization: Id, tenant: Id, roles: seq<DefinitionRef>, n: Fresh, ttl: int, now: Time)
    requires ActiveIn(db.organizations, organization) && tenant in db.tenants && db.tenants[tenant] == Tenant(organization, true)
    requires ttl >= 1 && db.invitations == map[] && forall r :: r in roles ==> ActiveDefinition(db.registry.roles, r)
    ensures var issue := MembershipStep(db, IssueInvitationOp(organization, tenant, roles, [], n, ttl, now));
            && issue.Ok? && n.id in issue.value.invitations
            && issue.value.invitations[n.id]
               == Invitation(n.digest, organization, tenant, roles, [], now + ttl as real, 1, 0, true)
  {
    hide UniqueDigests, UniqueCurrent, UniqueTenants, UniqueEmails, UniqueActiveFactor, ActiveDefinition;
  }

  lemma EndedMemberships(m: Memberships, id: Id, status: EndingStatus)
    requires id in m && Current(m[id])
    ensures CurrentMembership(SetMembership(m, id, status), m[id].identity, m[id].organization).None? <==>
            status != MembershipSuspended
  {
    var u := SetMembership(m, id, status);
    assert UniqueCurrent(m);
    forall i | i in u && Current(u[i]) && u[i].identity == m[id].identity && u[i].organization == m[id].organization
      ensures i == id
    {
      assert SamePlace(m[i], m[id]);
    }
    assert u[id].status == status && u[id].identity == m[id].identity && u[id].organization == m[id].organization;
  }

  lemma EndIs(db: Db, id: Id, status: EndingStatus, now: Time)
    requires id in db.memberships && Current(db.memberships[id])
    ensures var end := MembershipStep(db, EndMembershipOp(id, status, now));
            && (end.Ok? <==> db.memberships[id].status == MembershipActive || status == MembershipRevoked)
            && (end.Ok? ==> end.value.memberships == SetMembership(db.memberships, id, status))
  {
    hide UniqueDigests, UniqueCurrent, UniqueTenants, UniqueCodes, UniqueEmails, UniqueActiveFactor;
  }

  /** Which endings a membership allows, and what each leaves: only its own row moves, to that
      status, and the identity can join the organization again unless it was only suspended. */
  lemma EndThenRejoin(db: Db, id: Id, status: EndingStatus, now: Time)
    requires id in db.memberships && Current(db.memberships[id])
    ensures var end := MembershipStep(db, EndMembershipOp(id, status, now));
            var row := db.memberships[id];
            && (end.Ok? <==> row.status == MembershipActive || status == MembershipRevoked)
            && (end.Ok? ==>
                  && id in end.value.memberships && end.value.memberships[id].status == status
                  && end.value.memberships - {id} == db.memberships - {id}
                  && (CurrentMembership(end.value.memberships, row.identity, row.organization).None? <==>
                        status != MembershipSuspended))
  {
    hide UniqueDigests, UniqueCurrent, UniqueTenants, UniqueCodes, UniqueEmails, UniqueActiveFactor, MembershipStep, CurrentMembership;
    EndIs(db, id, status, now);
    EndedMemberships(db.memberships, id, status);
  }
}
