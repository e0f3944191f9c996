/** The predecessor store itself (store.py): one connection under one lock.  Methods run their
    statements one after another and roll the whole transaction back when one of them refuses;
    each is proved to be one atomic step of the transition system. */
module Store {
  import opened Wrappers
  import opened StoreTables
  import opened StoreRegistry
  import opened StoreSpec

  /** What a call promises: the whole effect of its step, or the refusal and no effect at all. */
  predicate Performs(step: Refusable<Db>, before: Db, after: Db, r: Refusable<()>) {
    if step.Ok? then r.Ok? && after == step.value else r == Err(step.error) && after == before
  }

  /** How the session table moves when one more parent's sessions end after those of a group. */
  ghost predicate OneMoreEnded(s1: map<Id, Row<SessionDetail>>, s2: map<Id, Row<SessionDetail>>, done: set<Id>, parent: Id) {
    && s1.Keys == s2.Keys
    && forall s :: s in s1 ==>
         && s1[s].detail == s2[s].detail
         && (s1[s].detail.accountSession != parent || s1[s].status != Active ==> s1[s] == s2[s])
         && (s1[s].detail.accountSession in done ==> s1[s].status != Active)
  }

  lemma SessionsTogether(sessions: Table<SessionDetail>, done: set<Id>, parent: Id, now: Time)
    ensures var s1 := RevokeActive(sessions, Under(sessions, done), now);
            RevokeActive(s1, Under(s1, {parent}), now) == RevokeActive(sessions, Under(sessions, done + {parent}), now)
  {
    hide UniqueDigests;
    var s1 := RevokeActive(sessions, Under(sessions, done), now);
    var s2 := RevokeActive(s1, Under(s1, {parent}), now);
    var together := RevokeActive(sessions, Under(sessions, done + {parent}), now);
    forall id | id in sessions ensures s2[id] == together[id] { assert s1[id].detail == sessions[id].detail; }
    assert s2 == together;
  }

  lemma SessionsEnd(sessions: Table<SessionDetail>, done: set<Id>, parent: Id, now: Time)
    ensures var s1 := RevokeActive(sessions, Under(sessions, done), now);
            OneMoreEnded(s1, RevokeActive(s1, Under(s1, {parent}), now), done, parent)
  {
    hide UniqueDigests, RevokeActive, Under;
  }

  /** Revoking the handoffs of the group and then those of the last parent revokes those of all. */
  lemma HandoffsTogether(handoffs: Table<HandoffDetail>, s1: Table<SessionDetail>, s2: Table<SessionDetail>, done: set<Id>,
                         parent: Id, now: Time)
    requires OneMoreEnded(s1, s2, done, parent)
    ensures var h1 := RevokeLive(handoffs, From(handoffs, RevokedAmong(s1, Under(s1, done))), now);
            RevokeLive(h1, From(h1, RevokedAmong(s2, Under(s2, {parent}))), now)
            == RevokeLive(handoffs, From(handoffs, RevokedAmong(s2, Under(s2, done + {parent}))), now)
  {
    hide UniqueDigests;
    var a, b := RevokedAmong(s1, Under(s1, done)), RevokedAmong(s2, Under(s2, {parent}));
    var both := RevokedAmong(s2, Under(s2, done + {parent}));
    forall s ensures s in a || s in b <==> s in both {
      if s in s1 { assert s1[s].detail == s2[s].detail; }
    }
    hide OneMoreEnded, RevokedAmong, Under;
    RevokedInTwo(handoffs, a, b, both, now);
  }

  lemma RevokedInTwo(t: Table<HandoffDetail>, a: set<Id>, b: set<Id>, both: set<Id>, now: Time)
    requires forall s :: s in a || s in b <==> s in both
    ensures var u := RevokeLive(t, From(t, a), now);
            RevokeLive(u, From(u, b), now) == RevokeLive(t, From(t, both), now)
  {
    hide UniqueDigests;
    var u := RevokeLive(t, From(t, a), now);
    var v, w := RevokeLive(u, From(u, b), now), RevokeLive(t, From(t, both), now);
    forall id | id in t ensures v[id] == w[id] { assert u[id].detail == t[id].detail; }
    assert v == w;
  }

  /** Ending the sessions of one more parent after those of a group ends them all together. */
  lemma EndedTogether(db: Db, done: set<Id>, parent: Id, now: Time)
    ensures EndSessionsUnder(EndSessionsUnder(db, done, now), {parent}, now) == EndSessionsUnder(db, done + {parent}, now)
  {
    hide UniqueDigests, UniqueCurrent, UniqueTenants, UniqueCodes, UniqueEmails, UniqueActiveFactor;
    hide RevokeActive, RevokeLive, Under, From, RevokedAmong, OneMoreEnded;
    var s1 := RevokeActive(db.sessions, Under(db.sessions, done), now);
    var s2 := RevokeActive(s1, Under(s1, {parent}), now);
    SessionsTogether(db.sessions, done, parent, now);
    SessionsEnd(db.sessions, done, parent, now);
    HandoffsTogether(db.handoffs, s1, s2, done, parent, now);
    KeepsUnder(db.sessions, done, now);
    KeepsUnder(s1, {parent}, now);
    KeepsUnder(db.sessions, done + {parent}, now);
  }

  /** The loop that looks every reference of an invitation up. */
  method AllActive(definitions: Definitions, refs: seq<DefinitionRef>) returns (all: bool)
    ensures all <==> forall r :: r in refs ==> ActiveDefinition(definitions, r)
  {
    for i := 0 to |refs|
      invariant forall j :: 0 <= j < i ==> ActiveDefinition(definitions, refs[j])
    {
      if !ActiveDefinition(definitions, refs[i]) { return false; }
    }
    return true;
  }

  /** The loop that inserts one holding per reference. */
  method InsertHoldings(t: Holdings, definitions: Definitions, membership: Id, refs: seq<DefinitionRef>)
    returns (r: Refusable<Holdings>)
    ensures r == AddHoldings(t, definitions, membership, refs)
  {
    var u := t;
    for i := 0 to |refs|
      invariant AddHoldings(t, definitions, membership, refs[..i]) == Ok(u)
    {
      assert refs[..i + 1][..i] == refs[..i];
      if Holding(membership, refs[i]) in u || refs[i] !in definitions {
        AddHoldingsStops(t, definitions, membership, refs, i + 1);
        return Err(IntegrityFailure);
      }
      u := u[Holding(membership, refs[i]) := true];
    }
    assert refs[..|refs|] == refs;
    return Ok(u);
  }

  /** Once an insertion is refused, the whole loop is. */
  lemma {:induction false} AddHoldingsStops(t: Holdings, definitions: Definitions, membership: Id, refs: seq<DefinitionRef>, i: nat)
    requires i <= |refs| && AddHoldings(t, definitions, membership, refs[..i]).Err?
    ensures AddHoldings(t, definitions, membership, refs) == AddHoldings(t, definitions, membership, refs[..i])
    decreases |refs|
  {
    if i < |refs| {
      var n := |refs| - 1;
      assert refs[..n][..i] == refs[..i];
      AddHoldingsStops(t, definitions, membership, refs[..n], i);
    } else {
      assert refs[..i] == refs;
    }
  }

  class AnarCoreStore {
    var db: Db

    constructor ()
      ensures db == EMPTY
    {
      db := EMPTY;
    }

    // ----- cascades

    /** `_revoke_account_authority`: the sessions below are ended parent by parent. */
    method RevokeAccountAuthority(account: Id, now: Time)
      modifies this
      ensures db == EndAccountAuthority(old(db), account, now)
    {
      hide UniqueDigests, UniqueCurrent, UniqueTenants, UniqueCodes, UniqueEmails, UniqueActiveFactor;
      hide EndSessionsUnder, EndFactorsOfAccount, RevokeLive, LiveSessionsOf;
      var parents := LiveSessionsOf(db.accountSessions, account);
      db := db.(accountSessions := RevokeLive(db.accountSessions, parents, now));
      ghost var start := db;
      var remaining := parents;
      assert parents - remaining == {};
      NoneEnded(db, now);
      while remaining != {}
        invariant remaining <= parents
        invariant db == EndSessionsUnder(start, parents - remaining, now)
        decreases |remaining|
      {
        var parent :| parent in remaining;
        EndedTogether(start, parents - remaining, parent, now);
        assert parents - (remaining - {parent}) == parents - remaining + {parent};
        EndSessions({parent}, now);
        remaining := remaining - {parent};
      }
      assert parents - remaining == parents;
      RevokeFactorsOfAccount(account, now);
    }

    method EndSessions(parents: set<Id>, now: Time)
      modifies this
      ensures db == EndSessionsUnder(old(db), parents, now)
    {
      hide UniqueDigests, UniqueCurrent, UniqueTenants, UniqueCodes, UniqueEmails, UniqueActiveFactor;
      hide Under, From, RevokedAmong, RevokeActive, RevokeLive;
      KeepsUnder(db.sessions, parents, now);
      db := db.(sessions := RevokeActive(db.sessions, Under(db.sessions, parents), now));
      db := db.(handoffs := RevokeLive(db.handoffs, From(db.handoffs, RevokedAmong(db.sessions, Under(db.sessions, parents))), now));
    }

    /** `_revoke_mfa_authority`. */
    method RevokeFactorsOfAccount(account: Id, now: Time)
      modifies this
      ensures db == EndFactorsOfAccount(old(db), account, now)
    {
      db := db.(attestations := RevokeLive(db.attestations, OfAccount(db.attestations, account), now));
      db := db.(stepUps := RevokeLive(db.stepUps, OfAccount(db.stepUps, account), now));
    }

    /** `_revoke_account_session_mfa_authority`. */
    method RevokeFactorsOfSession(accountSession: Id, now: Time)
      modifies this
      ensures db == EndFactorsOfSession(old(db), accountSession, now)
    {
      db := db.(attestations := RevokeLive(db.attestations, OfSession(db.attestations, accountSession), now));
      db := db.(stepUps := RevokeLive(db.stepUps, OfSession(db.stepUps, accountSession), now));
    }

    /** `_revoke_membership_sessions`. */
    method RevokeMembershipSessions(membership: Id, now: Time)
      modifies this
      ensures db == EndMembershipSessions(old(db), membership, now)
    {
      hide UniqueDigests, UniqueCurrent, UniqueTenants, UniqueCodes, UniqueEmails, UniqueActiveFactor;
      hide InMembership, From, RevokedAmong, RevokeLive;
      KeepsMembership(db.sessions, membership, now);
      db := db.(sessions := RevokeLive(db.sessions, InMembership(db.sessions, membership), now));
      var ended := RevokedAmong(db.sessions, InMembership(db.sessions, membership));
      db := db.(handoffs := RevokeLive(db.handoffs, From(db.handoffs, ended), now));
    }

    // ----- accounts and account sessions

    method Signup(email: string, identity: Id, account: Id, n: Fresh, ttl: int, now: Time) returns (r: Refusable<()>)
      modifies this
      ensures Performs(AccountStep(old(db), SignupOp(email, identity, account, n, ttl, now)), old(db), db, r)
    {
      hide UniqueDigests, UniqueCurrent, UniqueTenants, UniqueCodes, UniqueEmails, UniqueActiveFactor;
      if ttl < 1 { return Err(InvalidArgument); }
      var saved := db;
      if identity in db.identities { return Err(EmailUnavailable); }
      db := db.(identities := db.identities[identity := true]);
      if account in db.accounts || exists id :: id in db.accounts && db.accounts[id].identity == identity {
        db := saved;
        return Err(EmailUnavailable);
      }
      db := db.(accounts := db.accounts[account := Account(identity, true)]);
      var emails := InsertEmail(db.emails, account, EmailRow(email, None, false));
      if emails.Err? {
        db := saved;
        return Err(EmailUnavailable);
      }
      db := db.(emails := emails.value);
      if account in db.credentials {
        db := saved;
        return Err(EmailUnavailable);
      }
      db := db.(credentials := db.credentials[account := Credential(1, true)]);
      var verifications := Insert(db.verifications, n.id, NewRow(n.digest, account, Some(now + ttl as real), ()));
      if verifications.Err? {
        db := saved;
        return Err(EmailUnavailable);
      }
      db := db.(verifications := verifications.value);
      return Ok(());
    }

    method VerifyEmail(token: Digest, now: Time) returns (r: Refusable<()>)
      modifies this
      ensures Performs(AccountStep(old(db), VerifyEmailOp(token, now)), old(db), db, r)
    {
      hide UniqueDigests, UniqueCurrent, UniqueTenants, UniqueCodes, UniqueEmails, UniqueActiveFactor;
      var id :- Usable(db.verifications, token, now);
      var account := db.verifications[id].account;
      if account !in db.emails || db.emails[account].active || db.emails[account].verifiedAt.Some? { return Err(Unavailable); }
      db := db.(emails := ConfirmEmail(db.emails, account, now));
      db := db.(verifications := Consume(db.verifications, id, now));
      return Ok(());
    }

    method Login(email: string, passwordMatches: bool, n: Fresh, ttl: int, now: Time) returns (r: Refusable<()>)
      modifies this
      ensures Performs(AccountStep(old(db), LoginOp(email, passwordMatches, n, ttl, now)), old(db), db, r)
    {
      hide UniqueDigests, UniqueCurrent, UniqueTenants, UniqueCodes, UniqueEmails, UniqueActiveFactor;
      if ttl < 1 { return Err(InvalidArgument); }
      var found := AccountWithEmail(db.emails, email);
      if found.None? { return Err(Unauthorized); }
      var account := found.value;
      if !Verified(db.emails[account]) || !AccountLive(db, account) || !CredentialLive(db, account)
         || !ActiveIn(db.identities, db.accounts[account].identity) { return Err(Unauthorized); }
      if !passwordMatches { return Err(Unauthorized); }
      var detail := LoginDetail(db.accounts[account].identity, db.credentials[account].revision);
      var sessions :- Insert(db.accountSessions, n.id, NewRow(n.digest, account, Some(now + ttl as real), detail));
      db := db.(accountSessions := sessions);
      return Ok(());
    }

    method Signout(bearer: Digest, id: Id, clock: Time, now: Time) returns (r: Refusable<()>)
      modifies this
      ensures Performs(AccountStep(old(db), SignoutOp(bearer, id, clock, now)), old(db), db, r)
    {
      hide UniqueDigests, UniqueCurrent, UniqueTenants, UniqueCodes, UniqueEmails, UniqueActiveFactor;
      hide LoadAccountSession, EndSessionsUnder, EndFactorsOfSession;
      var _ :- LoadAccountSession(db, bearer, id, clock);
      if !Live(db.accountSessions[id]) { return Err(Unavailable); }
      db := db.(accountSessions := RevokeLive(db.accountSessions, {id}, now));
      EndSessions({id}, now);
      RevokeFactorsOfSession(id, now);
      return Ok(());
    }

    // ----- credentials

    method ChangePassword(bearer: Digest, id: Id, acceptable: bool, currentMatches: bool, samePassword: bool,
                          stepUp: Option<Digest>, clock: Time, now: Time) returns (r: Refusable<()>)
      modifies this
      ensures Performs(AccountStep(old(db), ReplacePasswordOp(bearer, id, acceptable, currentMatches, samePassword, stepUp, clock, now)),
                       old(db), db, r)
    {
      hide UniqueDigests, UniqueCurrent, UniqueTenants, UniqueCodes, UniqueEmails, UniqueActiveFactor;
      hide LoadAccountSession, UseStepUp, EndAccountAuthority;
      var session :- LoadAccountSession(db, bearer, id, clock);
      var account := session.account;
      if !acceptable { return Err(PasswordRefused); }
      if !CredentialLive(db, account) { return Err(CredentialUnavailable); }
      if !currentMatches { return Err(CurrentPasswordInvalid); }
      if samePassword { return Err(PasswordUnchanged); }
      if ActiveAuthenticator(db.authenticators, account).Some? {
        if stepUp.None? { return Err(StepUpRequired); }
        var stepUps :- UseStepUp(db, account, id, stepUp.value, StoreSpec.ChangePassword, now);
        db := db.(stepUps := stepUps);
      }
      db := db.(credentials := BumpRevision(db.credentials, account));
      db := db.(resets := RevokeLive(db.resets, OfAccount(db.resets, account), now));
      RevokeAccountAuthority(account, now);
      return Ok(());
    }

    method IssuePasswordReset(email: string, n: Fresh, ttl: int, now: Time) returns (r: Refusable<()>)
      modifies this
      ensures Performs(AccountStep(old(db), IssueResetOp(email, n, ttl, now)), old(db), db, r)
    {
      hide UniqueDigests, UniqueCurrent, UniqueTenants, UniqueCodes, UniqueEmails, UniqueActiveFactor;
      if ttl < 1 { return Err(InvalidArgument); }
      var found := AccountWithEmail(db.emails, email);
      if found.None? { return Err(Unavailable); }
      var account := found.value;
      if !Verified(db.emails[account]) || !AccountLive(db, account) || !CredentialLive(db, account) { return Err(Unavailable); }
      var saved := db;
      db := db.(resets := RevokeLive(db.resets, OfAccount(db.resets, account), now));
      var resets := Insert(db.resets, n.id, NewRow(n.digest, account, Some(now + ttl as real), ()));
      if resets.Err? {
        db := saved;
        return Err(resets.error);
      }
      db := db.(resets := resets.value);
      return Ok(());
    }

    method ConsumePasswordReset(token: Digest, acceptable: bool, samePassword: bool, now: Time) returns (r: Refusable<()>)
      modifies this
      ensures Performs(AccountStep(old(db), ConsumeResetOp(token, acceptable, samePassword, now)), old(db), db, r)
    {
      hide UniqueDigests, UniqueCurrent, UniqueTenants, UniqueCodes, UniqueEmails, UniqueActiveFactor, EndAccountAuthority;
      if !acceptable { return Err(PasswordRefused); }
      var id :- Usable(db.resets, token, now);
      var account := db.resets[id].account;
      if !CredentialLive(db, account) { return Err(CredentialUnavailable); }
      if samePassword { return Err(PasswordUnchanged); }
      db := db.(credentials := BumpRevision(db.credentials, account));
      db := db.(resets := Consume(db.resets, id, now));
      db := db.(resets := RevokeLive(db.resets, OfAccount(db.resets, account) - {id}, now));
      RevokeAccountAuthority(account, now);
      return Ok(());
    }

    method RequestEmailChange(bearer: Digest, id: Id, currentMatches: bool, email: string, n: Fresh, ttl: int,
                              stepUp: Option<Digest>, clock: Time, now: Time) returns (r: Refusable<()>)
      modifies this
      ensures Performs(AccountStep(old(db), RequestEmailChangeOp(bearer, id, currentMatches, email, n, ttl, stepUp, clock, now)),
                       old(db), db, r)
    {
      hide UniqueDigests, UniqueCurrent, UniqueTenants, UniqueCodes, UniqueEmails, UniqueActiveFactor;
      hide LoadAccountSession, UseStepUp;
      var session :- LoadAccountSession(db, bearer, id, clock);
      var account := session.account;
      if ttl < 1 { return Err(InvalidArgument); }
      if account !in db.emails || !Verified(db.emails[account]) { return Err(Unavailable); }
      if db.emails[account].email == email { return Err(EmailUnchanged); }
      if !CredentialLive(db, account) { return Err(CredentialUnavailable); }
      if !currentMatches { return Err(CurrentPasswordInvalid); }
      if AccountWithEmail(db.emails, email).Some? { return Err(EmailUnavailable); }
      var saved := db;
      if ActiveAuthenticator(db.authenticators, account).Some? {
        if stepUp.None? { return Err(StepUpRequired); }
        var stepUps :- UseStepUp(db, account, id, stepUp.value, ChangeEmail, now);
        db := db.(stepUps := stepUps);
      }
      db := db.(emailChanges := RevokeLive(db.emailChanges, OfAccount(db.emailChanges, account), now));
      var emailChanges := Insert(db.emailChanges, n.id, NewRow(n.digest, account, Some(now + ttl as real), email));
      if emailChanges.Err? {
        db := saved;
        return Err(emailChanges.error);
      }
      db := db.(emailChanges := emailChanges.value);
      return Ok(());
    }

    /** The statements of `consume_email_change` on the address and the challenges. */
    method ReplaceAddress(id: Id, now: Time)
      requires id in db.emailChanges && Live(db.emailChanges[id]) && db.emailChanges[id].account in db.emails
      requires forall a :: a in db.emails && db.emails[a].email == db.emailChanges[id].detail ==> a == db.emailChanges[id].account
      modifies this
      ensures var row := old(db).emailChanges[id];
              var consumed := Consume(old(db).emailChanges, id, now);
              db == old(db).(emails := ReplaceEmail(old(db).emails, row.account, row.detail, now),
                             emailChanges := RevokeLive(consumed, OfAccount(consumed, row.account) - {id}, now))
    {
      hide UniqueDigests, UniqueCurrent, UniqueTenants, UniqueCodes, UniqueEmails, UniqueActiveFactor;
      hide Consume, RevokeLive, OfAccount, ReplaceEmail;
      var row := db.emailChanges[id];
      db := db.(emails := ReplaceEmail(db.emails, row.account, row.detail, now));
      db := db.(emailChanges := Consume(db.emailChanges, id, now));
      db := db.(emailChanges := RevokeLive(db.emailChanges, OfAccount(db.emailChanges, row.account) - {id}, now));
    }

    method ConsumeEmailChange(token: Digest, now: Time) returns (r: Refusable<()>)
      modifies this
      ensures Performs(AccountStep(old(db), ConsumeEmailChangeOp(token, now)), old(db), db, r)
    {
      hide UniqueDigests, UniqueCurrent, UniqueTenants, UniqueCodes, UniqueEmails, UniqueActiveFactor, EndAccountAuthority;
      hide Consume, RevokeLive, OfAccount, ReplaceEmail, AccountWithEmail, Usable;
      var id :- Usable(db.emailChanges, token, now);
      var row := db.emailChanges[id];
      var holder := AccountWithEmail(db.emails, row.detail);
      if holder.Some? && holder.value != row.account { return Err(EmailUnavailable); }
      if row.account !in db.emails || !Verified(db.emails[row.account]) { return Err(Unavailable); }
      OnlyHolder(db.emails, row.detail, row.account);
      ReplaceAddress(id, now);
      RevokeAccountAuthority(row.account, now);
      return Ok(());
    }

    // ----- second factors

    method BeginTotpEnrollment(bearer: Digest, id: Id, referenceValid: bool, authenticator: Id, clock: Time, now: Time)
      returns (r: Refusable<()>)
      modifies this
      ensures Performs(FactorStep(old(db), BeginEnrollmentOp(bearer, id, referenceValid, authenticator, clock, now)), old(db), db, r)
    {
      hide UniqueDigests, UniqueCurrent, UniqueTenants, UniqueCodes, UniqueEmails, UniqueActiveFactor, LoadAccountSession;
      var session :- LoadAccountSession(db, bearer, id, clock);
      if !referenceValid { return Err(InvalidArgument); }
      if ActiveAuthenticator(db.authenticators, session.account).Some? { return Err(FactorExists); }
      var saved := db;
      db := db.(authenticators := RevokePending(db.authenticators, session.account, now));
      var authenticators := InsertPending(db.authenticators, authenticator, session.account);
      if authenticators.Err? {
        db := saved;
        return Err(authenticators.error);
      }
      db := db.(authenticators := authenticators.value);
      return Ok(());
    }

    method CompleteTotpEnrollment(bearer: Digest, id: Id, authenticator: Id, attestation: Digest, clock: Time, now: Time)
      returns (r: Refusable<()>)
      modifies this
      ensures Performs(FactorStep(old(db), CompleteEnrollmentOp(bearer, id, authenticator, attestation, clock, now)), old(db), db, r)
    {
      hide UniqueDigests, UniqueCurrent, UniqueTenants, UniqueCodes, UniqueEmails, UniqueActiveFactor;
      hide LoadAccountSession, UseAttestation;
      var session :- LoadAccountSession(db, bearer, id, clock);
      if authenticator !in db.authenticators { return Err(FactorUnavailable); }
      var row := db.authenticators[authenticator];
      if row.account != session.account || row.status != FactorPending || row.verifiedAt.Some? || row.revokedAt.Some? {
        return Err(FactorUnavailable);
      }
      var saved := db;
      var attestations :- UseAttestation(db, session.account, id, authenticator, attestation, EnrollFactor, now);
      db := db.(attestations := attestations);
      var authenticators := ActivateFactor(db.authenticators, authenticator, now);
      if authenticators.Err? {
        db := saved;
        return Err(authenticators.error);
      }
      db := db.(authenticators := authenticators.value);
      return Ok(());
    }

    /** `issue_mfa_recovery_codes`: the new codes are inserted one by one. */
    method IssueMfaRecoveryCodes(bearer: Digest, id: Id, codes: seq<Fresh>, stepUp: Option<Digest>, clock: Time, now: Time)
      returns (r: Refusable<()>)
      modifies this
      ensures Performs(FactorStep(old(db), IssueRecoveryCodesOp(bearer, id, codes, stepUp, clock, now)), old(db), db, r)
    {
      hide UniqueDigests, UniqueCurrent, UniqueTenants, UniqueCodes, UniqueEmails, UniqueActiveFactor;
      hide LoadAccountSession, UseStepUp, RevokeLive, OfAccount, InsertCodes, HasCodes;
      var session :- LoadAccountSession(db, bearer, id, clock);
      var account := session.account;
      if |codes| < 1 || |codes| > 20 { return Err(InvalidArgument); }
      if ActiveAuthenticator(db.authenticators, account).None? { return Err(FactorRequired); }
      var saved := db;
      if HasCodes(db.recoveryCodes, account) {
        if stepUp.None? { return Err(StepUpRequired); }
        var stepUps :- UseStepUp(db, account, id, stepUp.value, RotateRecovery, now);
        db := db.(stepUps := stepUps);
      }
      db := db.(recoveryCodes := RevokeLive(db.recoveryCodes, OfAccount(db.recoveryCodes, account), now));
      r := InsertRecoveryCodes(codes, account);
      if r.Err? { db := saved; }
    }

    /** The loop that inserts the codes; on a refusal the caller rolls back. */
    method InsertRecoveryCodes(codes: seq<Fresh>, account: Id) returns (r: Refusable<()>)
      modifies this
      ensures var all := InsertCodes(old(db).recoveryCodes, codes, account);
              && (all.Ok? ==> r == Ok(()) && db == old(db).(recoveryCodes := all.value))
              && (all.Err? ==> r == Err(all.error))
    {
      hide UniqueDigests, UniqueCurrent, UniqueTenants, UniqueCodes, UniqueEmails, UniqueActiveFactor;
      for i := 0 to |codes|
        invariant InsertCodes(old(db).recoveryCodes, codes[..i], account) == Ok(db.recoveryCodes)
        invariant db == old(db).(recoveryCodes := db.recoveryCodes)
      {
        assert codes[..i + 1][..i] == codes[..i];
        var inserted := Insert(db.recoveryCodes, codes[i].id, NewRow(codes[i].digest, account, None, ()));
        if inserted.Err? {
          InsertCodesStops(old(db).recoveryCodes, codes, i + 1, account);
          return Err(inserted.error);
        }
        db := db.(recoveryCodes := inserted.value);
      }
      assert codes[..|codes|] == codes;
      return Ok(());
    }

    method ExchangeMfaBrokerAttestation(bearer: Digest, id: Id, authenticator: Id, token: Digest, purpose: Purpose, n: Fresh,
                                        ttl: int, clock: Time, now: Time) returns (r: Refusable<()>)
      modifies this
      ensures Performs(FactorStep(old(db), ExchangeAttestationOp(bearer, id, authenticator, token, purpose, n, ttl, clock, now)),
                       old(db), db, r)
    {
      hide UniqueDigests, UniqueCurrent, UniqueTenants, UniqueCodes, UniqueEmails, UniqueActiveFactor;
      hide LoadAccountSession, UseAttestation, MintStepUp;
      var session :- LoadAccountSession(db, bearer, id, clock);
      var account := session.account;
      if purpose == UnknownPurpose || purpose == EnrollFactor { return Err(UnsupportedPurpose); }
      var factor := ActiveAuthenticator(db.authenticators, account);
      if factor.None? { return Err(FactorRequired); }
      if factor.value != authenticator { return Err(FactorMismatch); }
      var saved := db;
      var attestations :- UseAttestation(db, account, id, authenticator, token, purpose, now);
      db := db.(attestations := attestations);
      var stepUps := MintStepUp(db.stepUps, n, account, FactorDetail(id, authenticator, purpose), ttl, now);
      if stepUps.Err? {
        db := saved;
        return Err(stepUps.error);
      }
      db := db.(stepUps := stepUps.value);
      return Ok(());
    }

    method ExchangeMfaRecoveryCode(bearer: Digest, id: Id, code: Digest, purpose: Purpose, n: Fresh, ttl: int, clock: Time,
                                   now: Time) returns (r: Refusable<()>)
      modifies this
      ensures Performs(FactorStep(old(db), ExchangeRecoveryCodeOp(bearer, id, code, purpose, n, ttl, clock, now)), old(db), db, r)
    {
      hide UniqueDigests, UniqueCurrent, UniqueTenants, UniqueCodes, UniqueEmails, UniqueActiveFactor;
      hide LoadAccountSession, MintStepUp;
      var session :- LoadAccountSession(db, bearer, id, clock);
      var account := session.account;
      if purpose == UnknownPurpose || purpose == EnrollFactor { return Err(UnsupportedPurpose); }
      var factor := ActiveAuthenticator(db.authenticators, account);
      if factor.None? { return Err(FactorRequired); }
      var found := Lookup(db.recoveryCodes, code);
      if found.None? || db.recoveryCodes[found.value].account != account { return Err(Unavailable); }
      var used :- Usable(db.recoveryCodes, code, now);
      var saved := db;
      db := db.(recoveryCodes := Consume(db.recoveryCodes, used, now));
      var stepUps := MintStepUp(db.stepUps, n, account, FactorDetail(id, factor.value, purpose), ttl, now);
      if stepUps.Err? {
        db := saved;
        return Err(stepUps.error);
      }
      db := db.(stepUps := stepUps.value);
      return Ok(());
    }

    method ConsumeMfaStepUp(bearer: Digest, id: Id, token: Digest, purpose: Purpose, clock: Time, now: Time)
      returns (r: Refusable<()>)
      modifies this
      ensures Performs(FactorStep(old(db), ConsumeStepUpOp(bearer, id, token, purpose, clock, now)), old(db), db, r)
    {
      hide UniqueDigests, UniqueCurrent, UniqueTenants, UniqueCodes, UniqueEmails, UniqueActiveFactor;
      hide LoadAccountSession, UseStepUp;
      var session :- LoadAccountSession(db, bearer, id, clock);
      var stepUps :- UseStepUp(db, session.account, id, token, purpose, now);
      db := db.(stepUps := stepUps);
      return Ok(());
    }

    // ----- identities, organizations and memberships

    method CreateIdentity(id: Id) returns (r: Refusable<()>)
      modifies this
      ensures Performs(DefinitionStep(old(db), CreateIdentityOp(id)), old(db), db, r)
    {
      if id in db.identities { return Err(IntegrityFailure); }
      db := db.(identities := db.identities[id := true]);
      return Ok(());
    }

    method CreatePersonalAccount(identity: Id, id: Id) returns (r: Refusable<()>)
      modifies this
      ensures Performs(DefinitionStep(old(db), CreateAccountOp(identity, id)), old(db), db, r)
    {
      hide UniqueDigests, UniqueCurrent, UniqueTenants, UniqueCodes, UniqueEmails, UniqueActiveFactor;
      if id in db.accounts || identity !in db.identities { return Err(IntegrityFailure); }
      if exists a :: a in db.accounts && db.accounts[a].identity == identity { return Err(IntegrityFailure); }
      db := db.(accounts := db.accounts[id := Account(identity, true)]);
      return Ok(());
    }

    method CreateOrganization(id: Id, tenant: Id) returns (r: Refusable<()>)
      modifies this
      ensures Performs(DefinitionStep(old(db), CreateOrganizationOp(id, tenant)), old(db), db, r)
    {
      hide UniqueDigests, UniqueCurrent, UniqueTenants, UniqueCodes, UniqueEmails, UniqueActiveFactor;
      if id in db.organizations { return Err(IntegrityFailure); }
      var saved := db;
      db := db.(organizations := db.organizations[id := true]);
      var tenants := InsertTenant(db.tenants, tenant, id);
      if tenants.Err? {
        db := saved;
        return Err(tenants.error);
      }
      db := db.(tenants := tenants.value);
      return Ok(());
    }

    // ----- definitions

    method DefineRole(ref: DefinitionRef) returns (r: Refusable<()>)
      modifies this
      ensures Performs(DefinitionStep(old(db), DefineRoleOp(ref)), old(db), db, r)
    {
      if ref.version < 1 { return Err(InvalidArgument); }
      if ref in db.registry.roles { return Err(IntegrityFailure); }
      db := db.(registry := db.registry.(roles := db.registry.roles[ref := true]));
      return Ok(());
    }

    method DefineEntitlement(ref: DefinitionRef) returns (r: Refusable<()>)
      modifies this
      ensures Performs(DefinitionStep(old(db), DefineEntitlementOp(ref)), old(db), db, r)
    {
      if ref.version < 1 { return Err(InvalidArgument); }
      if ref in db.registry.entitlements { return Err(IntegrityFailure); }
      db := db.(registry := db.registry.(entitlements := db.registry.entitlements[ref := true]));
      return Ok(());
    }

    method DefinePolicy(ref: DefinitionRef) returns (r: Refusable<()>)
      modifies this
      ensures Performs(DefinitionStep(old(db), DefinePolicyOp(ref)), old(db), db, r)
    {
      if ref.version < 1 { return Err(InvalidArgument); }
      if ref in db.registry.policies { return Err(IntegrityFailure); }
      db := db.(registry := db.registry.(policies := db.registry.policies[ref := true]));
      return Ok(());
    }

    method DefineAdapter(id: Id, name: string) returns (r: Refusable<()>)
      modifies this
      ensures Performs(DefinitionStep(old(db), DefineAdapterOp(id, name)), old(db), db, r)
    {
      var adapters := db.registry.adapters;
      if id in adapters || exists a :: a in adapters && adapters[a].name == name { return Err(IntegrityFailure); }
      db := db.(registry := db.registry.(adapters := adapters[id := Adapter(name, true)]));
      return Ok(());
    }

    method DefineOperation(adapter: Id, id: Id, name: string) returns (r: Refusable<()>)
      modifies this
      ensures Performs(DefinitionStep(old(db), DefineOperationOp(adapter, id, name)), old(db), db, r)
    {
      var operations := db.registry.operations;
      if id in operations || adapter !in db.registry.adapters { return Err(IntegrityFailure); }
      if exists o :: o in operations && operations[o].adapter == adapter && operations[o].name == name {
        return Err(IntegrityFailure);
      }
      db := db.(registry := db.registry.(operations := operations[id := Operation(adapter, name, true)]));
      return Ok(());
    }

    // ----- invitations and grants

    method IssueInvitation(organization: Id, tenant: Id, roles: seq<DefinitionRef>, entitlements: seq<DefinitionRef>,
                           n: Fresh, ttl: int, now: Time) returns (r: Refusable<()>)
      modifies this
      ensures Performs(MembershipStep(old(db), IssueInvitationOp(organization, tenant, roles, entitlements, n, ttl, now)), old(db), db, r)
    {
      hide UniqueDigests, UniqueCurrent, UniqueTenants, UniqueCodes, UniqueEmails, UniqueActiveFactor;
      if ttl < 1 { return Err(InvalidArgument); }
      if !ActiveIn(db.organizations, organization) || tenant !in db.tenants || !db.tenants[tenant].active
         || db.tenants[tenant].organization != organization { return Err(ScopeRequired); }
      var rolesActive := AllActive(db.registry.roles, roles);
      if !rolesActive { return Err(RoleRequired); }
      var entitlementsActive := AllActive(db.registry.entitlements, entitlements);
      if !entitlementsActive { return Err(EntitlementRequired); }
      var row := Invitation(n.digest, organization, tenant, roles, entitlements, now + ttl as real, 1, 0, true);
      var invitations :- InsertInvitation(db.invitations, n.id, row);
      db := db.(invitations := invitations);
      return Ok(());
    }

    method RedeemInvitation(code: Digest, identity: Id, membership: Id, now: Time) returns (r: Refusable<()>)
      modifies this
      ensures Performs(MembershipStep(old(db), RedeemInvitationOp(code, identity, membership, now)), old(db), db, r)
    {
      hide UniqueDigests, UniqueCurrent, UniqueTenants, UniqueCodes, UniqueEmails, UniqueActiveFactor, AddHoldings;
      hide InvitationWithCode, CurrentMembership, InsertMembership, UseInvitation;
      var found := InvitationWithCode(db.invitations, code);
      if found.None? { return Err(Unavailable); }
      var row := db.invitations[found.value];
      if !row.active { return Err(Unavailable); }
      if row.expiresAt <= now { return Err(Expired); }
      if row.consumedUses >= row.maximumUses { return Err(AlreadyConsumed); }
      if CurrentMembership(db.memberships, identity, row.organization).Some? { return Err(MembershipExists); }
      if identity !in db.identities { return Err(IntegrityFailure); }
      var saved := db;
      var memberships :- InsertMembership(db.memberships, membership, identity, row.organization);
      db := db.(memberships := memberships);
      var assignments := InsertHoldings(db.registry.assignments, db.registry.roles, membership, row.roles);
      if assignments.Err? {
        db := saved;
        return Err(assignments.error);
      }
      db := db.(registry := db.registry.(assignments := assignments.value));
      var grants := InsertHoldings(db.registry.grants, db.registry.entitlements, membership, row.entitlements);
      if grants.Err? {
        db := saved;
        return Err(grants.error);
      }
      db := db.(registry := db.registry.(grants := grants.value));
      db := db.(invitations := UseInvitation(db.invitations, found.value));
      return Ok(());
    }

    method GrantAdapterOperation(id: Id, b: Binding) returns (r: Refusable<()>)
      modifies this
      ensures Performs(MembershipStep(old(db), GrantAdapterOp(id, b)), old(db), db, r)
    {
      hide UniqueDigests, UniqueCurrent, UniqueTenants, UniqueCodes, UniqueEmails, UniqueActiveFactor;
      var g := db.registry;
      if !ActiveDefinition(g.policies, b.policy) { return Err(PolicyRequired); }
      if !Holds(g.grants, b.membership, b.entitlement) { return Err(EntitlementRequired); }
      if b.operation !in g.operations || !g.operations[b.operation].active { return Err(OperationRequired); }
      if g.operations[b.operation].adapter != b.adapter { return Err(OperationMismatch); }
      if id in g.bindings || b.adapter !in g.adapters || b.entitlement !in g.entitlements || b.membership !in db.memberships {
        return Err(IntegrityFailure);
      }
      db := db.(registry := g.(bindings := g.bindings[id := b.(active := true)]));
      db := db.(memberships := BumpAuthorization(db.memberships, b.membership));
      return Ok(());
    }

    method EndMembership(id: Id, status: EndingStatus, now: Time) returns (r: Refusable<()>)
      modifies this
      ensures Performs(MembershipStep(old(db), EndMembershipOp(id, status, now)), old(db), db, r)
    {
      hide UniqueDigests, UniqueCurrent, UniqueTenants, UniqueCodes, UniqueEmails, UniqueActiveFactor, EndMembershipSessions;
      hide SetMembership;
      if id !in db.memberships { return Err(MembershipRequired); }
      var current := db.memberships[id].status;
      if !(current == MembershipActive || (status == MembershipRevoked && current == MembershipSuspended)) {
        return Err(MembershipRequired);
      }
      db := db.(memberships := SetMembership(db.memberships, id, status));
      RevokeMembershipSessions(id, now);
      return Ok(());
    }

    /** `suspend_membership`, `leave_membership` and `revoke_membership` differ in the target status;
        only revoking also accepts a suspended membership. */
    method SuspendMembership(id: Id, now: Time) returns (r: Refusable<()>)
      modifies this
      ensures Performs(MembershipStep(old(db), EndMembershipOp(id, MembershipSuspended, now)), old(db), db, r)
    {
      r := EndMembership(id, MembershipSuspended, now);
    }

    method LeaveMembership(id: Id, now: Time) returns (r: Refusable<()>)
      modifies this
      ensures Performs(MembershipStep(old(db), EndMembershipOp(id, MembershipLeft, now)), old(db), db, r)
    {
      r := EndMembership(id, MembershipLeft, now);
    }

    method RevokeMembership(id: Id, now: Time) returns (r: Refusable<()>)
      modifies this
      ensures Performs(MembershipStep(old(db), EndMembershipOp(id, MembershipRevoked, now)), old(db), db, r)
    {
      r := EndMembership(id, MembershipRevoked, now);
    }

    // ----- organization sessions and handoffs

    method DeriveOrganizationSession(bearer: Digest, id: Id, organization: Id, n: Fresh, ttl: int, clock: Time, now: Time)
      returns (r: Refusable<()>)
      modifies this
      ensures Performs(MembershipStep(old(db), DeriveSessionOp(bearer, id, organization, n, ttl, clock, now)), old(db), db, r)
    {
      hide UniqueDigests, UniqueCurrent, UniqueTenants, UniqueCodes, UniqueEmails, UniqueActiveFactor, LoadAccountSession;
      if ttl < 1 { return Err(InvalidArgument); }
      var parent :- LoadAccountSession(db, bearer, id, clock);
      var identity := parent.detail.identity;
      var membership := CurrentMembership(db.memberships, identity, organization);
      if membership.None? || db.memberships[membership.value].status != MembershipActive { return Err(MembershipRequired); }
      var m := db.memberships[membership.value];
      var tenant := TenantOf(db.tenants, organization);
      if tenant.None? || !db.tenants[tenant.value].active { return Err(TenantRequired); }
      var expiry := now + ttl as real;
      if parent.expiresAt.Some? { expiry := Earlier(expiry, parent.expiresAt.value); }
      var detail := SessionDetail(identity, membership.value, organization, tenant.value, id, m.authorizationVersion,
                                  m.entitlementVersion, parent.detail.credentialRevision);
      var sessions :- Insert(db.sessions, n.id, NewRow(n.digest, parent.account, Some(expiry), detail));
      db := db.(sessions := sessions);
      return Ok(());
    }

    method IssueConsumerHandoff(bearer: Digest, session: Id, consumer: string, n: Fresh, ttl: int,
                                clock: Time, now: Time) returns (r: Refusable<()>)
      modifies this
      ensures Performs(MembershipStep(old(db), IssueHandoffOp(bearer, session, consumer, n, ttl, clock, now)),
                       old(db), db, r)
    {
      hide UniqueDigests, UniqueCurrent, UniqueTenants, UniqueCodes, UniqueEmails, UniqueActiveFactor, Authenticate;
      if ttl < 1 { return Err(InvalidArgument); }
      if consumer != CONSUMER { return Err(UnsupportedConsumer); }
      var subject :- Authenticate(db, bearer, session, clock);
      var d := subject.detail;
      var detail := HandoffDetail(consumer, d.identity, d.membership, d.organization, d.tenant, session,
                                  d.authorizationVersion, d.entitlementVersion);
      var handoffs :- Insert(db.handoffs, n.id, NewRow(n.digest, subject.account, Some(now + ttl as real), detail));
      db := db.(handoffs := handoffs);
      return Ok(());
    }

    method ConsumeConsumerHandoff(token: Digest, consumer: string, now: Time, clock: Time)
      returns (r: Refusable<()>)
      modifies this
      ensures Performs(MembershipStep(old(db), ConsumeHandoffOp(token, consumer, now, clock)), old(db), db, r)
    {
      hide UniqueDigests, UniqueCurrent, UniqueTenants, UniqueCodes, UniqueEmails, UniqueActiveFactor, HandoffGraph;
      if consumer != CONSUMER { return Err(UnsupportedConsumer); }
      var found := Lookup(db.handoffs, token);
      if found.None? { return Err(Unavailable); }
      if db.handoffs[found.value].detail.consumer != consumer { return Err(ConsumerMismatch); }
      var id :- Usable(db.handoffs, token, now);
      var _ :- HandoffGraph(db, db.handoffs[id], now, clock);
      db := db.(handoffs := Consume(db.handoffs, id, now));
      return Ok(());
    }

    method RevokeConsumerHandoff(id: Id, now: Time) returns (r: Refusable<()>)
      modifies this
      ensures Performs(MembershipStep(old(db), RevokeHandoffOp(id, now)), old(db), db, r)
    {
      hide UniqueDigests, UniqueCurrent, UniqueTenants, UniqueCodes, UniqueEmails, UniqueActiveFactor;
      if id !in db.handoffs || !Live(db.handoffs[id]) { return Err(Unavailable); }
      db := db.(handoffs := RevokeLive(db.handoffs, {id}, now));
      return Ok(());
    }
  }

  lemma KeepsUnder(t: Table<SessionDetail>, parents: set<Id>, now: Time)
    ensures Under(RevokeActive(t, Under(t, parents), now), parents) == Under(t, parents)
  {
    hide UniqueDigests;
  }

  lemma KeepsMembership(t: Table<SessionDetail>, membership: Id, now: Time)
    ensures InMembership(RevokeLive(t, InMembership(t, membership), now), membership) == InMembership(t, membership)
  {
    hide UniqueDigests;
  }

  lemma NoneEnded(db: Db, now: Time)
    ensures EndSessionsUnder(db, {}, now) == db
  {
    hide UniqueDigests, UniqueCurrent, UniqueTenants, UniqueCodes, UniqueEmails, UniqueActiveFactor;
    assert RevokeActive(db.sessions, Under(db.sessions, {}), now) == db.sessions;
    assert RevokeLive(db.handoffs, From(db.handoffs, RevokedAmong(db.sessions, Under(db.sessions, {}))), now) == db.handoffs;
  }

  /** Once an insertion is refused, the whole batch is. */
  lemma {:induction false} InsertCodesStops(t: Table<()>, codes: seq<Fresh>, i: nat, account: Id)
    requires i <= |codes| && InsertCodes(t, codes[..i], account).Err?
    ensures InsertCodes(t, codes, account) == InsertCodes(t, codes[..i], account)
    decreases |codes|
  {
    hide UniqueDigests;
    if i < |codes| {
      var n := |codes| - 1;
      assert codes[..n][..i] == codes[..i];
      InsertCodesStops(t, codes[..n], i, account);
    } else {
      assert codes[..i] == codes;
    }
  }
}
