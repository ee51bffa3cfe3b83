/** Whoever has the proofs is answered, and the answer is the session. */
module Answers {
  import opened Wrappers
  import opened Sessions
  import opened AccountStores
  import opened Pending
  import RecoveryCodes
  import opened Login
  import opened Gate
  import opened Factors

  // ----- The gate opens for whoever has the proofs -----

  /** What the right password of an unlocked account is answered. */
  lemma RightPasswordIsAnswered(p: Policy, s: State, e: Event, u: Id)
    requires WellFormedState(s) && ProvesPassword(p, s, e, u) && Insertable(s.sessions, NewSession(u, e.call))
    ensures var (s', r) := Step(p, s, e);
      if HasRealFactor(s, u)
      then r == SecondFactorRequired(Issue(u, e.call.later), Methods(s, u)) && Issue(u, e.call.later) in s'.signed
      else r.SignedIn? && e.call.newSession in s'.sessions && s'.sessions[e.call.newSession].userId == u
  {
    hide Step, Methods;
    PasswordPasses(p, s, e);
    var v := TheirUser(s, e.action.email, u);
    var proved := s.(users := s.users[u := AfterSuccess(p, v, e.action.password, e.call)]);
    MethodsAre(proved, u);
    SameMethods(s, proved, u);
  }

  /** The email of a user leads to that user. */
  lemma TheirUser(s: State, email: string, u: Id) returns (v: User)
    requires WellFormedState(s) && u in s.users && s.users[u].email == email
    ensures UserByEmail(s.users, email) == Some(v) && v.id == u && v == s.users[u]
  {
    assert HasEmail(s.users, email);
    v := UserByEmail(s.users, email).value;
  }

  lemma SameMethods(s: State, s': State, u: Id)
    requires s'.secrets == s.secrets && s'.passkeys == s.passkeys && s'.codes == s.codes
    ensures Methods(s', u) == Methods(s, u)
  {
  }

  // ----- ... on every path -----

  /** What the gate answers a user whose primary factor is proved. */
  ghost predicate Passes(s: State, e: Event, s': State, r: Outcome, u: Id) {
    if HasRealFactor(s, u)
    then r == SecondFactorRequired(Issue(u, e.call.later), Methods(s, u)) && Issue(u, e.call.later) in s'.signed && s'.sessions == s.sessions
    else r.SignedIn? && r.access.subject == u
  }

  lemma GateAnswersWhom(p: Policy, s: State, e: Event, proved: State, u: Id)
    requires proved.sessions == s.sessions && proved.secrets == s.secrets && proved.passkeys == s.passkeys && proved.codes == s.codes
    requires Insertable(s.sessions, NewSession(u, e.call))
    ensures var (s', r) := CompletePrimaryAuth(p, proved, u, e.call); Passes(s, e, s', r, u)
  {
    hide Methods;
    MethodsAre(proved, u);
    SameMethods(s, proved, u);
  }

  lemma LinkSignsIn(p: Policy, s: State, e: Event, u: Id)
    requires WellFormedState(s) && ProvesLink(s, e, u) && u in s.users && Insertable(s.sessions, NewSession(u, e.call))
    ensures var (s', r) := Step(p, s, e); Passes(s, e, s', r, u)
  {
    hide CompletePrimaryAuth, Passes;
    var id :| id in s.mailed && IsGoodLink(s.mailed[id], e.action.raw, u, e.call.at);
    assert HasTokenHash(s.mailed, HashToken(e.action.raw));
    var vt := TokenByHash(s.mailed, HashToken(e.action.raw)).value;
    assert vt == s.mailed[id] && vt.id == id;
    GateAnswersWhom(p, s, e, s.(mailed := s.mailed[id := vt.(usedAt := Some(e.call.later))]), u);
  }

  lemma IdentitySignsIn(p: Policy, s: State, e: Event, u: Id)
    requires WellFormedState(s) && ProvesOAuth(s, e, u) && Insertable(s.sessions, NewSession(u, e.call))
    requires HasIdentity(s.identities, e.action.provider, e.action.externalId) ==> u in s.users
    ensures var (s', r) := Step(p, s, e); Passes(s, e, s', r, u)
  {
    hide CompletePrimaryAuth, Passes;
    var (provider, externalId) := (e.action.provider, e.action.externalId);
    if HasIdentity(s.identities, provider, externalId) {
      var id :| id in s.identities && IsIdentity(s.identities[id], provider, externalId) && s.identities[id].userId == u;
      assert IdentityOf(s.identities, provider, externalId) == Some(s.identities[id]);
      GateAnswersWhom(p, s, e, s, u);
    } else {
      GateAnswersWhom(p, s, e, s.(users := s.users[u := User(u, e.action.email, "", 0, None)],
                                  identities := s.identities[e.call.newRow := OAuthIdentity(e.call.newRow, u, provider, externalId)]), u);
    }
  }

  /** Whoever proves a primary factor, on any path, is signed in, or paused with all enrolled methods when a real factor is enrolled. */
  lemma ProvedPrimaryPasses(p: Policy, s: State, e: Event, u: Id)
    requires WellFormedState(s) && ProvesPrimary(p, s, e, u) && Insertable(s.sessions, NewSession(u, e.call))
    requires u in s.users || (e.action.OAuth? && !HasIdentity(s.identities, e.action.provider, e.action.externalId))
    ensures var (s', r) := Step(p, s, e); Passes(s, e, s', r, u)
  {
    hide Step, Passes, WellFormedState;
    if ProvesPassword(p, s, e, u) {
      PasswordPasses(p, s, e);
      var v := TheirUser(s, e.action.email, u);
      GateAnswersWhom(p, s, e, s.(users := s.users[u := AfterSuccess(p, v, e.action.password, e.call)]), u);
    } else if ProvesLink(s, e, u) {
      LinkSignsIn(p, s, e, u);
    } else {
      IdentitySignsIn(p, s, e, u);
    }
  }

  lemma FinishSignsIn(p: Policy, s: State, u: Id, c: Call)
    requires Insertable(s.sessions, NewSession(u, c))
    ensures var r := FinishLogin(p, s, u, c).1; r.SignedIn? && r.access.subject == u
  {
  }

  /** Whoever proves a second factor of an account there is, whichever it is, is signed in. */
  lemma ProvedSecondSignsIn(p: Policy, s: State, e: Event, u: Id)
    requires ProvesSecond(p, s, e, u) && u in s.users && Insertable(s.sessions, NewSession(u, e.call))
    ensures var r := Step(p, s, e).1; r.SignedIn? && r.access.subject == u
  {
    hide FinishLogin, RecoveryCodes.HashRecoveryCode;
    if e.action.AnswerRecoveryCode? {
      FinishSignsIn(p, s.(codes := SpendsCode(s, e, u).value), u, e.call);
    } else {
      FinishSignsIn(p, s, u, e.call);
    }
  }

  // ----- Refusals -----

  /** Why a password is refused: an unknown email and a wrong password are told apart by nothing. */
  lemma PasswordRefusals(p: Policy, s: State, e: Event)
    requires WellFormedState(s) && e.action.Password?
    ensures var r := Step(p, s, e).1; var theirs := (u: Id) => u in s.users && s.users[u].email == e.action.email;
      && (r == Refused(RateLimited) <==> !e.action.allowed)
      && (r == Refused(AccountLocked) <==> e.action.allowed && exists u :: theirs(u) && Locked(s.users[u], e.call.at))
      && (r == Refused(InvalidCredentials) <==>
            e.action.allowed && forall u :: theirs(u) ==> !Locked(s.users[u], e.call.at) && !p.passwordMatches(s.users[u].passwordHash, e.action.password))
  {
    hide PasswordLogin;
    LoginRefusals(p, s, e.action.email, e.action.password, e.action.allowed, e.call);
    var found := UserByEmail(s.users, e.action.email);
    if found.None? {
      assert forall u | u in s.users :: s.users[u].email != e.action.email;
    } else {
      assert found.value.id in s.users && s.users[found.value.id] == found.value;
      assert forall u | u in s.users && s.users[u].email == e.action.email :: u == found.value.id;
    }
  }

  lemma LoginRefusals(p: Policy, s: State, email: string, password: string, allowed: bool, c: Call)
    ensures var (found, r) := (UserByEmail(s.users, email), PasswordLogin(p, s, email, password, allowed, c).1);
      && (r == Refused(RateLimited) <==> !allowed)
      && (r == Refused(AccountLocked) <==> allowed && found.Some? && Locked(found.value, c.at))
      && (r == Refused(InvalidCredentials) <==>
            allowed && (found.None? || (!Locked(found.value, c.at) && !p.passwordMatches(found.value.passwordHash, password))))
  {
    hide CompletePrimaryAuth, Locked;
    var found := UserByEmail(s.users, email);
    if found.Some? {
      var u := found.value;
      GateRefusesOnly(p, s.(users := s.users[u.id := AfterSuccess(p, u, password, c)]), u.id, c);
    }
  }

  lemma GateRefusesOnly(p: Policy, s: State, u: Id, c: Call)
    ensures var r := CompletePrimaryAuth(p, s, u, c).1; !r.Refused? || r.reason == SessionNotStored
  {
  }

  /** Why a link is refused: no such login link or one already used, then one too old, then a user no longer there. */
  lemma LinkRefusals(p: Policy, s: State, raw: string, c: Call)
    requires WellFormedState(s)
    ensures var r := CompleteMagicLink(p, s, raw, c).1; var theirs := (id: Id) => id in s.mailed && s.mailed[id].tokenHash == HashToken(raw);
      && (r == Refused(TokenInvalid) <==> forall id :: theirs(id) ==> s.mailed[id].purpose != MagicLink || s.mailed[id].usedAt.Some?)
      && (r == Refused(TokenExpired) <==>
            exists id :: theirs(id) && s.mailed[id].purpose == MagicLink && s.mailed[id].usedAt.None? && s.mailed[id].expiresAt < c.at)
      && (r == Refused(NoSuchRow) <==> exists id :: theirs(id) && IsGoodLink(s.mailed[id], raw, s.mailed[id].userId, c.at) && s.mailed[id].userId !in s.users)
  {
    hide CompletePrimaryAuth;
    var found := TokenByHash(s.mailed, HashToken(raw));
    if found.Some? {
      var vt := found.value;
      assert vt.id in s.mailed && s.mailed[vt.id] == vt;
      GateRefusesOnly(p, s.(mailed := s.mailed[vt.id := vt.(usedAt := Some(c.later))]), vt.userId, c);
    } else {
      assert forall id | id in s.mailed :: s.mailed[id].tokenHash != HashToken(raw);
    }
  }

  /** Why a provider's sign-in is refused: its user is gone, or the email is another account's. */
  lemma OAuthRefusals(p: Policy, s: State, provider: string, externalId: string, email: string, c: Call)
    requires WellFormedState(s)
    ensures var r := LoginWithOAuth(p, s, provider, externalId, email, c).1;
      && (r == Refused(OAuthEmailConflict) <==> !HasIdentity(s.identities, provider, externalId) && HasEmail(s.users, email))
      && (r == Refused(NoSuchRow) <==>
            exists id :: id in s.identities && IsIdentity(s.identities[id], provider, externalId) && s.identities[id].userId !in s.users)
  {
    hide CompletePrimaryAuth;
    var found := IdentityOf(s.identities, provider, externalId);
    if found.Some? {
      GateRefusesOnly(p, s, found.value.userId, c);
    } else {
      GateRefusesOnly(p, s.(users := s.users[c.newId := User(c.newId, email, "", 0, None)],
                            identities := s.identities[c.newRow := OAuthIdentity(c.newRow, c.newId, provider, externalId)]), c.newId, c);
    }
  }

  /** Why a second factor is refused: the pending token before all else, then what is missing, then what does not match. */
  lemma SecondRefusals(p: Policy, s: State, e: Event)
    requires e.action.AnswerTOTP? || e.action.AnswerRecoveryCode? || e.action.AnswerWebAuthn?
    ensures var (r, v) := (Step(p, s, e).1, Verify(s.signed, e.action.pending, e.call.at));
      && (r == Refused(InvalidPendingLogin) <==> v.None?)
      && (v.Some? && !e.action.AnswerRecoveryCode? && v.value !in s.users ==> r == Refused(NoSuchRow))
      && (v.Some? && v.value in s.users ==>
            && (e.action.AnswerTOTP? ==>
                  && (r == Refused(TOTPNotEnabled) <==> !HasConfirmedTOTP(s, v.value))
                  && (r == Refused(InvalidTOTPCode) <==> HasConfirmedTOTP(s, v.value) && !ProvesTOTP(p, s, e, v.value)))
            && (e.action.AnswerRecoveryCode? ==> (r == Refused(InvalidRecoveryCode) <==> !ProvesRecoveryCode(s, e, v.value)))
            && (e.action.AnswerWebAuthn? ==>
                  && (r == Refused(InvalidCeremonyToken) <==> !p.ceremonyOpens(e.action.ceremony))
                  && (r == Refused(InvalidWebAuthnResponse) <==> p.ceremonyOpens(e.action.ceremony) && !ProvesPasskey(p, s, e, v.value))))
  {
    match e.action
    case AnswerTOTP(_, _) => TOTPRefusals(p, s, e);
    case AnswerRecoveryCode(_, _) => CodeRefusals(p, s, e);
    case AnswerWebAuthn(_, _, _) => PasskeyRefusals(p, s, e);
  }

  lemma FinishRefusesOnly(p: Policy, s: State, u: Id, c: Call)
    ensures var r := FinishLogin(p, s, u, c).1; !r.Refused? || r.reason == SessionNotStored
  {
  }

  lemma TOTPRefusals(p: Policy, s: State, e: Event)
    requires e.action.AnswerTOTP?
    ensures var (r, v) := (Step(p, s, e).1, Verify(s.signed, e.action.pending, e.call.at));
      && (r == Refused(InvalidPendingLogin) <==> v.None?)
      && (v.Some? && v.value !in s.users ==> r == Refused(NoSuchRow))
      && (v.Some? && v.value in s.users ==>
            && (r == Refused(TOTPNotEnabled) <==> !HasConfirmedTOTP(s, v.value))
            && (r == Refused(InvalidTOTPCode) <==> HasConfirmedTOTP(s, v.value) && !ProvesTOTP(p, s, e, v.value)))
  {
    hide FinishLogin;
    var v := Verify(s.signed, e.action.pending, e.call.at);
    if v.Some? {
      FinishRefusesOnly(p, s, v.value, e.call);
    }
  }

  lemma CodeRefusals(p: Policy, s: State, e: Event)
    requires e.action.AnswerRecoveryCode?
    ensures var (r, v) := (Step(p, s, e).1, Verify(s.signed, e.action.pending, e.call.at));
      && (r == Refused(InvalidPendingLogin) <==> v.None?)
      && (v.Some? ==> (r == Refused(InvalidRecoveryCode) <==> !ProvesRecoveryCode(s, e, v.value)))
  {
    hide FinishLogin;
    var v := Verify(s.signed, e.action.pending, e.call.at);
    if v.Some? && SpendsCode(s, e, v.value).Some? {
      FinishRefusesOnly(p, s.(codes := SpendsCode(s, e, v.value).value), v.value, e.call);
    }
  }

  lemma PasskeyRefusals(p: Policy, s: State, e: Event)
    requires e.action.AnswerWebAuthn?
    ensures var (r, v) := (Step(p, s, e).1, Verify(s.signed, e.action.pending, e.call.at));
      && (r == Refused(InvalidPendingLogin) <==> v.None?)
      && (v.Some? && v.value !in s.users ==> r == Refused(NoSuchRow))
      && (v.Some? && v.value in s.users ==>
            && (r == Refused(InvalidCeremonyToken) <==> !p.ceremonyOpens(e.action.ceremony))
            && (r == Refused(InvalidWebAuthnResponse) <==> p.ceremonyOpens(e.action.ceremony) && !ProvesPasskey(p, s, e, v.value)))
  {
    hide FinishLogin;
    var v := Verify(s.signed, e.action.pending, e.call.at);
    if v.Some? {
      FinishRefusesOnly(p, s, v.value, e.call);
    }
  }

  /** A request for a link is answered alike for every email, and mails one only to an account. */
  lemma LinkRequestsLookAlike(p: Policy, s: State, e: Event, f: Event)
    requires e.action.AskForLink? && f.action.AskForLink? && e.action.allowed == f.action.allowed
    ensures Step(p, s, e).1 == Step(p, s, f).1 == if e.action.allowed then Done else Refused(RateLimited)
    ensures !HasEmail(s.users, e.action.email) ==> Next(p, s, e) == s
  {
  }

  /** A paused login finishes with the right code for as long as its pending token lives. */
  lemma PausedLoginFinishes(p: Policy, s: State, e: Event, u: Id, code: string, c: Call)
    requires WellFormedState(s) && ProvesPassword(p, s, e, u) && HasConfirmedTOTP(s, u)
    requires Insertable(s.sessions, NewSession(u, e.call)) && Insertable(s.sessions, NewSession(u, c))
    requires e.call.later <= c.at < e.call.later + PENDING_TTL - e.call.later % SECOND
    requires p.totpMatches(s.secrets[u].secret, code, c.later)
    ensures var s' := Next(p, s, e); var pending := Issue(u, e.call.later);
      CompleteLoginWithTOTP(p, s', pending, code, c).1 == SignedIn(AccessToken(u, c.later + p.accessTTL), c.newRefresh)
  {
    var s' := Next(p, s, e);
    RightPasswordIsAnswered(p, s, e, u);
    PausingKeepsSessions(p, s, e, u);
    PasswordKeepsFactors(p, s, e);
    PendingLifetime(s'.signed, u, e.call.later, c.at);
    assert s'.signed + {Issue(u, e.call.later)} == s'.signed;
  }

  lemma PausingKeepsSessions(p: Policy, s: State, e: Event, u: Id)
    requires WellFormedState(s) && ProvesPassword(p, s, e, u) && HasRealFactor(s, u)
    ensures Next(p, s, e).sessions == s.sessions && u in Next(p, s, e).users
  {
    var v := TheirUser(s, e.action.email, u);
    MethodsAre(s.(users := s.users[u := AfterSuccess(p, v, e.action.password, e.call)]), u);
  }

  /**
   A code is not used up: after it has signed in, the same code with the same pending token signs in again
   exactly while the code still matches and the token still lives, and leaves two sessions of one login.
   */
  lemma CodeSignsInAgain(p: Policy, s: State, pending: Jwt, code: string, c: Call, d: Call)
    requires CompleteLoginWithTOTP(p, s, pending, code, c).1.SignedIn?
    requires Insertable(CompleteLoginWithTOTP(p, s, pending, code, c).0.sessions, NewSession(pending.subject, d))
    ensures var (u, s') := (pending.subject, CompleteLoginWithTOTP(p, s, pending, code, c).0);
      var (s'', r) := CompleteLoginWithTOTP(p, s', pending, code, d);
      && (r.SignedIn? <==> d.at < pending.expiresAt * SECOND && p.totpMatches(s.secrets[u].secret, code, d.later))
      && (r.SignedIn? ==>
            && c.newSession != d.newSession && {c.newSession, d.newSession} <= s''.sessions.Keys
            && s''.sessions[c.newSession].userId == s''.sessions[d.newSession].userId == u)
  {
  }

  // ----- The answer and the session go together -----

  /** Signed in: one new session, live, of the caller's device, the root of its own family, found by the refresh token handed out. Otherwise: no new session. */
  ghost predicate AnswerFits(p: Policy, s: State, s': State, r: Outcome, c: Call) {
    if r.SignedIn? then
      && c.newSession !in s.sessions && s'.sessions.Keys == s.sessions.Keys + {c.newSession}
      && s'.sessions[c.newSession]
         == Session(c.newSession, c.newSession, r.access.subject, HashToken(r.refresh), c.ip, c.userAgent, c.later, None)
      && r.access in s'.signed && r.access == AccessToken(r.access.subject, c.later + p.accessTTL) && r.refresh == c.newRefresh
    else s'.sessions.Keys == s.sessions.Keys
  }

  lemma FinishAnswers(p: Policy, s: State, before: State, u: Id, c: Call)
    requires before.sessions == s.sessions
    ensures var (s', r) := FinishLogin(p, before, u, c); AnswerFits(p, s, s', r, c)
  {
  }

  lemma GateAnswers(p: Policy, s: State, before: State, u: Id, c: Call)
    requires before.sessions == s.sessions
    ensures var (s', r) := CompletePrimaryAuth(p, before, u, c); AnswerFits(p, s, s', r, c)
  {
    hide FinishLogin;
    FinishAnswers(p, s, before, u, c);
  }

  ghost predicate StepAnswers(p: Policy, s: State, e: Event) {
    AnswerFits(p, s, Step(p, s, e).0, Step(p, s, e).1, e.call)
  }

  lemma PasswordAnswers(p: Policy, s: State, e: Event)
    requires e.action.Password?
    ensures StepAnswers(p, s, e)
  {
    hide FinishLogin, CompletePrimaryAuth;
    var found := UserByEmail(s.users, e.action.email);
    if found.Some? {
      var u := found.value;
      GateAnswers(p, s, s.(users := s.users[u.id := AfterSuccess(p, u, e.action.password, e.call)]), u.id, e.call);
    }
  }

  lemma LinkAnswers(p: Policy, s: State, e: Event)
    requires e.action.FollowLink?
    ensures StepAnswers(p, s, e)
  {
    hide FinishLogin, CompletePrimaryAuth;
    var found := TokenByHash(s.mailed, HashToken(e.action.raw));
    if found.Some? {
      var vt := found.value;
      var used := if vt.id in s.mailed then s.(mailed := s.mailed[vt.id := s.mailed[vt.id].(usedAt := Some(e.call.later))]) else s;
      GateAnswers(p, s, used, vt.userId, e.call);
    }
  }

  lemma OAuthAnswers(p: Policy, s: State, e: Event)
    requires e.action.OAuth?
    ensures StepAnswers(p, s, e)
  {
    hide FinishLogin, CompletePrimaryAuth;
    var c := e.call;
    var found := IdentityOf(s.identities, e.action.provider, e.action.externalId);
    if found.Some? {
      GateAnswers(p, s, s, found.value.userId, c);
    } else {
      GateAnswers(p, s, s.(users := s.users[c.newId := User(c.newId, e.action.email, "", 0, None)],
                           identities := s.identities[c.newRow := OAuthIdentity(c.newRow, c.newId, e.action.provider, e.action.externalId)]),
                  c.newId, c);
    }
  }

  lemma AnswersAnswer(p: Policy, s: State, e: Event)
    requires e.action.AnswerTOTP? || e.action.AnswerWebAuthn?
    ensures StepAnswers(p, s, e)
  {
    hide FinishLogin, CompletePrimaryAuth;
    var u := Verify(s.signed, e.action.pending, e.call.at);
    if u.Some? {
      FinishAnswers(p, s, s, u.value, e.call);
    }
  }

  lemma RecoveryCodeAnswers(p: Policy, s: State, e: Event)
    requires e.action.AnswerRecoveryCode?
    ensures StepAnswers(p, s, e)
  {
    hide FinishLogin, CompletePrimaryAuth;
    var u := Verify(s.signed, e.action.pending, e.call.at);
    if u.Some? && SpendsCode(s, e, u.value).Some? {
      FinishAnswers(p, s, s.(codes := SpendsCode(s, e, u.value).value), u.value, e.call);
    }
  }

  lemma QuietStepAnswers(p: Policy, s: State, e: Event)
    requires !(e.action.Password? || e.action.FollowLink? || e.action.OAuth?)
    requires !(e.action.AnswerTOTP? || e.action.AnswerRecoveryCode? || e.action.AnswerWebAuthn?)
    ensures StepAnswers(p, s, e)
  {
    if e.action.AskForLink? || e.action.Register? || e.action.SetPassword? || e.action.Link? {
      AccountChangesCreateNothing(p, s, e);
      AccountChangesSignNobodyIn(p, s, e);
    } else {
      EnrolmentCreatesNothing(p, s, e);
      EnrolmentSignsNobodyIn(p, s, e);
    }
  }

  lemma AccountChangesSignNobodyIn(p: Policy, s: State, e: Event)
    requires e.action.AskForLink? || e.action.Register? || e.action.SetPassword? || e.action.Link?
    ensures !Step(p, s, e).1.SignedIn?
  {
  }

  lemma EnrolmentSignsNobodyIn(p: Policy, s: State, e: Event)
    requires e.action.Enroll? || e.action.Confirm? || e.action.Disable? || e.action.NewCodes? || e.action.AddPasskey? || e.action.RemovePasskey?
    ensures !Step(p, s, e).1.SignedIn?
  {
  }

  /** Whatever the call, tokens are answered if and only if a session was created, and they are that session's. */
  lemma AnswerIsTheSession(p: Policy, s: State, e: Event)
    ensures StepAnswers(p, s, e)
  {
    match e.action
    case Password(_, _, _) => PasswordAnswers(p, s, e);
    case FollowLink(_) => LinkAnswers(p, s, e);
    case OAuth(_, _, _) => OAuthAnswers(p, s, e);
    case AnswerTOTP(_, _) => AnswersAnswer(p, s, e);
    case AnswerWebAuthn(_, _, _) => AnswersAnswer(p, s, e);
    case AnswerRecoveryCode(_, _) => RecoveryCodeAnswers(p, s, e);
    case _ => QuietStepAnswers(p, s, e);
  }

  /** The refresh token so answered can be rotated at once: the store answers with a successor in the same family. */
  lemma AnsweredTokenRotates(p: Policy, s: State, s': State, r: Outcome, c: Call, newId: Id, newRaw: string, now: Instant)
    requires r.SignedIn? && AnswerFits(p, s, s', r, c) && Sessions.WellFormed(s'.sessions)
    requires Insertable(s'.sessions, Successor(s'.sessions[c.newSession], newId, newRaw))
    ensures RotateOnce(s'.sessions, r.refresh, newId, newRaw, now).1 == Rotated(newRaw, Successor(s'.sessions[c.newSession], newId, newRaw))
  {
    FreshTokenRotates(s'.sessions, c.newSession, r.refresh, newId, newRaw, now);
  }

  lemma FreshTokenRotates(t: Sessions.Table, id: Id, raw: string, newId: Id, newRaw: string, now: Instant)
    requires Sessions.WellFormed(t) && id in t && t[id].Live() && t[id].tokenHash == HashToken(raw)
    requires Insertable(t, Successor(t[id], newId, newRaw))
    ensures RotateOnce(t, raw, newId, newRaw, now).1 == Rotated(newRaw, Successor(t[id], newId, newRaw))
  {
    assert HasHash(t, HashToken(raw));
    UnguardedRotationAgrees(t, id, Successor(t[id], newId, newRaw), now);
  }
}
