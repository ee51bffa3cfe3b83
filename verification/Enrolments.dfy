/** What an account sets up works from then on, what it takes down stops working, and what is refused changes nothing. */
module Enrolments {
  import opened Wrappers
  import opened Sessions
  import opened AccountStores
  import opened Pending
  import RecoveryCodes
  import opened Login
  import opened Runs
  import opened Gate
  import opened CodeLogins

  // ----- Set up -----

  /** A secret enrolled and then proved with a code of it is confirmed: the account has a second factor. */
  lemma EnrolledSecretConfirms(p: Policy, s: State, u: Id, secret: string, code: string, c: Call, d: Call)
    requires u in s.users && !HasConfirmedTOTP(s, u) && p.totpMatches(secret, code, d.at)
    ensures var (s1, r1) := Step(p, s, Event(c, Enroll(u, secret)));
      var (s2, r2) := Step(p, s1, Event(d, Confirm(u, code)));
      r1 == Done && r2 == Done && HasConfirmedTOTP(s2, u) && s2.secrets[u].secret == secret && s2.secrets - {u} == s.secrets - {u}
  {
    EnrolledIs(p, s, u, secret, c);
    ConfirmedIs(p, Next(p, s, Event(c, Enroll(u, secret))), u, code, d);
  }

  /** Enrolling is refused beside a confirmed secret, and for nobody. */
  lemma EnrolledIs(p: Policy, s: State, u: Id, secret: string, c: Call)
    ensures var (s', r) := Step(p, s, Event(c, Enroll(u, secret)));
      && (r == Done <==> u in s.users && !HasConfirmedTOTP(s, u))
      && s'.secrets == if r == Done then s.secrets[u := TOTPSecret(secret, None)] else s.secrets
  {
  }

  /** Confirming takes a code of the secret that waits for it. */
  lemma ConfirmedIs(p: Policy, s: State, u: Id, code: string, c: Call)
    ensures var (s', r) := Step(p, s, Event(c, Confirm(u, code)));
      && (r == Done <==> u in s.secrets && s.secrets[u].confirmedAt == None && p.totpMatches(s.secrets[u].secret, code, c.at))
      && s'.secrets == if r == Done then s.secrets[u := TOTPSecret(s.secrets[u].secret, Some(c.later))] else s.secrets
  {
  }

  /** A registered passkey is held at once: a response that names it and verifies proves the factor. */
  lemma RegisteredPasskeyAnswers(p: Policy, s: State, e: Event, f: Event)
    requires e.action.AddPasskey? && e.action.verified && e.action.user in s.users
    requires f.action.AnswerWebAuthn? && f.action.response.credentialId == e.action.credentialId
    requires p.ceremonyOpens(f.action.ceremony) && p.assertionVerifies(e.action.user, f.action.ceremony, f.action.response)
    ensures Step(p, s, e).1 == Done && HasPasskey(Next(p, s, e).passkeys, e.action.user) && ProvesPasskey(p, Next(p, s, e), f, e.action.user)
  {
    var k := Next(p, s, e).passkeys[e.call.newRow];
    assert IsCredential(k, e.action.user, e.action.credentialId);
  }

  /** Every code of a new batch proves the factor, however it is retyped. */
  lemma GeneratedCodesAnswer(p: Policy, s: State, e: Event, f: Event, i: nat, before: string, typed: string, after: string)
    requires e.action.NewCodes? && HasRealFactor(s, e.action.user) && i < |e.action.bufs|
    requires RecoveryCodes.AllSpace(before) && RecoveryCodes.AllSpace(after) && RecoveryCodes.Spells(typed, RecoveryCodes.Hex(e.action.bufs[i]))
    requires f.action.AnswerRecoveryCode? && f.action.code == before + typed + after
    ensures ProvesRecoveryCode(Next(p, s, e), f, e.action.user)
  {
    hide Next, Step;
    NewCodesReplace(p, s, e);
    RecoveryCodes.RetypedCodeReadsBack(before, typed, after, RecoveryCodes.Hex(e.action.bufs[i]));
    assert CodeHashes(e.action.bufs)[i] == RecoveryCodes.HashRecoveryCode(f.action.code);
    assert RecoveryCodes.HashRecoveryCode(f.action.code) in multiset(CodeHashes(e.action.bufs));
  }

  /** A link asked for with an account's email proves that account's primary factor for fifteen minutes, and no other's. */
  lemma AskedLinkProves(p: Policy, s: State, e: Event, f: Event, u: Id, w: Id)
    requires WellFormedState(s) && Fresh(s, e) && e.action.AskForLink? && e.action.allowed
    requires u in s.users && s.users[u].email == e.action.email && f.action == FollowLink(e.action.raw)
    ensures ProvesLink(Next(p, s, e), f, w) <==> w == u && f.call.at <= e.call.later + 900_000_000_000
  {
    hide RequestMagicLink;
    var s' := Next(p, s, e);
    LinkIsMailed(p, s, e, u);
    assert s'.mailed[e.call.newId].tokenHash == HashToken(e.action.raw);
    assert forall id | id in s.mailed :: s.mailed[id].tokenHash != HashToken(e.action.raw);
    assert IsGoodLink(s'.mailed[e.call.newId], e.action.raw, u, f.call.at) <==> f.call.at <= e.call.later + 900_000_000_000;
  }

  lemma LinkIsMailed(p: Policy, s: State, e: Event, u: Id)
    requires WellFormedState(s) && e.action.AskForLink? && e.action.allowed && u in s.users && s.users[u].email == e.action.email
    ensures Next(p, s, e).mailed == s.mailed[e.call.newId :=
      VerificationToken(e.call.newId, u, MagicLink, HashToken(e.action.raw), e.call.later + 900_000_000_000, None)]
  {
    assert HasEmail(s.users, e.action.email);
  }

  /** A linked identity proves its account, and cannot be linked to another. */
  lemma LinkedIdentityProves(p: Policy, s: State, e: Event, f: Event)
    requires Fresh(s, e) && e.action.Link? && e.action.user in s.users && !HasIdentity(s.identities, e.action.provider, e.action.externalId)
    requires f.action.OAuth? && f.action.provider == e.action.provider && f.action.externalId == e.action.externalId
    ensures Step(p, s, e).1 == Done && ProvesOAuth(Next(p, s, e), f, e.action.user)
  {
    var i := Next(p, s, e).identities[e.call.newRow];
    assert IsIdentity(i, e.action.provider, e.action.externalId) && i.userId == e.action.user;
  }

  /** A registered account has the email, the hash and a clean counter, and its password proves it. */
  lemma RegisteredAccountProves(p: Policy, s: State, e: Event, f: Event)
    requires e.action.Register? && e.action.allowed && !HasEmail(s.users, e.action.email)
    requires f.action.Password? && f.action.allowed && f.action.email == e.action.email && p.passwordMatches(e.action.hash, f.action.password)
    ensures Step(p, s, e).1 == Done && ProvesPassword(p, Next(p, s, e), f, e.call.newId)
  {
  }

  // ----- Changed -----

  /** Only the current password changes it, and then every session of the account ends, and no other's. */
  lemma NewPasswordEndsSessions(p: Policy, s: State, e: Event)
    requires WellFormedState(s) && e.action.SetPassword?
    ensures var (u, s') := (e.action.user, Next(p, s, e));
      && (Step(p, s, e).1 == Done <==> u in s.users && p.passwordMatches(s.users[u].passwordHash, e.action.password))
      && (if Step(p, s, e).1 == Done
          then s'.users == s.users[u := s.users[u].(passwordHash := e.action.hash)]
               && RevokesJust(s.sessions, s'.sessions, (row: Session) => row.userId == u, e.call.later)
          else s' == s)
  {
  }

  // ----- Taken down -----

  /** Only the password takes a secret down, and it is gone then. */
  lemma DisabledSecretIsGone(p: Policy, s: State, e: Event)
    requires e.action.Disable?
    ensures var u := e.action.user;
      && (Step(p, s, e).1 == Done <==> u in s.users && p.passwordMatches(s.users[u].passwordHash, e.action.password) && u in s.secrets)
      && Next(p, s, e).secrets == if Step(p, s, e).1 == Done then s.secrets - {u} else s.secrets
  {
  }

  /** Only the password takes a passkey down; no response names it then, and every other passkey stays. */
  lemma RemovedPasskeyIsGone(p: Policy, s: State, e: Event)
    requires e.action.RemovePasskey?
    ensures var (u, x, t') := (e.action.user, e.action.credentialId, Next(p, s, e).passkeys);
      && (Step(p, s, e).1 == Done <==>
            u in s.users && p.passwordMatches(s.users[u].passwordHash, e.action.password) && HasCredential(s.passkeys, u, x))
      && (Step(p, s, e).1 == Done ==> !HasCredential(t', u, x))
      && (forall row | row in s.passkeys && !IsCredential(s.passkeys[row], u, x) :: row in t' && t'[row] == s.passkeys[row])
  {
  }

  // ----- Refused -----

  /** A refusal leaves all as it was, but for a password that is counted, and a link or a code already taken. */
  ghost predicate LeavesBe(s: State, e: Event, s': State, r: Outcome) {
    r.Refused? && r.reason != SessionNotStored ==>
      || s' == s
      || (e.action.Password? && s' == s.(users := s'.users))
      || (e.action.FollowLink? && r.reason == NoSuchRow && s' == s.(mailed := s'.mailed))
      || (e.action.AnswerRecoveryCode? && r.reason == NoSuchRow && s' == s.(codes := s'.codes))
  }

  /** The caller named a user, and gave that user's password. */
  predicate RightPassword(p: Policy, s: State, u: Id, password: string) {
    u in s.users && p.passwordMatches(s.users[u].passwordHash, password)
  }

  /** Why setting up or taking down a factor is refused: what is missing before what is wrong. */
  lemma FactorRefusals(p: Policy, s: State, e: Event)
    ensures var (r, u) := (Step(p, s, e).1, if e.action.Enroll? || e.action.Confirm? || e.action.Disable? || e.action.NewCodes?
                                               || e.action.AddPasskey? || e.action.RemovePasskey? then e.action.user else "");
      match e.action
      case Enroll(_, _) =>
        && (r == Refused(NoSuchRow) <==> u !in s.users)
        && (r == Refused(TOTPAlreadyEnabled) <==> u in s.users && HasConfirmedTOTP(s, u))
      case Confirm(_, code) =>
        && (r == Refused(NoSuchRow) <==> u !in s.secrets)
        && (r == Refused(TOTPAlreadyEnabled) <==> HasConfirmedTOTP(s, u))
        && (r == Refused(InvalidTOTPCode) <==>
              u in s.secrets && !HasConfirmedTOTP(s, u) && !p.totpMatches(s.secrets[u].secret, code, e.call.at))
      case Disable(_, password) =>
        && (r == Refused(InvalidCredentials) <==> u in s.users && !RightPassword(p, s, u, password))
        && (r == Refused(NoSuchRow) <==> u !in s.users || (RightPassword(p, s, u, password) && u !in s.secrets))
      case NewCodes(_, _) =>
        && (r == Refused(NoSecondFactorEnrolled) <==> !HasConfirmedTOTP(s, u) && !HasPasskey(s.passkeys, u))
        && (r == Done <==> HasConfirmedTOTP(s, u) || HasPasskey(s.passkeys, u))
      case AddPasskey(_, _, verified) =>
        && (r == Refused(NoSuchRow) <==> u !in s.users)
        && (r == Refused(InvalidWebAuthnResponse) <==> u in s.users && !verified)
      case RemovePasskey(_, x, password) =>
        && (r == Refused(InvalidCredentials) <==> u in s.users && !RightPassword(p, s, u, password))
        && (r == Refused(NoSuchRow) <==> u !in s.users || (RightPassword(p, s, u, password) && !HasCredential(s.passkeys, u, x)))
      case _ => true
  {
  }

  /** Why a change of an account is refused. Asking for a link never is, but by the rate limit. */
  lemma AccountRefusals(p: Policy, s: State, e: Event)
    requires WellFormedState(s)
    ensures var r := Step(p, s, e).1;
      match e.action
      case Register(email, _, accepted) =>
        && (r == Refused(NotAccepted) <==> !accepted)
        && (r == Refused(UserExists) <==> accepted && exists u :: u in s.users && s.users[u].email == email)
        && (r == Done <==> accepted && forall u | u in s.users :: s.users[u].email != email)
      case SetPassword(u, password, _) =>
        && (r == Refused(NoSuchRow) <==> u !in s.users)
        && (r == Refused(InvalidCredentials) <==> u in s.users && !RightPassword(p, s, u, password))
      case Link(u, provider, externalId) =>
        && (r == Refused(NoSuchRow) <==> u !in s.users)
        && (r == Refused(IdentityAlreadyLinked) <==>
              u in s.users && exists id :: id in s.identities && IsIdentity(s.identities[id], provider, externalId) && s.identities[id].userId != u)
      case _ => true
  {
    match e.action
    case Link(u, provider, externalId) => LinkingRefusals(s, u, provider, externalId, e.call);
    case _ =>
  }

  lemma LinkingRefusals(s: State, u: Id, provider: string, externalId: string, c: Call)
    requires WellFormedState(s)
    ensures var r := LinkOAuthIdentity(s, u, provider, externalId, c).1;
      && (r == Refused(NoSuchRow) <==> u !in s.users)
      && (r == Refused(IdentityAlreadyLinked) <==>
            u in s.users && exists id :: id in s.identities && IsIdentity(s.identities[id], provider, externalId) && s.identities[id].userId != u)
  {
    var found := IdentityOf(s.identities, provider, externalId);
    if found.Some? {
      assert found.value in s.identities.Values;
    }
  }

  lemma GateRefuses(p: Policy, s: State, u: Id, c: Call)
    ensures var r := CompletePrimaryAuth(p, s, u, c).1; !r.Refused? || r.reason == SessionNotStored
    ensures var r := FinishLogin(p, s, u, c).1; !r.Refused? || r.reason == SessionNotStored
  {
  }

  lemma PasswordRefused(p: Policy, s: State, email: string, password: string, allowed: bool, c: Call)
    ensures var (s', r) := PasswordLogin(p, s, email, password, allowed, c);
      r.Refused? && r.reason != SessionNotStored ==> s' == s.(users := s'.users)
  {
    hide CompletePrimaryAuth;
    var found := UserByEmail(s.users, email);
    if found.Some? {
      var u := found.value;
      GateRefuses(p, s.(users := s.users[u.id := AfterSuccess(p, u, password, c)]), u.id, c);
    }
  }

  lemma LinkRefused(p: Policy, s: State, raw: string, c: Call)
    ensures var (s', r) := CompleteMagicLink(p, s, raw, c);
      r.Refused? && r.reason != SessionNotStored ==> s' == s || (r.reason == NoSuchRow && s' == s.(mailed := s'.mailed))
  {
    hide CompletePrimaryAuth;
    var found := TokenByHash(s.mailed, HashToken(raw));
    if found.Some? {
      var vt := found.value;
      var used := if vt.id in s.mailed then s.(mailed := s.mailed[vt.id := s.mailed[vt.id].(usedAt := Some(c.later))]) else s;
      GateRefuses(p, used, vt.userId, c);
    }
  }

  lemma OAuthRefused(p: Policy, s: State, provider: string, externalId: string, email: string, c: Call)
    ensures var (s', r) := LoginWithOAuth(p, s, provider, externalId, email, c);
      r.Refused? && r.reason != SessionNotStored ==> s' == s
  {
    hide CompletePrimaryAuth;
    var found := IdentityOf(s.identities, provider, externalId);
    if found.Some? {
      GateRefuses(p, s, found.value.userId, c);
    } else {
      GateRefuses(p, s.(users := s.users[c.newId := User(c.newId, email, "", 0, None)],
                        identities := s.identities[c.newRow := OAuthIdentity(c.newRow, c.newId, provider, externalId)]), c.newId, c);
    }
  }

  lemma CodeRefused(p: Policy, s: State, pending: Jwt, code: string, c: Call)
    ensures var (s', r) := CompleteLoginWithRecoveryCode(p, s, pending, code, c);
      r.Refused? && r.reason != SessionNotStored ==> s' == s || (r.reason == NoSuchRow && s' == s.(codes := s'.codes))
  {
    hide FinishLogin;
    var u := Verify(s.signed, pending, c.at);
    if u.Some? {
      var codes := RecoveryCodes.ConsumeCode(s.codes, u.value, RecoveryCodes.HashRecoveryCode(code), c.later);
      if codes.Some? {
        GateRefuses(p, s.(codes := codes.value), u.value, c);
      }
    }
  }

  lemma AnswerRefused(p: Policy, s: State, e: Event)
    requires e.action.AnswerTOTP? || e.action.AnswerWebAuthn?
    ensures var (s', r) := Step(p, s, e); r.Refused? && r.reason != SessionNotStored ==> s' == s
  {
    hide FinishLogin;
    var u := Verify(s.signed, e.action.pending, e.call.at);
    if u.Some? {
      GateRefuses(p, s, u.value, e.call);
    }
  }

  lemma AccountChangesLeaveBe(p: Policy, s: State, e: Event)
    requires e.action.AskForLink? || e.action.Register? || e.action.SetPassword?
    ensures Step(p, s, e).1.Refused? ==> Next(p, s, e) == s
  {
  }

  lemma LinkingLeavesBe(p: Policy, s: State, e: Event)
    requires e.action.Link? || e.action.NewCodes?
    ensures Step(p, s, e).1.Refused? ==> Next(p, s, e) == s
  {
  }

  lemma EnrolmentLeavesBe(p: Policy, s: State, e: Event)
    requires e.action.Enroll? || e.action.Confirm? || e.action.Disable?
    ensures Step(p, s, e).1.Refused? ==> Next(p, s, e) == s
  {
  }

  lemma PasskeysLeaveBe(p: Policy, s: State, e: Event)
    requires e.action.AddPasskey? || e.action.RemovePasskey?
    ensures Step(p, s, e).1.Refused? ==> Next(p, s, e) == s
  {
  }

  /** A refused call changes no factor, identity, session or token. */
  lemma RefusalsLeaveBe(p: Policy, s: State, e: Event)
    ensures LeavesBe(s, e, Step(p, s, e).0, Step(p, s, e).1)
  {
    hide PasswordLogin, CompleteMagicLink, LoginWithOAuth, CompleteLoginWithRecoveryCode;
    match e.action
    case Password(email, password, allowed) => PasswordRefused(p, s, email, password, allowed, e.call);
    case FollowLink(raw) => LinkRefused(p, s, raw, e.call);
    case OAuth(provider, externalId, email) => OAuthRefused(p, s, provider, externalId, email, e.call);
    case AnswerRecoveryCode(pending, code) => CodeRefused(p, s, pending, code, e.call);
    case AnswerTOTP(_, _) => AnswerRefused(p, s, e);
    case AnswerWebAuthn(_, _, _) => AnswerRefused(p, s, e);
    case Link(_, _, _) => LinkingLeavesBe(p, s, e);
    case NewCodes(_, _) => LinkingLeavesBe(p, s, e);
    case AddPasskey(_, _, _) => PasskeysLeaveBe(p, s, e);
    case RemovePasskey(_, _, _) => PasskeysLeaveBe(p, s, e);
    case AskForLink(_, _, _) => AccountChangesLeaveBe(p, s, e);
    case Register(_, _, _) => AccountChangesLeaveBe(p, s, e);
    case SetPassword(_, _, _) => AccountChangesLeaveBe(p, s, e);
    case _ => EnrolmentLeavesBe(p, s, e);
  }
}
