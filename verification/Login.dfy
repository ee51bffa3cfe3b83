/**
 Signing in: three primary factors, one gate, three second factors.

 Each operation is a function from the state before to the state after and the answer given;
 class Engine carries the operations out on the stores.
 */
module Login {
  import opened Wrappers
  import opened Sessions
  import opened AccountStores
  import opened Pending
  import opened RecoveryCodes

  /** What the engine is configured with, and the primitives it calls without looking inside. */
  datatype Policy = Policy(
    threshold: int,
    lockout: int,
    accessTTL: int,
    passwordMatches: (string, string) -> bool,  // hash, password
    needsRehash: string -> bool,                // hash
    hash: (string, string) -> string,           // password, salt
    totpMatches: (string, string, Instant) -> bool, // secret, code, now
    ceremonyOpens: string -> bool,              // ceremony token
    assertionVerifies: (Id, string, Assertion) -> bool) // user, ceremony token, response

  /** What an authenticator answers: the credential it used, and its signature. */
  datatype Assertion = Assertion(credentialId: string, signature: string)

  datatype State = State(
    users: Users,
    secrets: Secrets,
    passkeys: Passkeys,
    codes: RecoveryCodes.Table,
    mailed: Verifications,
    identities: Identities,
    sessions: Sessions.Table,
    signed: set<Jwt>)

  ghost predicate WellFormedState(s: State) {
    && UsersWellFormed(s.users) && PasskeysWellFormed(s.passkeys) && VerificationsWellFormed(s.mailed)
    && IdentitiesWellFormed(s.identities) && Sessions.WellFormed(s.sessions)
  }

  /** One call: its first and last reading of the clock, its caller, and the fresh values it draws. */
  datatype Call = Call(
    at: Instant,
    later: Instant,
    ip: string,
    userAgent: string,
    newSession: Id,
    newRefresh: string,
    newId: Id,
    newRow: Id,
    newSalt: string)

  datatype Method = ByTOTP | ByPasskey | ByRecoveryCode

  datatype Reason =
    | RateLimited | InvalidCredentials | AccountLocked | InvalidPendingLogin | TOTPNotEnabled | TOTPAlreadyEnabled
    | InvalidTOTPCode | InvalidRecoveryCode | InvalidCeremonyToken | InvalidWebAuthnResponse
    | TokenInvalid | TokenExpired
    | OAuthEmailConflict | IdentityAlreadyLinked | NoSecondFactorEnrolled | UserExists | NoSuchRow | SessionNotStored | NotAccepted

  datatype Outcome =
    | SignedIn(access: Jwt, refresh: string)
    | SecondFactorRequired(pending: Jwt, methods: seq<Method>)
    | Done
    | Refused(reason: Reason)

  // ----- The gate -----

  predicate HasConfirmedTOTP(s: State, u: Id) {
    u in s.secrets && s.secrets[u].confirmedAt.Some?
  }

  /** A second factor that gates a login: recovery codes are not one. */
  predicate HasRealFactor(s: State, u: Id) {
    HasConfirmedTOTP(s, u) || HasPasskey(s.passkeys, u)
  }

  function Methods(s: State, u: Id): seq<Method> {
    (if HasConfirmedTOTP(s, u) then [ByTOTP] else [])
    + (if HasPasskey(s.passkeys, u) then [ByPasskey] else [])
    + (if HasRealFactor(s, u) && |Unused(CodesOf(s.codes, u))| > 0 then [ByRecoveryCode] else [])
  }

  function NewSession(u: Id, c: Call): Session {
    Session(c.newSession, c.newSession, u, HashToken(c.newRefresh), c.ip, c.userAgent, 0, None)
  }

  ghost function FinishLogin(p: Policy, s: State, u: Id, c: Call): (State, Outcome) {
    var access := AccessToken(u, c.later + p.accessTTL);
    var stored := InsertRow(s.sessions, NewSession(u, c), c.later);
    (s.(signed := s.signed + {access}, sessions := if stored.Ok? then stored.value else s.sessions),
     if stored.Ok? then SignedIn(access, c.newRefresh) else Refused(SessionNotStored))
  }

  ghost function CompletePrimaryAuth(p: Policy, s: State, u: Id, c: Call): (State, Outcome) {
    var methods := Methods(s, u);
    if methods != [] then
      var pending := Issue(u, c.later);
      (s.(signed := s.signed + {pending}), SecondFactorRequired(pending, methods))
    else FinishLogin(p, s, u, c)
  }

  // ----- Primary factors -----

  predicate Locked(u: User, now: Instant) {
    u.lockedUntil.Some? && now < u.lockedUntil.value
  }

  /** The account after a wrong password. */
  function AfterFailure(p: Policy, u: User, c: Call): User {
    var counted := u.(failedAttempts := u.failedAttempts + 1);
    if counted.failedAttempts >= p.threshold then counted.(lockedUntil := Some(c.later + p.lockout)) else counted
  }

  /** The account after the right one: counter and lock cleared, an out-of-date hash rewritten. */
  function AfterSuccess(p: Policy, u: User, password: string, c: Call): User {
    u.(failedAttempts := 0, lockedUntil := None, passwordHash := CurrentHash(p, u.passwordHash, password, c))
  }

  function CurrentHash(p: Policy, hash: string, password: string, c: Call): string {
    if p.needsRehash(hash) then p.hash(password, c.newSalt) else hash
  }

  ghost function PasswordLogin(p: Policy, s: State, email: string, password: string, allowed: bool, c: Call): (State, Outcome) {
    if !allowed then (s, Refused(RateLimited))
    else
      match UserByEmail(s.users, email)
      case None => (s, Refused(InvalidCredentials))
      case Some(u) =>
        if Locked(u, c.at) then (s, Refused(AccountLocked))
        else if !p.passwordMatches(u.passwordHash, password) then
          (s.(users := s.users[u.id := AfterFailure(p, u, c)]), Refused(InvalidCredentials))
        else CompletePrimaryAuth(p, s.(users := s.users[u.id := AfterSuccess(p, u, password, c)]), u.id, c)
  }

  const MAGIC_LINK_TTL := 900 * SECOND

  ghost function RequestMagicLink(s: State, email: string, raw: string, allowed: bool, c: Call): (State, Outcome) {
    if !allowed then (s, Refused(RateLimited))
    else
      match UserByEmail(s.users, email)
      case None => (s, Done)
      case Some(u) =>
        (s.(mailed := s.mailed[c.newId := VerificationToken(c.newId, u.id, MagicLink, HashToken(raw), c.later + MAGIC_LINK_TTL, None)]), Done)
  }

  ghost function CompleteMagicLink(p: Policy, s: State, raw: string, c: Call): (State, Outcome) {
    match TokenByHash(s.mailed, HashToken(raw))
    case None => (s, Refused(TokenInvalid))
    case Some(vt) =>
      if vt.purpose != MagicLink || vt.usedAt.Some? then (s, Refused(TokenInvalid))
      else if c.at > vt.expiresAt then (s, Refused(TokenExpired))
      else
        var used := if vt.id in s.mailed then s.(mailed := s.mailed[vt.id := s.mailed[vt.id].(usedAt := Some(c.later))]) else s;
        if vt.userId in s.users then CompletePrimaryAuth(p, used, vt.userId, c) else (used, Refused(NoSuchRow))
  }

  ghost function LoginWithOAuth(p: Policy, s: State, provider: string, externalId: string, email: string, c: Call): (State, Outcome) {
    match IdentityOf(s.identities, provider, externalId)
    case Some(identity) =>
      if identity.userId in s.users then CompletePrimaryAuth(p, s, identity.userId, c) else (s, Refused(NoSuchRow))
    case None =>
      if HasEmail(s.users, email) then (s, Refused(OAuthEmailConflict))
      else
        var created := s.(users := s.users[c.newId := User(c.newId, email, "", 0, None)],
                          identities := s.identities[c.newRow := OAuthIdentity(c.newRow, c.newId, provider, externalId)]);
        CompletePrimaryAuth(p, created, c.newId, c)
  }

  // ----- Second factors -----

  ghost function CompleteLoginWithTOTP(p: Policy, s: State, pending: Jwt, code: string, c: Call): (State, Outcome) {
    match Verify(s.signed, pending, c.at)
    case None => (s, Refused(InvalidPendingLogin))
    case Some(u) =>
      if u !in s.users then (s, Refused(NoSuchRow))
      else if !HasConfirmedTOTP(s, u) then (s, Refused(TOTPNotEnabled))
      else if !p.totpMatches(s.secrets[u].secret, code, c.later) then (s, Refused(InvalidTOTPCode))
      else FinishLogin(p, s, u, c)
  }

  ghost function CompleteLoginWithRecoveryCode(p: Policy, s: State, pending: Jwt, code: string, c: Call): (State, Outcome) {
    match Verify(s.signed, pending, c.at)
    case None => (s, Refused(InvalidPendingLogin))
    case Some(u) =>
      match ConsumeCode(s.codes, u, HashRecoveryCode(code), c.later)
      case None => (s, Refused(InvalidRecoveryCode))
      case Some(codes) =>
        var spent := s.(codes := codes);
        if u in s.users then FinishLogin(p, spent, u, c) else (spent, Refused(NoSuchRow))
  }

  /** The library is given the user's stored credentials and accepts the signature of one of them only. */
  predicate PasskeyAnswers(p: Policy, s: State, u: Id, ceremony: string, response: Assertion) {
    HasCredential(s.passkeys, u, response.credentialId) && p.assertionVerifies(u, ceremony, response)
  }

  ghost function CompleteLoginWithWebAuthn(p: Policy, s: State, pending: Jwt, ceremony: string, response: Assertion, c: Call): (State, Outcome) {
    match Verify(s.signed, pending, c.at)
    case None => (s, Refused(InvalidPendingLogin))
    case Some(u) =>
      if u !in s.users then (s, Refused(NoSuchRow))
      else if !p.ceremonyOpens(ceremony) then (s, Refused(InvalidCeremonyToken))
      else if !PasskeyAnswers(p, s, u, ceremony, response) then (s, Refused(InvalidWebAuthnResponse))
      else FinishLogin(p, s, u, c)
  }

  // ----- Enrolment -----

  function EnrollTOTP(s: State, u: Id, secret: string): (State, Outcome) {
    if u !in s.users then (s, Refused(NoSuchRow))
    else if HasConfirmedTOTP(s, u) then (s, Refused(TOTPAlreadyEnabled))
    else (s.(secrets := s.secrets[u := TOTPSecret(secret, None)]), Done)
  }

  function ConfirmTOTP(p: Policy, s: State, u: Id, code: string, c: Call): (State, Outcome) {
    if u !in s.secrets then (s, Refused(NoSuchRow))
    else if HasConfirmedTOTP(s, u) then (s, Refused(TOTPAlreadyEnabled))
    else if !p.totpMatches(s.secrets[u].secret, code, c.at) then (s, Refused(InvalidTOTPCode))
    else (s.(secrets := s.secrets[u := s.secrets[u].(confirmedAt := Some(c.later))]), Done)
  }

  function DisableTOTP(p: Policy, s: State, u: Id, password: string): (State, Outcome) {
    if u !in s.users then (s, Refused(NoSuchRow))
    else if !p.passwordMatches(s.users[u].passwordHash, password) then (s, Refused(InvalidCredentials))
    else if u !in s.secrets then (s, Refused(NoSuchRow))
    else (s.(secrets := s.secrets - {u}), Done)
  }

  function CodeHashes(bufs: seq<seq<Byte>>): seq<Digest> {
    seq(|bufs|, i requires 0 <= i < |bufs| => HashToken(Hex(bufs[i])))
  }

  function GenerateRecoveryCodes(s: State, u: Id, bufs: seq<seq<Byte>>, c: Call): (State, Outcome) {
    if !HasRealFactor(s, u) then (s, Refused(NoSecondFactorEnrolled))
    else (s.(codes := Replaced(s.codes, u, CodeHashes(bufs), c.later)), Done)
  }

  // ----- Around them -----

  ghost function SignUp(s: State, email: string, hash: string, accepted: bool, c: Call): (State, Outcome) {
    if !accepted then (s, Refused(NotAccepted))
    else if HasEmail(s.users, email) then (s, Refused(UserExists))
    else (s.(users := s.users[c.newId := User(c.newId, email, hash, 0, None)]), Done)
  }

  ghost function ChangePassword(p: Policy, s: State, u: Id, current: string, newHash: string, c: Call): (State, Outcome) {
    if u !in s.users then (s, Refused(NoSuchRow))
    else if !p.passwordMatches(s.users[u].passwordHash, current) then (s, Refused(InvalidCredentials))
    else
      (s.(users := s.users[u := s.users[u].(passwordHash := newHash)], sessions := RevokeUserRows(s.sessions, u, c.later)), Done)
  }

  ghost function LinkOAuthIdentity(s: State, u: Id, provider: string, externalId: string, c: Call): (State, Outcome) {
    if u !in s.users then (s, Refused(NoSuchRow))
    else
      match IdentityOf(s.identities, provider, externalId)
      case Some(identity) => (s, if identity.userId == u then Done else Refused(IdentityAlreadyLinked))
      case None => (s.(identities := s.identities[c.newRow := OAuthIdentity(c.newRow, u, provider, externalId)]), Done)
  }

  function RegisterPasskey(s: State, u: Id, credentialId: string, verified: bool, c: Call): (State, Outcome) {
    if u !in s.users then (s, Refused(NoSuchRow))
    else if !verified then (s, Refused(InvalidWebAuthnResponse))
    else (s.(passkeys := s.passkeys[c.newRow := Passkey(u, credentialId)]), Done)
  }

  function DeletePasskey(p: Policy, s: State, u: Id, credentialId: string, password: string): (State, Outcome) {
    if u !in s.users then (s, Refused(NoSuchRow))
    else if !p.passwordMatches(s.users[u].passwordHash, password) then (s, Refused(InvalidCredentials))
    else if !HasCredential(s.passkeys, u, credentialId) then (s, Refused(NoSuchRow))
    else (s.(passkeys := WithoutCredential(s.passkeys, u, credentialId)), Done)
  }

  // ----- Runs -----

  datatype Action =
    | Password(email: string, password: string, allowed: bool)
    | AskForLink(email: string, raw: string, allowed: bool)
    | FollowLink(raw: string)
    | OAuth(provider: string, externalId: string, email: string)
    | AnswerTOTP(pending: Jwt, code: string)
    | AnswerRecoveryCode(pending: Jwt, code: string)
    | AnswerWebAuthn(pending: Jwt, ceremony: string, response: Assertion)
    | Enroll(user: Id, secret: string)
    | Confirm(user: Id, code: string)
    | Disable(user: Id, password: string)
    | NewCodes(user: Id, bufs: seq<seq<Byte>>)
    | Register(email: string, hash: string, allowed: bool)
    | SetPassword(user: Id, password: string, hash: string)
    | Link(user: Id, provider: string, externalId: string)
    | AddPasskey(user: Id, credentialId: string, verified: bool)
    | RemovePasskey(user: Id, credentialId: string, password: string)

  datatype Event = Event(call: Call, action: Action)

  ghost function Step(p: Policy, s: State, e: Event): (State, Outcome) {
    match e.action
    case Password(email, password, allowed) => PasswordLogin(p, s, email, password, allowed, e.call)
    case AskForLink(email, raw, allowed) => RequestMagicLink(s, email, raw, allowed, e.call)
    case FollowLink(raw) => CompleteMagicLink(p, s, raw, e.call)
    case OAuth(provider, externalId, email) => LoginWithOAuth(p, s, provider, externalId, email, e.call)
    case AnswerTOTP(pending, code) => CompleteLoginWithTOTP(p, s, pending, code, e.call)
    case AnswerRecoveryCode(pending, code) => CompleteLoginWithRecoveryCode(p, s, pending, code, e.call)
    case AnswerWebAuthn(pending, ceremony, response) => CompleteLoginWithWebAuthn(p, s, pending, ceremony, response, e.call)
    case Enroll(u, secret) => EnrollTOTP(s, u, secret)
    case Confirm(u, code) => ConfirmTOTP(p, s, u, code, e.call)
    case Disable(u, password) => DisableTOTP(p, s, u, password)
    case NewCodes(u, bufs) => GenerateRecoveryCodes(s, u, bufs, e.call)
    case Register(email, hash, accepted) => SignUp(s, email, hash, accepted, e.call)
    case SetPassword(u, current, hash) => ChangePassword(p, s, u, current, hash, e.call)
    case Link(u, provider, externalId) => LinkOAuthIdentity(s, u, provider, externalId, e.call)
    case AddPasskey(u, credentialId, verified) => RegisterPasskey(s, u, credentialId, verified, e.call)
    case RemovePasskey(u, credentialId, password) => DeletePasskey(p, s, u, credentialId, password)
  }

  ghost function Next(p: Policy, s: State, e: Event): State {
    Step(p, s, e).0
  }

  /** Calls follow one another: no call starts before the one before it has ended. */
  ghost predicate Sequential(events: seq<Event>) {
    && (forall i | 0 <= i < |events| :: events[i].call.at <= events[i].call.later)
    && (forall i, j | 0 <= i < j < |events| :: events[i].call.later <= events[j].call.at)
  }
}
