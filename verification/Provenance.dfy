/** Where everything an account signs in with comes from: each row of a run goes back to the call that put it there. */
module Provenance {
  import opened Wrappers
  import opened Sessions
  import opened AccountStores
  import opened Pending
  import RecoveryCodes
  import opened Login
  import opened Runs
  import opened Gate
  import opened Factors
  import opened CodeLogins
  import Lockout

  // ----- TOTP secrets -----

  ghost predicate HasSecret(s: State, u: Id, secret: string) {
    u in s.secrets && s.secrets[u].secret == secret
  }

  /** The account asked for this secret to be enrolled, with none confirmed. */
  ghost predicate Enrols(s: State, e: Event, u: Id, secret: string) {
    e.action == Enroll(u, secret) && u in s.users && !HasConfirmedTOTP(s, u)
  }

  /** A code of the secret was shown for it. */
  ghost predicate ProvesSecret(p: Policy, e: Event, u: Id, secret: string) {
    e.action.Confirm? && e.action.user == u && p.totpMatches(secret, e.action.code, e.call.at)
  }

  ghost predicate SecretCaused(p: Policy, s: State, e: Event, s': State, u: Id, secret: string) {
    HasSecret(s', u, secret) ==>
      && (HasSecret(s, u, secret) || Enrols(s, e, u, secret))
      && (HasConfirmedTOTP(s', u) && !(HasSecret(s, u, secret) && HasConfirmedTOTP(s, u)) ==> HasSecret(s, u, secret) && ProvesSecret(p, e, u, secret))
  }

  lemma EnrollCauses(p: Policy, s: State, e: Event, u: Id, secret: string)
    requires e.action.Enroll?
    ensures SecretCaused(p, s, e, Next(p, s, e), u, secret)
  {
  }

  lemma ConfirmCauses(p: Policy, s: State, e: Event, u: Id, secret: string)
    requires e.action.Confirm? || e.action.Disable?
    ensures SecretCaused(p, s, e, Next(p, s, e), u, secret)
  {
  }

  lemma SecretHasCause(p: Policy, s: State, e: Event, s': State, u: Id, secret: string)
    requires Follows(p, s, e, s')
    ensures SecretCaused(p, s, e, s', u, secret)
  {
    hide Next;
    match e.action
    case Enroll(_, _) => EnrollCauses(p, s, e, u, secret);
    case Confirm(_, _) => ConfirmCauses(p, s, e, u, secret);
    case Disable(_, _) => ConfirmCauses(p, s, e, u, secret);
    case AddPasskey(_, _, _) => EnrolmentTouchesItsOwn(p, s, e);
    case RemovePasskey(_, _, _) => EnrolmentTouchesItsOwn(p, s, e);
    case _ => OnlyEnrolmentTouchesFactors(p, s, e);
  }

  ghost predicate SecretHeld(states: seq<State>, u: Id, secret: string, i: nat, n: nat) {
    forall k | i <= k <= n && k < |states| :: HasSecret(states[k], u, secret)
  }

  /** Event i enrolled the secret, and it has been the account's ever since. */
  ghost predicate EnrolledAt(states: seq<State>, events: seq<Event>, u: Id, secret: string, i: nat, n: nat) {
    i < n && i < |events| && i < |states| && Enrols(states[i], events[i], u, secret) && SecretHeld(states, u, secret, i + 1, n)
  }

  /** In a run that starts without secrets, an account's secret is one it enrolled. */
  lemma {:induction false} SecretWasEnrolled(p: Policy, states: seq<State>, events: seq<Event>, u: Id, secret: string, n: nat)
    requires IsRun(p, states, events) && n <= |events| && states[0].secrets == map[] && HasSecret(states[n], u, secret)
    ensures exists i :: EnrolledAt(states, events, u, secret, i, n)
  {
    hide Follows, WellFormedState, Fresh;
    if n > 0 {
      SecretHasCause(p, states[n - 1], events[n - 1], states[n], u, secret);
      if HasSecret(states[n - 1], u, secret) {
        SecretWasEnrolled(p, states, events, u, secret, n - 1);
        var i :| EnrolledAt(states, events, u, secret, i, n - 1);
        assert EnrolledAt(states, events, u, secret, i, n);
      } else {
        assert EnrolledAt(states, events, u, secret, n - 1, n);
      }
    }
  }

  /** Event j showed a code of the secret, which the account had before and has had, confirmed, ever since. */
  ghost predicate ConfirmedAt(p: Policy, states: seq<State>, events: seq<Event>, u: Id, secret: string, j: nat, n: nat) {
    && j < n && j < |events| && j < |states| && ProvesSecret(p, events[j], u, secret)
    && SecretHeld(states, u, secret, j, n) && forall k | j < k <= n && k < |states| :: HasConfirmedTOTP(states[k], u)
  }

  /** ... and a confirmed one was enrolled by the account and then proved with a code of its own. */
  lemma {:induction false} ConfirmedSecretWasProved(p: Policy, states: seq<State>, events: seq<Event>, u: Id, secret: string, n: nat)
    requires IsRun(p, states, events) && n <= |events| && states[0].secrets == map[]
    requires HasSecret(states[n], u, secret) && HasConfirmedTOTP(states[n], u)
    ensures exists i, j :: EnrolledAt(states, events, u, secret, i, j) && ConfirmedAt(p, states, events, u, secret, j, n)
  {
    hide Follows, WellFormedState, Fresh;
    if n > 0 {
      SecretHasCause(p, states[n - 1], events[n - 1], states[n], u, secret);
      if HasSecret(states[n - 1], u, secret) && HasConfirmedTOTP(states[n - 1], u) {
        ConfirmedSecretWasProved(p, states, events, u, secret, n - 1);
        var i, j :| EnrolledAt(states, events, u, secret, i, j) && ConfirmedAt(p, states, events, u, secret, j, n - 1);
        assert ConfirmedAt(p, states, events, u, secret, j, n);
      } else {
        SecretWasEnrolled(p, states, events, u, secret, n - 1);
        var i :| EnrolledAt(states, events, u, secret, i, n - 1);
        assert ConfirmedAt(p, states, events, u, secret, n - 1, n);
      }
    }
  }

  // ----- Passkeys -----

  /** A registration of this passkey, accepted by the library, for an account there is. */
  ghost predicate Registers(s: State, e: Event, row: Id, k: Passkey) {
    e.action == AddPasskey(k.userId, k.credentialId, true) && e.call.newRow == row && k.userId in s.users
  }

  ghost predicate PasskeyCaused(s: State, e: Event, s': State, row: Id) {
    row in s'.passkeys ==> (row in s.passkeys && s.passkeys[row] == s'.passkeys[row]) || Registers(s, e, row, s'.passkeys[row])
  }

  lemma AddCauses(p: Policy, s: State, e: Event, row: Id)
    requires e.action.AddPasskey?
    ensures PasskeyCaused(s, e, Next(p, s, e), row)
  {
  }

  lemma RemoveCauses(p: Policy, s: State, e: Event, row: Id)
    requires e.action.RemovePasskey?
    ensures PasskeyCaused(s, e, Next(p, s, e), row)
  {
  }

  lemma PasskeyHasCause(p: Policy, s: State, e: Event, s': State, row: Id)
    requires Follows(p, s, e, s')
    ensures PasskeyCaused(s, e, s', row)
  {
    hide Next;
    match e.action
    case Enroll(_, _) => EnrolmentTouchesItsOwn(p, s, e);
    case Confirm(_, _) => EnrolmentTouchesItsOwn(p, s, e);
    case Disable(_, _) => EnrolmentTouchesItsOwn(p, s, e);
    case AddPasskey(_, _, _) => AddCauses(p, s, e, row);
    case RemovePasskey(_, _, _) => RemoveCauses(p, s, e, row);
    case _ => OnlyEnrolmentTouchesFactors(p, s, e);
  }

  ghost predicate RegisteredAt(states: seq<State>, events: seq<Event>, row: Id, k: Passkey, i: nat, n: nat) {
    i < n && i < |events| && i < |states| && Registers(states[i], events[i], row, k)
  }

  /** In a run that starts without passkeys, every passkey was registered for the account it belongs to. */
  lemma {:induction false} PasskeyWasRegistered(p: Policy, states: seq<State>, events: seq<Event>, row: Id, n: nat)
    requires IsRun(p, states, events) && n <= |events| && states[0].passkeys == map[] && row in states[n].passkeys
    ensures exists i :: RegisteredAt(states, events, row, states[n].passkeys[row], i, n)
  {
    hide Follows, WellFormedState, Fresh;
    if n > 0 {
      var k := states[n].passkeys[row];
      PasskeyHasCause(p, states[n - 1], events[n - 1], states[n], row);
      if row in states[n - 1].passkeys && states[n - 1].passkeys[row] == k {
        PasskeyWasRegistered(p, states, events, row, n - 1);
        var i :| RegisteredAt(states, events, row, k, i, n - 1);
        assert RegisteredAt(states, events, row, k, i, n);
      } else {
        assert RegisteredAt(states, events, row, k, n - 1, n);
      }
    }
  }

  // ----- Mailed links -----

  /** The link with this hash was asked for with the account's own email, and is good for fifteen minutes. */
  ghost predicate AsksFor(s: State, e: Event, vt: VerificationToken) {
    && e.action.AskForLink? && e.action.allowed && HashToken(e.action.raw) == vt.tokenHash
    && vt.userId in s.users && s.users[vt.userId].email == e.action.email
    && vt.purpose == MagicLink && vt.expiresAt == e.call.later + 900_000_000_000
  }

  ghost predicate SameButUsed(before: VerificationToken, after: VerificationToken) {
    after == before.(usedAt := after.usedAt)
  }

  lemma MailHasCause(p: Policy, s: State, e: Event, s': State, id: Id)
    requires WellFormedState(s) && Follows(p, s, e, s') && id in s'.mailed
    ensures (id in s.mailed && SameButUsed(s.mailed[id], s'.mailed[id])) || AsksFor(s, e, s'.mailed[id])
  {
    hide CompletePrimaryAuth, CompleteMagicLink, RequestMagicLink;
    match e.action
    case FollowLink(raw) => MailedAfterFollowing(p, s, raw, e.call);
    case AskForLink(_, _, _) => AskingMails(p, s, e);
    case _ => OnlyLinksTouchMailed(p, s, e);
  }

  lemma AskingMails(p: Policy, s: State, e: Event)
    requires WellFormedState(s) && e.action.AskForLink?
    ensures forall id | id in Next(p, s, e).mailed ::
      (id in s.mailed && Next(p, s, e).mailed[id] == s.mailed[id]) || AsksFor(s, e, Next(p, s, e).mailed[id])
  {
    hide RequestMagicLink;
    RequestIs(s, e.action.email, e.action.raw, e.action.allowed, e.call);
  }

  lemma RequestIs(s: State, email: string, raw: string, allowed: bool, c: Call)
    requires WellFormedState(s)
    ensures var found := UserByEmail(s.users, email);
      && (found.Some? ==> found.value.id in s.users && s.users[found.value.id] == found.value)
      && RequestMagicLink(s, email, raw, allowed, c).0.mailed ==
           if allowed && found.Some?
           then s.mailed[c.newId := VerificationToken(c.newId, found.value.id, MagicLink, HashToken(raw), c.later + 900_000_000_000, None)]
           else s.mailed
  {
  }

  ghost predicate AskedAt(states: seq<State>, events: seq<Event>, vt: VerificationToken, i: nat, n: nat) {
    i < n && i < |events| && i < |states| && AsksFor(states[i], events[i], vt)
  }

  /** In a run that starts without mailed tokens, every one was asked for with its account's email. */
  lemma {:induction false} LinkWasAskedFor(p: Policy, states: seq<State>, events: seq<Event>, id: Id, n: nat)
    requires IsRun(p, states, events) && n <= |events| && states[0].mailed == map[] && id in states[n].mailed
    ensures exists i :: AskedAt(states, events, states[n].mailed[id], i, n)
  {
    hide Follows, WellFormedState, Fresh;
    if n > 0 {
      var vt := states[n].mailed[id];
      RunKeepsWellFormed(p, states, events, n - 1);
      MailHasCause(p, states[n - 1], events[n - 1], states[n], id);
      if id in states[n - 1].mailed && SameButUsed(states[n - 1].mailed[id], vt) {
        LinkWasAskedFor(p, states, events, id, n - 1);
        var i :| AskedAt(states, events, states[n - 1].mailed[id], i, n - 1);
        assert AskedAt(states, events, vt, i, n);
      } else {
        assert AskedAt(states, events, vt, n - 1, n);
      }
    }
  }

  /** The call mailed this raw token to the account's email, no more than fifteen minutes before. */
  ghost predicate MailedTo(s: State, e: Event, raw: string, u: Id, followed: Instant) {
    && e.action.AskForLink? && e.action.allowed && HashToken(e.action.raw) == HashToken(raw)
    && u in s.users && s.users[u].email == e.action.email
    && followed <= e.call.later + 900_000_000_000
  }

  /** A link that proves a primary factor was mailed to that account's email within the last fifteen minutes. */
  lemma FollowedLinkWasMailed(p: Policy, states: seq<State>, events: seq<Event>, j: nat, u: Id)
    requires IsRun(p, states, events) && j < |events| && states[0].mailed == map[] && ProvesLink(states[j], events[j], u)
    ensures exists i | 0 <= i < j :: MailedTo(states[i], events[i], events[j].action.raw, u, events[j].call.at)
  {
    var id :| id in states[j].mailed && IsGoodLink(states[j].mailed[id], events[j].action.raw, u, events[j].call.at);
    LinkWasAskedFor(p, states, events, id, j);
    var i: nat :| AskedAt(states, events, states[j].mailed[id], i, j);
    assert MailedTo(states[i], events[i], events[j].action.raw, u, events[j].call.at);
  }

  // ----- Linked identities -----

  /** A sign-in that created the account, or the account's own call, linked the identity. */
  ghost predicate Links(s: State, e: Event, i: OAuthIdentity) {
    || (e.action.OAuth? && IsIdentity(i, e.action.provider, e.action.externalId) && i.userId == e.call.newId && !HasEmail(s.users, e.action.email))
    || (e.action.Link? && IsIdentity(i, e.action.provider, e.action.externalId) && i.userId == e.action.user && i.userId in s.users)
  }

  ghost predicate IdentityCaused(s: State, e: Event, s': State, id: Id) {
    id in s'.identities ==>
      || (id in s.identities && s.identities[id] == s'.identities[id])
      || (Links(s, e, s'.identities[id]) && !HasIdentity(s.identities, s'.identities[id].provider, s'.identities[id].externalId))
  }

  lemma LinkingCauses(p: Policy, s: State, e: Event, id: Id)
    requires e.action.Link?
    ensures IdentityCaused(s, e, Next(p, s, e), id)
  {
  }

  lemma IdentityHasCause(p: Policy, s: State, e: Event, s': State, id: Id)
    requires Follows(p, s, e, s')
    ensures IdentityCaused(s, e, s', id)
  {
    hide Next;
    match e.action
    case Password(_, _, _) => PasswordKeepsFactors(p, s, e);
    case FollowLink(_) => LinkKeepsFactors(p, s, e);
    case OAuth(_, _, _) => OAuthAddsIdentity(p, s, e);
    case AnswerTOTP(_, _) => SecondKeepsFactors(p, s, e);
    case AnswerWebAuthn(_, _, _) => SecondKeepsFactors(p, s, e);
    case AnswerRecoveryCode(_, _) => SecondKeepsFactors(p, s, e);
    case Link(_, _, _) => LinkingCauses(p, s, e, id);
    case AskForLink(_, _, _) => AccountChangesKeepIdentities(p, s, e);
    case Register(_, _, _) => AccountChangesKeepIdentities(p, s, e);
    case SetPassword(_, _, _) => AccountChangesKeepIdentities(p, s, e);
    case _ => EnrolmentKeepsIdentities(p, s, e);
  }

  ghost predicate LinkedAt(states: seq<State>, events: seq<Event>, x: OAuthIdentity, i: nat, n: nat) {
    i < n && i < |events| && i < |states| && Links(states[i], events[i], x)
  }

  /** In a run that starts without identities, every one was linked by its account, or created it. */
  lemma {:induction false} IdentityWasLinked(p: Policy, states: seq<State>, events: seq<Event>, id: Id, n: nat)
    requires IsRun(p, states, events) && n <= |events| && states[0].identities == map[] && id in states[n].identities
    ensures exists i :: LinkedAt(states, events, states[n].identities[id], i, n)
  {
    hide Follows, WellFormedState, Fresh;
    if n > 0 {
      var x := states[n].identities[id];
      IdentityHasCause(p, states[n - 1], events[n - 1], states[n], id);
      if id in states[n - 1].identities && states[n - 1].identities[id] == x {
        IdentityWasLinked(p, states, events, id, n - 1);
        var i :| LinkedAt(states, events, x, i, n - 1);
        assert LinkedAt(states, events, x, i, n);
      } else {
        assert LinkedAt(states, events, x, n - 1, n);
      }
    }
  }

  // ----- Recovery codes -----

  /** The account, holding a real factor, was given a batch with this hash in it. */
  ghost predicate Gives(s: State, e: Event, u: Id, h: Digest) {
    e.action.NewCodes? && e.action.user == u && HasRealFactor(s, u) && h in CodeHashes(e.action.bufs)
  }

  lemma CodeHasCause(p: Policy, s: State, e: Event, s': State, u: Id, h: Digest)
    requires Follows(p, s, e, s') && h in UnusedOf(s', u)
    ensures h in UnusedOf(s, u) || Gives(s, e, u, h)
  {
    hide Next, Step;
    if NewBatch(e, u) {
      NewCodesReplace(p, s, e);
    } else {
      StepShrinks(p, s, e, s', u);
    }
  }

  ghost predicate GivenAt(states: seq<State>, events: seq<Event>, u: Id, h: Digest, i: nat, n: nat) {
    i < n && i < |events| && i < |states| && Gives(states[i], events[i], u, h)
  }

  /** In a run that starts without codes, a code that can be used was given to its account beside a real factor. */
  lemma {:induction false} CodeWasGiven(p: Policy, states: seq<State>, events: seq<Event>, u: Id, h: Digest, n: nat)
    requires IsRun(p, states, events) && n <= |events| && states[0].codes == map[] && h in UnusedOf(states[n], u)
    ensures exists i :: GivenAt(states, events, u, h, i, n)
  {
    hide Follows, WellFormedState, Fresh;
    if n > 0 {
      CodeHasCause(p, states[n - 1], events[n - 1], states[n], u, h);
      if h in UnusedOf(states[n - 1], u) {
        CodeWasGiven(p, states, events, u, h, n - 1);
        var i :| GivenAt(states, events, u, h, i, n - 1);
        assert GivenAt(states, events, u, h, i, n);
      } else {
        assert GivenAt(states, events, u, h, n - 1, n);
      }
    }
  }

  // ----- Accounts and passwords -----

  /** The call gave the account this password hash: its own registration, its owner's change, or the rewrite of a password just proved. */
  ghost predicate GivesHash(p: Policy, s: State, e: Event, u: Id, hash: string) {
    || (e.action.Register? && e.action.allowed && u == e.call.newId && hash == e.action.hash)
    || (e.action.OAuth? && u == e.call.newId && hash == "")
    || (e.action.SetPassword? && e.action.user == u && u in s.users && hash == e.action.hash
        && p.passwordMatches(s.users[u].passwordHash, e.action.password))
    || (ProvesPassword(p, s, e, u) && p.needsRehash(s.users[u].passwordHash) && hash == p.hash(e.action.password, e.call.newSalt))
  }

  /** The account keeps its email; its password hash changes only so; and it is new only by registration or a provider. */
  ghost predicate AccountStep(p: Policy, s: State, e: Event, s': State, u: Id) {
    && (u in s.users ==> u in s'.users && s'.users[u].email == s.users[u].email)
    && (u in s'.users && !(u in s.users && s.users[u].passwordHash == s'.users[u].passwordHash) ==> GivesHash(p, s, e, u, s'.users[u].passwordHash))
    && (u in s'.users && u !in s.users ==> (e.action.Register? || e.action.OAuth?) && s'.users[u].email == e.action.email && !HasEmail(s.users, e.action.email))
  }

  lemma OAuthAccounts(p: Policy, s: State, e: Event, u: Id)
    requires e.action.OAuth? && Fresh(s, e)
    ensures AccountStep(p, s, e, Next(p, s, e), u)
  {
    hide FinishLogin, CompletePrimaryAuth, WellFormedState;
    var c := e.call;
    var found := IdentityOf(s.identities, e.action.provider, e.action.externalId);
    if found.Some? {
      GateKeepsFactors(p, s, found.value.userId, c);
    } else {
      GateKeepsFactors(p, s.(users := s.users[c.newId := User(c.newId, e.action.email, "", 0, None)],
                             identities := s.identities[c.newRow := OAuthIdentity(c.newRow, c.newId, e.action.provider, e.action.externalId)]),
                       c.newId, c);
    }
  }

  lemma PasswordAccounts(p: Policy, s: State, e: Event, u: Id)
    requires WellFormedState(s) && e.action.Password?
    ensures AccountStep(p, s, e, Next(p, s, e), u)
  {
    hide Next;
    Lockout.PasswordChangesUsers(p, s, e);
  }

  lemma RegisterAccounts(p: Policy, s: State, e: Event, u: Id)
    requires e.action.Register? && Fresh(s, e)
    ensures AccountStep(p, s, e, Next(p, s, e), u)
  {
    hide SignUp, ProvesPassword;
    SignUpIs(s, e.action.email, e.action.hash, e.action.allowed, e.call);
  }

  lemma SignUpIs(s: State, email: string, hash: string, accepted: bool, c: Call)
    ensures SignUp(s, email, hash, accepted, c).0.users ==
      if accepted && !HasEmail(s.users, email) then s.users[c.newId := User(c.newId, email, hash, 0, None)] else s.users
  {
  }

  lemma SetPasswordAccounts(p: Policy, s: State, e: Event, u: Id)
    requires e.action.SetPassword?
    ensures AccountStep(p, s, e, Next(p, s, e), u)
  {
    hide ChangePassword, ProvesPassword;
    ChangePasswordIs(p, s, e.action.user, e.action.password, e.action.hash, e.call);
  }

  lemma ChangePasswordIs(p: Policy, s: State, u: Id, current: string, hash: string, c: Call)
    ensures ChangePassword(p, s, u, current, hash, c).0.users ==
      if u in s.users && p.passwordMatches(s.users[u].passwordHash, current) then s.users[u := s.users[u].(passwordHash := hash)] else s.users
  {
  }

  lemma AccountHasCause(p: Policy, s: State, e: Event, s': State, u: Id)
    requires WellFormedState(s) && Fresh(s, e) && Follows(p, s, e, s')
    ensures AccountStep(p, s, e, s', u)
  {
    match e.action
    case Password(_, _, _) => PasswordAccounts(p, s, e, u);
    case FollowLink(_) => Lockout.LinkKeepsUsers(p, s, e);
    case OAuth(_, _, _) => OAuthAccounts(p, s, e, u);
    case AnswerTOTP(_, _) => SecondKeepsFactors(p, s, e);
    case AnswerWebAuthn(_, _, _) => SecondKeepsFactors(p, s, e);
    case AnswerRecoveryCode(_, _) => SecondKeepsFactors(p, s, e);
    case Register(_, _, _) => RegisterAccounts(p, s, e, u);
    case SetPassword(_, _, _) => SetPasswordAccounts(p, s, e, u);
    case Enroll(_, _) => Lockout.EnrolmentKeepsUsers(p, s, e);
    case Confirm(_, _) => Lockout.EnrolmentKeepsUsers(p, s, e);
    case Disable(_, _) => Lockout.EnrolmentKeepsUsers(p, s, e);
    case NewCodes(_, _) => Lockout.EnrolmentKeepsUsers(p, s, e);
    case AddPasskey(_, _, _) => Lockout.PasskeysKeepUsers(p, s, e);
    case RemovePasskey(_, _, _) => Lockout.PasskeysKeepUsers(p, s, e);
    case _ => Lockout.OthersKeepUsers(p, s, e);
  }

  ghost predicate HasHashSince(states: seq<State>, u: Id, hash: string, i: nat, n: nat) {
    forall k | i <= k <= n && k < |states| :: u in states[k].users && states[k].users[u].passwordHash == hash
  }

  ghost predicate HashGivenAt(p: Policy, states: seq<State>, events: seq<Event>, u: Id, hash: string, i: nat, n: nat) {
    i < n && i < |events| && i < |states| && GivesHash(p, states[i], events[i], u, hash) && HasHashSince(states, u, hash, i + 1, n)
  }

  /**
   In a run that starts without accounts, the hash an account's password is compared with was given at its
   registration, by its owner's change of a proved password, or by the rewrite of one, and stood ever since.
   */
  lemma {:induction false} PasswordWasGiven(p: Policy, states: seq<State>, events: seq<Event>, u: Id, n: nat)
    requires IsRun(p, states, events) && n <= |events| && states[0].users == map[] && u in states[n].users
    ensures exists i :: HashGivenAt(p, states, events, u, states[n].users[u].passwordHash, i, n)
  {
    hide Follows, WellFormedState, Fresh;
    if n > 0 {
      var hash := states[n].users[u].passwordHash;
      RunKeepsWellFormed(p, states, events, n - 1);
      AccountHasCause(p, states[n - 1], events[n - 1], states[n], u);
      if u in states[n - 1].users && states[n - 1].users[u].passwordHash == hash {
        PasswordWasGiven(p, states, events, u, n - 1);
        var i :| HashGivenAt(p, states, events, u, hash, i, n - 1);
        assert HashGivenAt(p, states, events, u, hash, i, n);
      } else {
        assert HashGivenAt(p, states, events, u, hash, n - 1, n);
      }
    }
  }
}
