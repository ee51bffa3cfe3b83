/** What an account's factors, mailed links and linked identities go through over a run. */
module Factors {
  import opened Wrappers
  import opened Sessions
  import opened AccountStores
  import opened Pending
  import RecoveryCodes
  import opened Login
  import opened Runs
  import opened Gate

  // ----- Factors do not slip away -----

  ghost predicate KeepsFactors(s: State, s': State) {
    s'.secrets == s.secrets && s'.passkeys == s.passkeys
  }

  lemma FinishKeepsFactors(p: Policy, s: State, u: Id, c: Call)
    ensures var s' := FinishLogin(p, s, u, c).0; KeepsFactors(s, s') && s'.mailed == s.mailed && s'.users == s.users && s'.identities == s.identities
  {
  }

  lemma GateKeepsFactors(p: Policy, s: State, u: Id, c: Call)
    ensures var s' := CompletePrimaryAuth(p, s, u, c).0; KeepsFactors(s, s') && s'.mailed == s.mailed && s'.users == s.users && s'.identities == s.identities
  {
    hide FinishLogin;
    FinishKeepsFactors(p, s, u, c);
  }

  lemma PasswordKeepsFactors(p: Policy, s: State, e: Event)
    requires e.action.Password?
    ensures var s' := Next(p, s, e); KeepsFactors(s, s') && s'.mailed == s.mailed && s'.identities == s.identities
  {
    hide FinishLogin, CompletePrimaryAuth;
    var s' := PasswordLogin(p, s, e.action.email, e.action.password, e.action.allowed, e.call).0;
    var found := UserByEmail(s.users, e.action.email);
    if found.Some? && e.action.allowed && !Locked(found.value, e.call.at) {
      var u := found.value;
      var proved := s.(users := s.users[u.id := AfterSuccess(p, u, e.action.password, e.call)]);
      GateKeepsFactors(p, proved, u.id, e.call);
      assert s' == if p.passwordMatches(u.passwordHash, e.action.password) then CompletePrimaryAuth(p, proved, u.id, e.call).0
                   else s.(users := s.users[u.id := AfterFailure(p, u, e.call)]);
    } else {
      assert s' == s;
    }
  }

  lemma OAuthKeepsFactors(p: Policy, s: State, e: Event)
    requires e.action.OAuth?
    ensures var s' := Next(p, s, e);
      KeepsFactors(s, s') && s'.mailed == s.mailed
  {
    hide FinishLogin, CompletePrimaryAuth;
    var c := e.call;
    var found := IdentityOf(s.identities, e.action.provider, e.action.externalId);
    if found.Some? {
      GateKeepsFactors(p, s, found.value.userId, c);
    } else {
      GateKeepsFactors(p, s.(users := s.users[c.newId := User(c.newId, e.action.email, "", 0, None)],
                             identities := s.identities[c.newRow := OAuthIdentity(c.newRow, c.newId, e.action.provider, e.action.externalId)]),
                       c.newId, c);
    }
  }

  lemma LinkKeepsFactors(p: Policy, s: State, e: Event)
    requires e.action.FollowLink?
    ensures KeepsFactors(s, Next(p, s, e)) && Next(p, s, e).identities == s.identities
  {
    hide FinishLogin, CompletePrimaryAuth;
    var s' := CompleteMagicLink(p, s, e.action.raw, e.call).0;
    var found := TokenByHash(s.mailed, HashToken(e.action.raw));
    if found.Some? && IsGoodLink(found.value, e.action.raw, found.value.userId, e.call.at) {
      var vt := found.value;
      var used := if vt.id in s.mailed then s.(mailed := s.mailed[vt.id := s.mailed[vt.id].(usedAt := Some(e.call.later))]) else s;
      GateKeepsFactors(p, used, vt.userId, e.call);
      assert s' == if vt.userId in s.users then CompletePrimaryAuth(p, used, vt.userId, e.call).0 else used;
    } else {
      assert s' == s;
    }
  }

  lemma AnswerKeepsFactors(p: Policy, s: State, e: Event)
    requires e.action.AnswerTOTP? || e.action.AnswerWebAuthn?
    ensures var s' := Next(p, s, e); KeepsFactors(s, s') && s'.mailed == s.mailed && s'.users == s.users && s'.identities == s.identities
  {
    hide FinishLogin, CompletePrimaryAuth;
    var u := Verify(s.signed, e.action.pending, e.call.at);
    if u.Some? {
      FinishKeepsFactors(p, s, u.value, e.call);
    }
  }

  lemma RecoveryCodeKeepsFactors(p: Policy, s: State, pending: Jwt, code: string, c: Call)
    ensures var s' := CompleteLoginWithRecoveryCode(p, s, pending, code, c).0;
      KeepsFactors(s, s') && s'.mailed == s.mailed && s'.users == s.users && s'.identities == s.identities
  {
    hide FinishLogin;
    var u := Verify(s.signed, pending, c.at);
    if u.Some? {
      var codes := RecoveryCodes.ConsumeCode(s.codes, u.value, RecoveryCodes.HashRecoveryCode(code), c.later);
      if codes.Some? {
        FinishKeepsFactors(p, s.(codes := codes.value), u.value, c);
      }
    }
  }

  lemma SecondKeepsFactors(p: Policy, s: State, e: Event)
    requires e.action.AnswerTOTP? || e.action.AnswerRecoveryCode? || e.action.AnswerWebAuthn?
    ensures var s' := Next(p, s, e); KeepsFactors(s, s') && s'.mailed == s.mailed && s'.users == s.users && s'.identities == s.identities
  {
    hide CompleteLoginWithRecoveryCode, CompleteLoginWithTOTP, CompleteLoginWithWebAuthn;
    if e.action.AnswerRecoveryCode? {
      RecoveryCodeKeepsFactors(p, s, e.action.pending, e.action.code, e.call);
    } else {
      AnswerKeepsFactors(p, s, e);
    }
  }

  lemma AccountChangesKeepFactors(p: Policy, s: State, e: Event)
    requires e.action.AskForLink? || e.action.Register? || e.action.SetPassword?
    ensures KeepsFactors(s, Next(p, s, e))
  {
  }

  lemma LinkingKeepsFactors(p: Policy, s: State, e: Event)
    requires e.action.Link? || e.action.NewCodes?
    ensures KeepsFactors(s, Next(p, s, e))
  {
  }

  lemma EnrolmentTouchesItsOwn(p: Policy, s: State, e: Event)
    requires e.action.Enroll? || e.action.Confirm? || e.action.Disable? || e.action.AddPasskey? || e.action.RemovePasskey?
    ensures e.action.Enroll? || e.action.Confirm? || e.action.Disable? ==> Next(p, s, e).passkeys == s.passkeys
    ensures e.action.AddPasskey? || e.action.RemovePasskey? ==> Next(p, s, e).secrets == s.secrets
  {
    hide PasswordLogin, CompleteMagicLink, LoginWithOAuth, CompleteLoginWithTOTP, CompleteLoginWithRecoveryCode, CompleteLoginWithWebAuthn;
  }

  lemma OnlyEnrolmentTouchesFactors(p: Policy, s: State, e: Event)
    requires !(e.action.Enroll? || e.action.Confirm? || e.action.Disable? || e.action.AddPasskey? || e.action.RemovePasskey?)
    ensures KeepsFactors(s, Next(p, s, e))
  {
    if e.action.Password? {
      PasswordKeepsFactors(p, s, e);
    } else if e.action.OAuth? {
      OAuthKeepsFactors(p, s, e);
    } else if e.action.FollowLink? {
      LinkKeepsFactors(p, s, e);
    } else if e.action.AnswerTOTP? || e.action.AnswerRecoveryCode? || e.action.AnswerWebAuthn? {
      SecondKeepsFactors(p, s, e);
    } else if e.action.Link? || e.action.NewCodes? {
      LinkingKeepsFactors(p, s, e);
    } else {
      AccountChangesKeepFactors(p, s, e);
    }
  }

  /** A confirmed TOTP secret is never overwritten or unconfirmed; only its owner's password removes it. */
  lemma ConfirmedSecretStays(p: Policy, s: State, e: Event, u: Id)
    requires HasConfirmedTOTP(s, u)
    ensures var s' := Next(p, s, e);
      || (u in s'.secrets && s'.secrets[u] == s.secrets[u])
      || (e.action.Disable? && e.action.user == u && u in s.users && p.passwordMatches(s.users[u].passwordHash, e.action.password))
  {
    match e.action
    case Enroll(_, _) =>
    case Confirm(_, _) =>
    case Disable(_, _) =>
    case AddPasskey(_, _, _) => EnrolmentTouchesItsOwn(p, s, e);
    case RemovePasskey(_, _, _) => EnrolmentTouchesItsOwn(p, s, e);
    case _ => OnlyEnrolmentTouchesFactors(p, s, e);
  }

  /** A passkey stays until its owner's password removes that credential. */
  lemma PasskeyStays(p: Policy, s: State, e: Event, row: Id)
    requires Fresh(s, e) && row in s.passkeys
    ensures var s' := Next(p, s, e); var k := s.passkeys[row];
      || (row in s'.passkeys && s'.passkeys[row] == k)
      || (e.action.RemovePasskey? && e.action.user == k.userId && e.action.credentialId == k.credentialId
          && k.userId in s.users && p.passwordMatches(s.users[k.userId].passwordHash, e.action.password))
  {
    match e.action
    case Enroll(_, _) => EnrolmentTouchesItsOwn(p, s, e);
    case Confirm(_, _) => EnrolmentTouchesItsOwn(p, s, e);
    case Disable(_, _) => EnrolmentTouchesItsOwn(p, s, e);
    case AddPasskey(_, _, _) =>
    case RemovePasskey(_, _, _) =>
    case _ => OnlyEnrolmentTouchesFactors(p, s, e);
  }

  // ----- A login link works once -----

  ghost predicate Spent(mailed: Verifications, h: Digest) {
    exists id :: id in mailed && mailed[id].tokenHash == h && mailed[id].usedAt.Some?
  }

  /** What following a link does to the mailed tokens: it burns a good one, and nothing else. */
  lemma MailedAfterFollowing(p: Policy, s: State, raw: string, c: Call)
    requires WellFormedState(s)
    ensures var found := TokenByHash(s.mailed, HashToken(raw)); var mailed := CompleteMagicLink(p, s, raw, c).0.mailed;
      if found.Some? && IsGoodLink(found.value, raw, found.value.userId, c.at)
      then found.value.id in s.mailed && mailed == s.mailed[found.value.id := found.value.(usedAt := Some(c.later))]
      else mailed == s.mailed
  {
    hide FinishLogin, CompletePrimaryAuth;
    var found := TokenByHash(s.mailed, HashToken(raw));
    if found.Some? {
      var vt := found.value;
      assert vt.id in s.mailed && s.mailed[vt.id] == vt;
      GateKeepsFactors(p, s.(mailed := s.mailed[vt.id := vt.(usedAt := Some(c.later))]), vt.userId, c);
    }
  }

  lemma FollowingSpends(p: Policy, s: State, e: Event, u: Id)
    requires WellFormedState(s) && ProvesLink(s, e, u)
    ensures Spent(Next(p, s, e).mailed, HashToken(e.action.raw))
  {
    var h := HashToken(e.action.raw);
    var id :| id in s.mailed && IsGoodLink(s.mailed[id], e.action.raw, u, e.call.at);
    assert HasTokenHash(s.mailed, h);
    var vt := TokenByHash(s.mailed, h).value;
    assert vt == s.mailed[id] && vt.id == id;
    MailedAfterFollowing(p, s, e.action.raw, e.call);
    assert Next(p, s, e).mailed[id] == vt.(usedAt := Some(e.call.later));
  }

  lemma EnrolmentKeepsMailed(p: Policy, s: State, e: Event)
    requires e.action.Enroll? || e.action.Confirm? || e.action.Disable? || e.action.NewCodes? || e.action.AddPasskey? || e.action.RemovePasskey?
    ensures Next(p, s, e).mailed == s.mailed
  {
    hide PasswordLogin, CompleteMagicLink, LoginWithOAuth, CompleteLoginWithTOTP, CompleteLoginWithRecoveryCode, CompleteLoginWithWebAuthn;
  }

  lemma AccountChangesKeepMailed(p: Policy, s: State, e: Event)
    requires e.action.Register? || e.action.SetPassword? || e.action.Link?
    ensures Next(p, s, e).mailed == s.mailed
  {
    hide PasswordLogin, CompleteMagicLink, LoginWithOAuth, CompleteLoginWithTOTP, CompleteLoginWithRecoveryCode, CompleteLoginWithWebAuthn;
  }

  lemma OnlyLinksTouchMailed(p: Policy, s: State, e: Event)
    requires !e.action.FollowLink? && !e.action.AskForLink?
    ensures Next(p, s, e).mailed == s.mailed
  {
    if e.action.Password? {
      PasswordKeepsFactors(p, s, e);
    } else if e.action.OAuth? {
      OAuthKeepsFactors(p, s, e);
    } else if e.action.AnswerTOTP? || e.action.AnswerRecoveryCode? || e.action.AnswerWebAuthn? {
      SecondKeepsFactors(p, s, e);
    } else if e.action.Register? || e.action.SetPassword? || e.action.Link? {
      AccountChangesKeepMailed(p, s, e);
    } else {
      EnrolmentKeepsMailed(p, s, e);
    }
  }

  lemma AskingKeepsOldMail(p: Policy, s: State, e: Event, id: Id)
    requires e.action.AskForLink? && e.call.newId !in s.mailed && id in s.mailed
    ensures id in Next(p, s, e).mailed && Next(p, s, e).mailed[id] == s.mailed[id]
  {
  }

  lemma SpentStaysSpent(p: Policy, s: State, e: Event, s': State, h: Digest)
    requires WellFormedState(s) && Fresh(s, e) && Follows(p, s, e, s') && Spent(s.mailed, h)
    ensures Spent(s'.mailed, h)
  {
    hide CompletePrimaryAuth, CompleteMagicLink, RequestMagicLink;
    var id :| id in s.mailed && s.mailed[id].tokenHash == h && s.mailed[id].usedAt.Some?;
    match e.action
    case FollowLink(raw) =>
      MailedAfterFollowing(p, s, raw, e.call);
      assert s'.mailed[id].tokenHash == h && s'.mailed[id].usedAt.Some?;
    case AskForLink(_, _, _) => AskingKeepsOldMail(p, s, e, id);
    case _ => OnlyLinksTouchMailed(p, s, e);
  }

  ghost predicate StaysSpent(states: seq<State>, h: Digest) {
    forall i | 0 <= i < |states| - 1 :: Spent(states[i].mailed, h) ==> Spent(states[i + 1].mailed, h)
  }

  lemma RunKeepsSpent(p: Policy, states: seq<State>, events: seq<Event>, h: Digest)
    requires IsRun(p, states, events)
    ensures StaysSpent(states, h)
  {
    forall i | 0 <= i < |events| && Spent(states[i].mailed, h) ensures Spent(states[i + 1].mailed, h) {
      RunKeepsWellFormed(p, states, events, i);
      SpentStaysSpent(p, states[i], events[i], states[i + 1], h);
    }
  }

  lemma {:induction false} SpentLater(states: seq<State>, i: nat, n: nat, h: Digest)
    requires StaysSpent(states, h) && i <= n < |states| && Spent(states[i].mailed, h)
    ensures Spent(states[n].mailed, h)
    decreases n
  {
    if i < n {
      SpentLater(states, i, n - 1, h);
      assert Spent(states[n - 1].mailed, h) ==> Spent(states[n - 1 + 1].mailed, h);
    }
  }

  /** In every run, one mailed token proves a primary factor at most once. */
  lemma LinkWorksOnce(p: Policy, states: seq<State>, events: seq<Event>, i: nat, j: nat, u: Id, w: Id)
    requires IsRun(p, states, events) && i < j < |events|
    requires ProvesLink(states[i], events[i], u)
    requires events[j].action == events[i].action
    ensures !ProvesLink(states[j], events[j], w)
  {
    var h := HashToken(events[i].action.raw);
    RunKeepsWellFormed(p, states, events, i);
    assert Spent(states[i + 1].mailed, h) by {
      FollowingSpends(p, states[i], events[i], u);
    }
    RunKeepsSpent(p, states, events, h);
    SpentLater(states, i + 1, j, h);
    RunKeepsWellFormed(p, states, events, j);
    SpentLinkProvesNothing(states[j], events[j], w);
  }

  lemma SpentLinkProvesNothing(s: State, e: Event, u: Id)
    requires WellFormedState(s) && e.action.FollowLink? && Spent(s.mailed, HashToken(e.action.raw))
    ensures !ProvesLink(s, e, u)
  {
  }

  // ----- A provider's identity names one user -----

  ghost predicate LinkedTo(t: Identities, provider: string, externalId: string, u: Id) {
    exists id :: id in t && IsIdentity(t[id], provider, externalId) && t[id].userId == u
  }

  /** Rows are added, never changed. */
  ghost predicate IdentitiesStay(t: Identities, t': Identities) {
    forall id | id in t :: id in t' && t'[id] == t[id]
  }

  lemma OAuthAddsIdentity(p: Policy, s: State, e: Event)
    requires e.action.OAuth?
    ensures var found := IdentityOf(s.identities, e.action.provider, e.action.externalId);
      Next(p, s, e).identities ==
        if found.Some? || HasEmail(s.users, e.action.email) then s.identities
        else s.identities[e.call.newRow := OAuthIdentity(e.call.newRow, e.call.newId, e.action.provider, e.action.externalId)]
  {
    hide FinishLogin, CompletePrimaryAuth;
    var c := e.call;
    var found := IdentityOf(s.identities, e.action.provider, e.action.externalId);
    if found.Some? {
      GateKeepsFactors(p, s, found.value.userId, c);
    } else {
      GateKeepsFactors(p, s.(users := s.users[c.newId := User(c.newId, e.action.email, "", 0, None)],
                             identities := s.identities[c.newRow := OAuthIdentity(c.newRow, c.newId, e.action.provider, e.action.externalId)]),
                       c.newId, c);
    }
  }

  lemma EnrolmentKeepsIdentities(p: Policy, s: State, e: Event)
    requires e.action.Enroll? || e.action.Confirm? || e.action.Disable? || e.action.NewCodes? || e.action.AddPasskey? || e.action.RemovePasskey?
    ensures Next(p, s, e).identities == s.identities
  {
    hide PasswordLogin, CompleteMagicLink, LoginWithOAuth, CompleteLoginWithTOTP, CompleteLoginWithRecoveryCode, CompleteLoginWithWebAuthn;
  }

  lemma AccountChangesKeepIdentities(p: Policy, s: State, e: Event)
    requires e.action.AskForLink? || e.action.Register? || e.action.SetPassword?
    ensures Next(p, s, e).identities == s.identities
  {
    hide PasswordLogin, CompleteMagicLink, LoginWithOAuth, CompleteLoginWithTOTP, CompleteLoginWithRecoveryCode, CompleteLoginWithWebAuthn;
  }

  /** No call re-points an identity that is linked already. */
  lemma StepKeepsIdentities(p: Policy, s: State, e: Event, s': State)
    requires Fresh(s, e) && Follows(p, s, e, s')
    ensures IdentitiesStay(s.identities, s'.identities)
  {
    match e.action
    case Password(_, _, _) => PasswordKeepsFactors(p, s, e);
    case FollowLink(_) => LinkKeepsFactors(p, s, e);
    case OAuth(_, _, _) => OAuthAddsIdentity(p, s, e);
    case AnswerTOTP(_, _) => SecondKeepsFactors(p, s, e);
    case AnswerWebAuthn(_, _, _) => SecondKeepsFactors(p, s, e);
    case AnswerRecoveryCode(_, _) => SecondKeepsFactors(p, s, e);
    case Link(_, _, _) =>
    case AskForLink(_, _, _) => AccountChangesKeepIdentities(p, s, e);
    case Register(_, _, _) => AccountChangesKeepIdentities(p, s, e);
    case SetPassword(_, _, _) => AccountChangesKeepIdentities(p, s, e);
    case _ => EnrolmentKeepsIdentities(p, s, e);
  }

  lemma OAuthLoginLinks(p: Policy, s: State, e: Event, u: Id)
    requires ProvesOAuth(s, e, u) && Fresh(s, e)
    ensures LinkedTo(Next(p, s, e).identities, e.action.provider, e.action.externalId, u)
  {
    OAuthAddsIdentity(p, s, e);
    var t := Next(p, s, e).identities;
    if HasIdentity(s.identities, e.action.provider, e.action.externalId) {
      var id :| id in s.identities && IsIdentity(s.identities[id], e.action.provider, e.action.externalId) && s.identities[id].userId == u;
      assert id in t && t[id] == s.identities[id];
    } else {
      assert t[e.call.newRow].userId == u;
    }
  }

  ghost predicate AllIdentitiesStay(states: seq<State>) {
    forall i | 0 <= i < |states| - 1 :: IdentitiesStay(states[i].identities, states[i + 1].identities)
  }

  lemma RunKeepsIdentities(p: Policy, states: seq<State>, events: seq<Event>)
    requires IsRun(p, states, events)
    ensures AllIdentitiesStay(states)
  {
    forall i | 0 <= i < |events| ensures IdentitiesStay(states[i].identities, states[i + 1].identities) {
      StepKeepsIdentities(p, states[i], events[i], states[i + 1]);
    }
  }

  lemma {:induction false} LinkedLater(states: seq<State>, i: nat, n: nat, provider: string, externalId: string, u: Id)
    requires AllIdentitiesStay(states) && i <= n < |states| && LinkedTo(states[i].identities, provider, externalId, u)
    ensures LinkedTo(states[n].identities, provider, externalId, u)
    decreases n
  {
    if i < n {
      LinkedLater(states, i, n - 1, provider, externalId, u);
      assert IdentitiesStay(states[n - 1].identities, states[n - 1 + 1].identities);
      var id :| id in states[n - 1].identities && IsIdentity(states[n - 1].identities[id], provider, externalId)
                && states[n - 1].identities[id].userId == u;
      assert id in states[n].identities && states[n].identities[id].userId == u;
    }
  }

  /** In every run one identity of one provider proves the primary factor of one user only. */
  lemma IdentityNamesOneUser(p: Policy, states: seq<State>, events: seq<Event>, i: nat, j: nat, u: Id, w: Id)
    requires IsRun(p, states, events) && i < j < |events|
    requires ProvesOAuth(states[i], events[i], u) && ProvesOAuth(states[j], events[j], w)
    requires events[j].action.provider == events[i].action.provider && events[j].action.externalId == events[i].action.externalId
    ensures u == w
  {
    var provider, externalId := events[i].action.provider, events[i].action.externalId;
    assert LinkedTo(states[i + 1].identities, provider, externalId, u) by {
      OAuthLoginLinks(p, states[i], events[i], u);
    }
    RunKeepsIdentities(p, states, events);
    LinkedLater(states, i + 1, j, provider, externalId, u);
    RunKeepsWellFormed(p, states, events, j);
    LinkedUserIsTheOne(states[j], events[j], u, w);
  }

  lemma LinkedUserIsTheOne(s: State, e: Event, u: Id, w: Id)
    requires WellFormedState(s) && ProvesOAuth(s, e, w) && LinkedTo(s.identities, e.action.provider, e.action.externalId, u)
    ensures u == w
  {
  }
}
