/** Sequential runs of sign-in operations, and the uniqueness every operation keeps. */
module Runs {
  import opened Wrappers
  import opened Sessions
  import opened AccountStores
  import opened Pending
  import RecoveryCodes
  import opened Login

  /** Drawn ids, mailed tokens and new credentials are fresh. */
  ghost predicate Fresh(s: State, e: Event) {
    && e.call.newId !in s.users && e.call.newId !in s.mailed
    && e.call.newRow !in s.identities && e.call.newRow !in s.passkeys
    && (e.action.AskForLink? ==> !HasTokenHash(s.mailed, HashToken(e.action.raw)))
    && (e.action.AddPasskey? ==> forall row | row in s.passkeys :: s.passkeys[row].credentialId != e.action.credentialId)
  }

  ghost predicate Follows(p: Policy, s: State, e: Event, s': State) {
    s' == Next(p, s, e)
  }

  /** A sequential run: the states between its events. */
  ghost predicate IsRun(p: Policy, states: seq<State>, events: seq<Event>) {
    && |states| == |events| + 1 && WellFormedState(states[0]) && Sequential(events)
    && (forall i | 0 <= i < |events| :: Fresh(states[i], events[i]) && Follows(p, states[i], events[i], states[i + 1]))
  }

  lemma FinishKeepsWellFormed(p: Policy, s: State, u: Id, c: Call)
    requires WellFormedState(s)
    ensures WellFormedState(FinishLogin(p, s, u, c).0)
  {
    var t := InsertRow(s.sessions, NewSession(u, c), c.later);
    if t.Ok? {
      assert Insertable(s.sessions, NewSession(u, c));
      assert Sessions.WellFormed(t.value);
    }
  }

  lemma GateKeepsWellFormed(p: Policy, s: State, u: Id, c: Call)
    requires WellFormedState(s)
    ensures WellFormedState(CompletePrimaryAuth(p, s, u, c).0)
  {
    hide FinishLogin, UsersWellFormed, PasskeysWellFormed, VerificationsWellFormed, IdentitiesWellFormed, Sessions.WellFormed;
    FinishKeepsWellFormed(p, s, u, c);
  }

  lemma OneUserChanged(t: Users, u: User)
    requires UsersWellFormed(t) && (if u.id in t then t[u.id].email == u.email else !HasEmail(t, u.email))
    ensures UsersWellFormed(t[u.id := u])
  {
  }

  lemma PasswordKeepsWellFormed(p: Policy, s: State, e: Event)
    requires WellFormedState(s) && e.action.Password?
    ensures WellFormedState(Next(p, s, e))
  {
    hide FinishLogin, CompletePrimaryAuth, PasskeysWellFormed, VerificationsWellFormed, IdentitiesWellFormed, Sessions.WellFormed;
    var found := UserByEmail(s.users, e.action.email);
    if found.Some? {
      var u := found.value;
      OneUserChanged(s.users, AfterFailure(p, u, e.call));
      OneUserChanged(s.users, AfterSuccess(p, u, e.action.password, e.call));
      GateKeepsWellFormed(p, s.(users := s.users[u.id := AfterSuccess(p, u, e.action.password, e.call)]), u.id, e.call);
    }
  }

  lemma LinkKeepsWellFormed(p: Policy, s: State, e: Event)
    requires WellFormedState(s) && e.action.FollowLink?
    ensures WellFormedState(Next(p, s, e))
  {
    hide FinishLogin, CompletePrimaryAuth, UsersWellFormed, PasskeysWellFormed, IdentitiesWellFormed, Sessions.WellFormed;
    var found := TokenByHash(s.mailed, HashToken(e.action.raw));
    if found.Some? {
      var vt := found.value;
      var mailed := s.mailed[vt.id := s.mailed[vt.id].(usedAt := Some(e.call.later))];
      assert VerificationsWellFormed(mailed);
      GateKeepsWellFormed(p, s.(mailed := mailed), vt.userId, e.call);
    }
  }

  lemma OAuthKeepsWellFormed(p: Policy, s: State, e: Event)
    requires WellFormedState(s) && Fresh(s, e) && e.action.OAuth?
    ensures WellFormedState(Next(p, s, e))
  {
    hide FinishLogin, CompletePrimaryAuth, PasskeysWellFormed, VerificationsWellFormed, Sessions.WellFormed;
    var c := e.call;
    var found := IdentityOf(s.identities, e.action.provider, e.action.externalId);
    if found.Some? {
      GateKeepsWellFormed(p, s, found.value.userId, c);
    } else if !HasEmail(s.users, e.action.email) {
      var u := User(c.newId, e.action.email, "", 0, None);
      OneUserChanged(s.users, u);
      var identities := s.identities[c.newRow := OAuthIdentity(c.newRow, c.newId, e.action.provider, e.action.externalId)];
      assert IdentitiesWellFormed(identities);
      GateKeepsWellFormed(p, s.(users := s.users[c.newId := u], identities := identities), c.newId, c);
    }
  }

  lemma AnswerKeepsWellFormed(p: Policy, s: State, e: Event)
    requires WellFormedState(s) && (e.action.AnswerTOTP? || e.action.AnswerWebAuthn?)
    ensures WellFormedState(Next(p, s, e))
  {
    hide FinishLogin, CompletePrimaryAuth, UsersWellFormed, PasskeysWellFormed, VerificationsWellFormed, IdentitiesWellFormed, Sessions.WellFormed;
    var u := Verify(s.signed, e.action.pending, e.call.at);
    if u.Some? {
      FinishKeepsWellFormed(p, s, u.value, e.call);
    }
  }

  lemma RecoveryCodeKeepsWellFormed(p: Policy, s: State, e: Event)
    requires WellFormedState(s) && e.action.AnswerRecoveryCode?
    ensures WellFormedState(Next(p, s, e))
  {
    hide FinishLogin, CompletePrimaryAuth, UsersWellFormed, PasskeysWellFormed, VerificationsWellFormed, IdentitiesWellFormed, Sessions.WellFormed;
    var u := Verify(s.signed, e.action.pending, e.call.at);
    if u.Some? {
      var codes := RecoveryCodes.ConsumeCode(s.codes, u.value, RecoveryCodes.HashRecoveryCode(e.action.code), e.call.later);
      if codes.Some? {
        FinishKeepsWellFormed(p, s.(codes := codes.value), u.value, e.call);
      }
    }
  }

  lemma RegisterKeepsWellFormed(p: Policy, s: State, e: Event)
    requires WellFormedState(s) && e.action.Register? && e.call.newId !in s.users
    ensures WellFormedState(Next(p, s, e))
  {
    hide PasskeysWellFormed, VerificationsWellFormed, IdentitiesWellFormed, Sessions.WellFormed;
    if !HasEmail(s.users, e.action.email) {
      OneUserChanged(s.users, User(e.call.newId, e.action.email, e.action.hash, 0, None));
    }
  }

  lemma AskingKeepsWellFormed(p: Policy, s: State, e: Event)
    requires WellFormedState(s) && e.action.AskForLink? && Fresh(s, e)
    ensures WellFormedState(Next(p, s, e))
  {
    hide UsersWellFormed, PasskeysWellFormed, IdentitiesWellFormed, Sessions.WellFormed;
  }

  lemma SetPasswordKeepsWellFormed(p: Policy, s: State, u: Id, current: string, hash: string, c: Call)
    requires WellFormedState(s)
    ensures WellFormedState(ChangePassword(p, s, u, current, hash, c).0)
  {
    if u in s.users {
      OneUserChanged(s.users, s.users[u].(passwordHash := hash));
      RevokingKeepsWellFormed(s.sessions, u, c.later);
    }
  }

  lemma RevokingKeepsWellFormed(t: Sessions.Table, u: Id, now: Instant)
    requires Sessions.WellFormed(t)
    ensures Sessions.WellFormed(RevokeUserRows(t, u, now))
  {
    var t' := RevokeUserRows(t, u, now);
    assert forall id | id in t' :: t'[id].id == t[id].id && t'[id].tokenHash == t[id].tokenHash;
  }

  lemma PasskeysKeepWellFormed(p: Policy, s: State, e: Event)
    requires WellFormedState(s) && Fresh(s, e) && (e.action.AddPasskey? || e.action.RemovePasskey?)
    ensures WellFormedState(Next(p, s, e))
  {
    hide UsersWellFormed, VerificationsWellFormed, IdentitiesWellFormed, Sessions.WellFormed;
  }

  lemma LinkingKeepsWellFormed(p: Policy, s: State, e: Event)
    requires WellFormedState(s) && Fresh(s, e) && e.action.Link?
    ensures WellFormedState(Next(p, s, e))
  {
    hide UsersWellFormed, PasskeysWellFormed, VerificationsWellFormed, Sessions.WellFormed;
  }

  lemma SecretsKeepWellFormed(p: Policy, s: State, e: Event)
    requires WellFormedState(s) && (e.action.Enroll? || e.action.Confirm? || e.action.Disable? || e.action.NewCodes?)
    ensures WellFormedState(Next(p, s, e))
  {
    hide UsersWellFormed, PasskeysWellFormed, VerificationsWellFormed, IdentitiesWellFormed, Sessions.WellFormed;
  }

  /** Every operation keeps ids, emails, hashes, credentials and identities unique. */
  lemma StepKeepsWellFormed(p: Policy, s: State, e: Event)
    requires WellFormedState(s) && Fresh(s, e)
    ensures WellFormedState(Next(p, s, e))
  {
    match e.action
    case Password(_, _, _) => PasswordKeepsWellFormed(p, s, e);
    case FollowLink(_) => LinkKeepsWellFormed(p, s, e);
    case OAuth(_, _, _) => OAuthKeepsWellFormed(p, s, e);
    case AnswerTOTP(_, _) => AnswerKeepsWellFormed(p, s, e);
    case AnswerWebAuthn(_, _, _) => AnswerKeepsWellFormed(p, s, e);
    case AnswerRecoveryCode(_, _) => RecoveryCodeKeepsWellFormed(p, s, e);
    case AskForLink(_, _, _) => AskingKeepsWellFormed(p, s, e);
    case Register(_, _, _) => RegisterKeepsWellFormed(p, s, e);
    case SetPassword(u, current, hash) => SetPasswordKeepsWellFormed(p, s, u, current, hash, e.call);
    case AddPasskey(_, _, _) => PasskeysKeepWellFormed(p, s, e);
    case RemovePasskey(_, _, _) => PasskeysKeepWellFormed(p, s, e);
    case Link(_, _, _) => LinkingKeepsWellFormed(p, s, e);
    case _ => SecretsKeepWellFormed(p, s, e);
  }

  lemma {:induction false} RunKeepsWellFormed(p: Policy, states: seq<State>, events: seq<Event>, n: nat)
    requires IsRun(p, states, events) && n <= |events|
    ensures WellFormedState(states[n])
  {
    if n > 0 {
      RunKeepsWellFormed(p, states, events, n - 1);
      FollowingKeepsWellFormed(p, states[n - 1], events[n - 1], states[n]);
    }
  }

  lemma FollowingKeepsWellFormed(p: Policy, s: State, e: Event, s': State)
    requires WellFormedState(s) && Fresh(s, e) && Follows(p, s, e, s')
    ensures WellFormedState(s')
  {
    StepKeepsWellFormed(p, s, e);
  }
}
