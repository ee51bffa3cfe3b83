/** No session without its proofs: what every run guarantees about the sessions it creates. */
module Gate {
  import opened Wrappers
  import opened Sessions
  import opened AccountStores
  import opened Pending
  import RecoveryCodes
  import opened Login
  import opened Runs

  // ----- What counts as a proof -----

  ghost predicate ProvesPassword(p: Policy, s: State, e: Event, u: Id) {
    && e.action.Password? && e.action.allowed
    && u in s.users && s.users[u].email == e.action.email
    && !Locked(s.users[u], e.call.at)
    && p.passwordMatches(s.users[u].passwordHash, e.action.password)
  }

  /** The row is an unused, unexpired login link for this raw token and this user. */
  predicate IsGoodLink(vt: VerificationToken, raw: string, u: Id, now: Instant) {
    vt.purpose == MagicLink && vt.tokenHash == HashToken(raw) && vt.usedAt.None? && now <= vt.expiresAt && vt.userId == u
  }

  ghost predicate ProvesLink(s: State, e: Event, u: Id) {
    e.action.FollowLink? && exists id :: id in s.mailed && IsGoodLink(s.mailed[id], e.action.raw, u, e.call.at)
  }

  /** The provider's identity is linked to the user, or it is linked to nobody and the email is free, and this user is new. */
  ghost predicate ProvesOAuth(s: State, e: Event, u: Id) {
    && e.action.OAuth?
    && (|| (exists id :: id in s.identities && IsIdentity(s.identities[id], e.action.provider, e.action.externalId) && s.identities[id].userId == u)
        || (!HasIdentity(s.identities, e.action.provider, e.action.externalId) && !HasEmail(s.users, e.action.email) && u == e.call.newId))
  }

  ghost predicate ProvesPrimary(p: Policy, s: State, e: Event, u: Id) {
    ProvesPassword(p, s, e, u) || ProvesLink(s, e, u) || ProvesOAuth(s, e, u)
  }

  ghost predicate ProvesTOTP(p: Policy, s: State, e: Event, u: Id) {
    e.action.AnswerTOTP? && HasConfirmedTOTP(s, u) && p.totpMatches(s.secrets[u].secret, e.action.code, e.call.later)
  }

  ghost predicate ProvesRecoveryCode(s: State, e: Event, u: Id) {
    e.action.AnswerRecoveryCode? && RecoveryCodes.HashRecoveryCode(e.action.code) in RecoveryCodes.Unused(RecoveryCodes.CodesOf(s.codes, u))
  }

  ghost predicate ProvesPasskey(p: Policy, s: State, e: Event, u: Id) {
    && e.action.AnswerWebAuthn?
    && p.ceremonyOpens(e.action.ceremony) && PasskeyAnswers(p, s, u, e.action.ceremony, e.action.response)
  }

  /** A second factor the user holds now, shown together with a valid pending token of the same user. */
  ghost predicate ProvesSecond(p: Policy, s: State, e: Event, u: Id) {
    && (ProvesTOTP(p, s, e, u) || ProvesRecoveryCode(s, e, u) || ProvesPasskey(p, s, e, u))
    && Verify(s.signed, e.action.pending, e.call.at) == Some(u)
  }

  /** Whoever proves a second factor holds it: a confirmed secret, a passkey of their own, or an unused code. */
  lemma ProvedSecondIsHeld(p: Policy, s: State, e: Event, u: Id)
    requires ProvesSecond(p, s, e, u)
    ensures HasRealFactor(s, u) || |RecoveryCodes.Unused(RecoveryCodes.CodesOf(s.codes, u))| > 0
    ensures e.action.AnswerWebAuthn? ==> HasPasskey(s.passkeys, u)
  {
    if e.action.AnswerWebAuthn? {
      var row :| row in s.passkeys && IsCredential(s.passkeys[row], u, e.action.response.credentialId);
      assert s.passkeys[row].userId == u;
    }
  }

  // ----- One step -----

  ghost predicate Creates(s: State, s': State, u: Id) {
    exists id :: id in s'.sessions && id !in s.sessions && s'.sessions[id].userId == u
  }

  ghost predicate SignsPending(s: State, s': State, t: Jwt) {
    t in s'.signed && t !in s.signed && t.typ == PENDING_TYPE
  }

  ghost predicate AddsOneSession(s: State, s': State, u: Id) {
    && (forall w :: Creates(s, s', w) ==> w == u)
    && (forall t :: !SignsPending(s, s', t))
  }

  /** What FinishLogin adds: one session, of that user, and no pending token. */
  lemma FinishAdds(p: Policy, s: State, u: Id, c: Call)
    ensures AddsOneSession(s, FinishLogin(p, s, u, c).0, u)
  {
    assert |PENDING_TYPE| != |""|;
    var s' := FinishLogin(p, s, u, c).0;
    assert forall id | id in s'.sessions && id !in s.sessions :: s'.sessions[id].userId == u;
  }

  /** A login is paused exactly when a real factor is enrolled, and a recovery code is offered only beside one. */
  lemma MethodsAre(s: State, u: Id)
    ensures Methods(s, u) != [] <==> HasRealFactor(s, u)
    ensures ByTOTP in Methods(s, u) <==> HasConfirmedTOTP(s, u)
    ensures ByPasskey in Methods(s, u) <==> HasPasskey(s.passkeys, u)
    ensures ByRecoveryCode in Methods(s, u) <==> HasRealFactor(s, u) && |RecoveryCodes.Unused(RecoveryCodes.CodesOf(s.codes, u))| > 0
    ensures ByRecoveryCode in Methods(s, u) ==> ByTOTP in Methods(s, u) || ByPasskey in Methods(s, u)
    ensures forall i, j | 0 <= i < j < |Methods(s, u)| ::
      Methods(s, u)[i] != Methods(s, u)[j] && Methods(s, u)[i] != ByRecoveryCode && Methods(s, u)[j] != ByTOTP
  {
  }

  /** What the gate adds: a session only when no real factor is enrolled, a pending token only when one is. */
  ghost predicate GateAdds(s: State, s': State, u: Id, c: Call) {
    && (forall w :: Creates(s, s', w) ==> w == u && !HasRealFactor(s, u))
    && (forall t :: SignsPending(s, s', t) ==> t == Issue(u, c.later) && HasRealFactor(s, u))
  }

  /** ... seen from a state that differs only in what the primary factor itself changed. */
  lemma GateAddsFrom(p: Policy, s: State, proved: State, u: Id, c: Call)
    requires proved.sessions == s.sessions && proved.signed == s.signed && proved.secrets == s.secrets && proved.passkeys == s.passkeys
    ensures GateAdds(s, CompletePrimaryAuth(p, proved, u, c).0, u, c)
  {
    MethodsAre(proved, u);
    FinishAdds(p, proved, u, c);
    var s' := CompletePrimaryAuth(p, proved, u, c).0;
    assert HasRealFactor(proved, u) == HasRealFactor(s, u);
    assert forall w :: Creates(s, s', w) == Creates(proved, s', w);
    assert forall t :: SignsPending(s, s', t) == SignsPending(proved, s', t);
  }

  ghost predicate Unchanged(s: State, s': State) {
    s'.signed == s.signed && s'.sessions.Keys == s.sessions.Keys
  }

  /** A session is created only on a second factor, or on a primary one when no second is enrolled. */
  ghost predicate CreationIsProved(p: Policy, s: State, e: Event, s': State) {
    forall u | Creates(s, s', u) :: ProvesSecond(p, s, e, u) || (ProvesPrimary(p, s, e, u) && !HasRealFactor(s, u))
  }

  /** A pending token is issued only on a primary factor, and only when a second is enrolled. */
  ghost predicate PauseIsProved(p: Policy, s: State, e: Event, s': State) {
    forall t | SignsPending(s, s', t) ::
      ProvesPrimary(p, s, e, t.subject) && HasRealFactor(s, t.subject) && t == Issue(t.subject, e.call.later)
  }

  ghost predicate IsProved(p: Policy, s: State, e: Event, s': State) {
    CreationIsProved(p, s, e, s') && PauseIsProved(p, s, e, s')
  }

  lemma GateIsProved(p: Policy, s: State, e: Event, s': State, u: Id)
    requires ProvesPrimary(p, s, e, u) && GateAdds(s, s', u, e.call)
    ensures IsProved(p, s, e, s')
  {
  }

  lemma UnchangedIsProved(p: Policy, s: State, e: Event, s': State)
    requires Unchanged(s, s')
    ensures IsProved(p, s, e, s')
  {
  }

  /** A password login passes the gate on a proof of the account it names, and otherwise touches no session and no token. */
  lemma PasswordPasses(p: Policy, s: State, e: Event)
    requires WellFormedState(s) && e.action.Password?
    ensures var found := UserByEmail(s.users, e.action.email);
      if found.Some? && ProvesPassword(p, s, e, found.value.id)
      then
        var u := found.value;
        Step(p, s, e) == CompletePrimaryAuth(p, s.(users := s.users[u.id := AfterSuccess(p, u, e.action.password, e.call)]), u.id, e.call)
      else Unchanged(s, Next(p, s, e))
  {
    hide CompletePrimaryAuth;
  }

  lemma PasswordIsProved(p: Policy, s: State, e: Event)
    requires WellFormedState(s) && e.action.Password?
    ensures IsProved(p, s, e, Next(p, s, e))
  {
    hide Step, CompletePrimaryAuth, WellFormedState, ProvesPassword, IsProved, GateAdds, Unchanged;
    PasswordPasses(p, s, e);
    var found := UserByEmail(s.users, e.action.email);
    if found.Some? && ProvesPassword(p, s, e, found.value.id) {
      var u := found.value;
      GateAddsFrom(p, s, s.(users := s.users[u.id := AfterSuccess(p, u, e.action.password, e.call)]), u.id, e.call);
      GateIsProved(p, s, e, Next(p, s, e), u.id);
    } else {
      UnchangedIsProved(p, s, e, Next(p, s, e));
    }
  }

  /** Following a good link of a user who is still there passes the gate; no other changes a session or a token. */
  lemma LinkPasses(p: Policy, s: State, e: Event)
    requires WellFormedState(s) && e.action.FollowLink?
    ensures var found := TokenByHash(s.mailed, HashToken(e.action.raw));
      if found.Some? && IsGoodLink(found.value, e.action.raw, found.value.userId, e.call.at) && found.value.userId in s.users
      then
        var vt := found.value;
        && ProvesLink(s, e, vt.userId)
        && Next(p, s, e) == CompletePrimaryAuth(p, s.(mailed := s.mailed[vt.id := vt.(usedAt := Some(e.call.later))]), vt.userId, e.call).0
      else Unchanged(s, Next(p, s, e))
  {
    hide CompletePrimaryAuth;
    var found := TokenByHash(s.mailed, HashToken(e.action.raw));
    assert found.Some? ==> found.value.id in s.mailed && s.mailed[found.value.id] == found.value;
  }

  lemma LinkIsProved(p: Policy, s: State, e: Event)
    requires WellFormedState(s) && e.action.FollowLink?
    ensures IsProved(p, s, e, Next(p, s, e))
  {
    hide Next, CompletePrimaryAuth, WellFormedState, ProvesLink, IsProved, GateAdds, Unchanged;
    LinkPasses(p, s, e);
    var found := TokenByHash(s.mailed, HashToken(e.action.raw));
    if found.Some? && IsGoodLink(found.value, e.action.raw, found.value.userId, e.call.at) && found.value.userId in s.users {
      var vt := found.value;
      GateAddsFrom(p, s, s.(mailed := s.mailed[vt.id := vt.(usedAt := Some(e.call.later))]), vt.userId, e.call);
      GateIsProved(p, s, e, Next(p, s, e), vt.userId);
    } else {
      UnchangedIsProved(p, s, e, Next(p, s, e));
    }
  }

  lemma OAuthIsProved(p: Policy, s: State, e: Event)
    requires e.action.OAuth?
    ensures IsProved(p, s, e, Next(p, s, e))
  {
    hide FinishLogin, CompletePrimaryAuth;
    var c := e.call;
    var s' := LoginWithOAuth(p, s, e.action.provider, e.action.externalId, e.action.email, c).0;
    var found := IdentityOf(s.identities, e.action.provider, e.action.externalId);
    if found.Some? {
      var u := found.value.userId;
      assert ProvesOAuth(s, e, u);
      if u in s.users {
        GateAddsFrom(p, s, s, u, c);
        GateIsProved(p, s, e, s', u);
      } else {
        UnchangedIsProved(p, s, e, s');
      }
    } else if HasEmail(s.users, e.action.email) {
      UnchangedIsProved(p, s, e, s');
    } else {
      var created := s.(users := s.users[c.newId := User(c.newId, e.action.email, "", 0, None)],
                        identities := s.identities[c.newRow := OAuthIdentity(c.newRow, c.newId, e.action.provider, e.action.externalId)]);
      assert s' == CompletePrimaryAuth(p, created, c.newId, c).0;
      GateAddsFrom(p, s, created, c.newId, c);
      GateIsProved(p, s, e, s', c.newId);
    }
  }

  lemma FinishIsProved(p: Policy, s: State, e: Event, before: State, u: Id)
    requires ProvesSecond(p, s, e, u) && before.sessions == s.sessions && before.signed == s.signed
    ensures IsProved(p, s, e, FinishLogin(p, before, u, e.call).0)
  {
    FinishAdds(p, before, u, e.call);
    var s' := FinishLogin(p, before, u, e.call).0;
    assert forall w :: Creates(s, s', w) == Creates(before, s', w);
    assert forall t :: SignsPending(s, s', t) == SignsPending(before, s', t);
  }

  lemma TOTPIsProved(p: Policy, s: State, e: Event)
    requires e.action.AnswerTOTP?
    ensures IsProved(p, s, e, Next(p, s, e))
  {
    hide FinishLogin, CompletePrimaryAuth;
    var u := Verify(s.signed, e.action.pending, e.call.at);
    if u.Some? && u.value in s.users && ProvesTOTP(p, s, e, u.value) {
      FinishIsProved(p, s, e, s, u.value);
    } else {
      UnchangedIsProved(p, s, e, Next(p, s, e));
    }
  }

  lemma RecoveryCodeIsProved(p: Policy, s: State, e: Event)
    requires e.action.AnswerRecoveryCode?
    ensures IsProved(p, s, e, Next(p, s, e))
  {
    hide FinishLogin, CompletePrimaryAuth;
    var s' := CompleteLoginWithRecoveryCode(p, s, e.action.pending, e.action.code, e.call).0;
    var u := Verify(s.signed, e.action.pending, e.call.at);
    if u.Some? && SpendsCode(s, e, u.value).Some? {
      var spent := s.(codes := SpendsCode(s, e, u.value).value);
      if u.value in s.users {
        assert ProvesSecond(p, s, e, u.value);
        FinishIsProved(p, s, e, spent, u.value);
        assert s' == FinishLogin(p, spent, u.value, e.call).0;
      } else {
        UnchangedIsProved(p, s, e, s');
      }
    } else {
      UnchangedIsProved(p, s, e, s');
    }
  }

  function SpendsCode(s: State, e: Event, u: Id): (r: Option<RecoveryCodes.Table>)
    requires e.action.AnswerRecoveryCode?
    ensures r.Some? <==> ProvesRecoveryCode(s, e, u)
  {
    var h := RecoveryCodes.HashRecoveryCode(e.action.code);
    RecoveryCodes.SpendTakesOne(RecoveryCodes.CodesOf(s.codes, u), h, e.call.later);
    RecoveryCodes.ConsumeCode(s.codes, u, h, e.call.later)
  }

  lemma WebAuthnIsProved(p: Policy, s: State, e: Event)
    requires e.action.AnswerWebAuthn?
    ensures IsProved(p, s, e, Next(p, s, e))
  {
    hide FinishLogin, CompletePrimaryAuth;
    var u := Verify(s.signed, e.action.pending, e.call.at);
    if u.Some? && u.value in s.users && ProvesPasskey(p, s, e, u.value) {
      FinishIsProved(p, s, e, s, u.value);
    } else {
      UnchangedIsProved(p, s, e, Next(p, s, e));
    }
  }

  lemma EnrolmentCreatesNothing(p: Policy, s: State, e: Event)
    requires e.action.Enroll? || e.action.Confirm? || e.action.Disable? || e.action.NewCodes? || e.action.AddPasskey? || e.action.RemovePasskey?
    ensures Unchanged(s, Next(p, s, e))
  {
    hide PasswordLogin, CompleteMagicLink, LoginWithOAuth, CompleteLoginWithTOTP, CompleteLoginWithRecoveryCode, CompleteLoginWithWebAuthn;
  }

  lemma AccountChangesCreateNothing(p: Policy, s: State, e: Event)
    requires e.action.AskForLink? || e.action.Register? || e.action.SetPassword? || e.action.Link?
    ensures Unchanged(s, Next(p, s, e))
  {
  }

  lemma StepIsProved(p: Policy, s: State, e: Event, s': State)
    requires WellFormedState(s) && Follows(p, s, e, s')
    ensures IsProved(p, s, e, s')
  {
    match e.action
    case Password(_, _, _) => PasswordIsProved(p, s, e);
    case FollowLink(_) => LinkIsProved(p, s, e);
    case OAuth(_, _, _) => OAuthIsProved(p, s, e);
    case AnswerTOTP(_, _) => TOTPIsProved(p, s, e);
    case AnswerRecoveryCode(_, _) => RecoveryCodeIsProved(p, s, e);
    case AnswerWebAuthn(_, _, _) => WebAuthnIsProved(p, s, e);
    case _ => QuietStepIsProved(p, s, e, s');
  }

  lemma QuietStepIsProved(p: Policy, s: State, e: Event, s': State)
    requires Follows(p, s, e, s')
    requires !(e.action.Password? || e.action.FollowLink? || e.action.OAuth?)
    requires !(e.action.AnswerTOTP? || e.action.AnswerRecoveryCode? || e.action.AnswerWebAuthn?)
    ensures IsProved(p, s, e, s')
  {
    if e.action.AskForLink? || e.action.Register? || e.action.SetPassword? || e.action.Link? {
      AccountChangesCreateNothing(p, s, e);
    } else {
      EnrolmentCreatesNothing(p, s, e);
    }
    UnchangedIsProved(p, s, e, s');
  }

  // ----- Every run -----

  /** A primary factor of the token's subject was proved while a real factor was enrolled, and the token was issued then. */
  ghost predicate PausedWith(p: Policy, s: State, e: Event, t: Jwt) {
    && ProvesPrimary(p, s, e, t.subject)
    && HasRealFactor(s, t.subject)
    && t == Issue(t.subject, e.call.later)
  }

  ghost predicate NoPendingTokens(s: State) {
    forall t | t in s.signed :: t.typ != PENDING_TYPE
  }

  ghost predicate AllProved(p: Policy, states: seq<State>, events: seq<Event>) {
    |states| == |events| + 1 && forall i | 0 <= i < |events| :: IsProved(p, states[i], events[i], states[i + 1])
  }

  lemma EveryStepIsProved(p: Policy, states: seq<State>, events: seq<Event>)
    requires IsRun(p, states, events)
    ensures AllProved(p, states, events)
  {
    forall i | 0 <= i < |events| ensures IsProved(p, states[i], events[i], states[i + 1]) {
      RunKeepsWellFormed(p, states, events, i);
      StepIsProved(p, states[i], events[i], states[i + 1]);
    }
  }

  lemma {:induction false} PendingTokensWereIssued(p: Policy, states: seq<State>, events: seq<Event>, n: nat, t: Jwt)
    requires AllProved(p, states, events) && NoPendingTokens(states[0]) && n <= |events|
    requires t in states[n].signed && t.typ == PENDING_TYPE
    ensures exists i | 0 <= i < n :: PausedWith(p, states[i], events[i], t)
  {
    if n > 0 {
      if t in states[n - 1].signed {
        PendingTokensWereIssued(p, states, events, n - 1, t);
      } else {
        assert IsProved(p, states[n - 1], events[n - 1], states[n - 1 + 1]);
        assert SignsPending(states[n - 1], states[n], t);
        assert PausedWith(p, states[n - 1], events[n - 1], t);
      }
    }
  }

  /** The first event proved a primary factor of u while a real factor was enrolled, and the second began within five minutes of its end. */
  ghost predicate PausedInWindow(p: Policy, s: State, e: Event, next: Event, u: Id) {
    && ProvesPrimary(p, s, e, u)
    && HasRealFactor(s, u)
    && e.call.later <= next.call.at < e.call.later + PENDING_TTL
  }

  ghost predicate IsEarned(p: Policy, states: seq<State>, events: seq<Event>, j: nat, u: Id)
    requires |states| == |events| + 1 && j < |events|
  {
    || (ProvesPrimary(p, states[j], events[j], u) && !HasRealFactor(states[j], u))
    || (ProvesSecond(p, states[j], events[j], u) && exists i | 0 <= i < j :: PausedInWindow(p, states[i], events[i], events[j], u))
  }

  /**
   In every run, a session that event j creates for u follows a primary factor of u, on whichever path:
   at j itself, with no second factor enrolled; or within the five minutes before j, with one enrolled,
   and j proves a second factor of u.
   */
  lemma EverySessionIsEarned(p: Policy, states: seq<State>, events: seq<Event>, j: nat, id: Id)
    requires IsRun(p, states, events) && NoPendingTokens(states[0]) && j < |events|
    requires id in states[j + 1].sessions && id !in states[j].sessions
    ensures IsEarned(p, states, events, j, states[j + 1].sessions[id].userId)
  {
    EveryStepIsProved(p, states, events);
    CreatedIsEarned(p, states, events, j, states[j + 1].sessions[id].userId);
  }

  lemma CreatedIsEarned(p: Policy, states: seq<State>, events: seq<Event>, j: nat, u: Id)
    requires AllProved(p, states, events) && NoPendingTokens(states[0]) && Sequential(events) && j < |events|
    requires Creates(states[j], states[j + 1], u)
    ensures IsEarned(p, states, events, j, u)
  {
    assert IsProved(p, states[j], events[j], states[j + 1]);
    if ProvesSecond(p, states[j], events[j], u) {
      var t := events[j].action.pending;
      PendingTokensWereIssued(p, states, events, j, t);
      var i :| 0 <= i < j && PausedWith(p, states[i], events[i], t);
      WindowOf(events[i].call.later, events[j].call.at, t);
      assert PausedInWindow(p, states[i], events[i], events[j], u);
    }
  }

  lemma WindowOf(issued: Instant, now: Instant, t: Jwt)
    requires t == Issue(t.subject, issued) && now < t.expiresAt * SECOND
    ensures now < issued + PENDING_TTL
  {
    PendingLifetime({}, t.subject, issued, now);
    assert {} + {t} == {t};
  }
}
