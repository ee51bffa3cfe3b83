/** Recovery codes as second factors: what a sign-in spends, and how often one code signs in. */
module CodeLogins {
  import opened Wrappers
  import opened Sessions
  import opened AccountStores
  import opened Pending
  import RecoveryCodes
  import opened Login
  import opened Runs
  import opened Gate

  /** The hashes a user can still answer with, as often as each. */
  function UnusedOf(s: State, u: Id): multiset<Digest> {
    RecoveryCodes.Unused(RecoveryCodes.CodesOf(s.codes, u))
  }

  ghost predicate OthersKeepCodes(s: State, s': State, u: Id) {
    forall w | w != u :: RecoveryCodes.CodesOf(s'.codes, w) == RecoveryCodes.CodesOf(s.codes, w)
  }

  // ----- One step -----

  /** What an answer with a recovery code does to the codes, whatever becomes of the login afterwards. */
  lemma CodesAfterAnswer(p: Policy, s: State, e: Event)
    requires e.action.AnswerRecoveryCode?
    ensures var u := Verify(s.signed, e.action.pending, e.call.at);
      Next(p, s, e).codes ==
        if u.Some? && SpendsCode(s, e, u.value).Some? then SpendsCode(s, e, u.value).value else s.codes
  {
    hide FinishLogin;
    var u := Verify(s.signed, e.action.pending, e.call.at);
    if u.Some? && SpendsCode(s, e, u.value).Some? {
      var spent := s.(codes := SpendsCode(s, e, u.value).value);
      FinishKeepsCodes(p, spent, u.value, e.call);
    }
  }

  lemma FinishKeepsCodes(p: Policy, s: State, u: Id, c: Call)
    ensures FinishLogin(p, s, u, c).0.codes == s.codes
  {
  }

  lemma GateKeepsCodes(p: Policy, s: State, u: Id, c: Call)
    ensures CompletePrimaryAuth(p, s, u, c).0.codes == s.codes
  {
    hide FinishLogin;
    FinishKeepsCodes(p, s, u, c);
  }

  /**
   A code that proves the second factor is spent: one of its hash is gone from the user's unused codes, and nobody
   else's change. An answer that proves nothing spends nothing.
   */
  lemma ProvingSpends(p: Policy, s: State, e: Event, u: Id)
    requires e.action.AnswerRecoveryCode?
    ensures var (s', h) := (Next(p, s, e), RecoveryCodes.HashRecoveryCode(e.action.code));
      && (ProvesSecond(p, s, e, u) ==> UnusedOf(s', u) + multiset{h} == UnusedOf(s, u) && OthersKeepCodes(s, s', u))
      && ((forall w :: !ProvesSecond(p, s, e, w)) ==> s'.codes == s.codes)
  {
    hide Next, RecoveryCodes.Spend, RecoveryCodes.HashRecoveryCode;
    CodesAfterAnswer(p, s, e);
    RecoveryCodes.SpendTakesOne(RecoveryCodes.CodesOf(s.codes, u), RecoveryCodes.HashRecoveryCode(e.action.code), e.call.later);
    var v := Verify(s.signed, e.action.pending, e.call.at);
    if v.Some? && SpendsCode(s, e, v.value).Some? {
      assert ProvesSecond(p, s, e, v.value);
    }
  }

  /** Whoever a recovery code signs in has proved it, so the code is gone. */
  lemma SigningInSpends(p: Policy, s: State, e: Event)
    requires e.action.AnswerRecoveryCode? && Step(p, s, e).1.SignedIn?
    ensures var (u, h) := (e.action.pending.subject, RecoveryCodes.HashRecoveryCode(e.action.code));
      && UnusedOf(Next(p, s, e), u) + multiset{h} == UnusedOf(s, u)
      && OthersKeepCodes(s, Next(p, s, e), u)
  {
    hide FinishLogin, RecoveryCodes.HashRecoveryCode;
    ProvingSpends(p, s, e, e.action.pending.subject);
    var v := Verify(s.signed, e.action.pending, e.call.at);
    assert v.Some? && SpendsCode(s, e, v.value).Some?;
  }

  lemma PrimaryKeepsCodes(p: Policy, s: State, e: Event)
    requires e.action.Password? || e.action.FollowLink? || e.action.OAuth?
    ensures Next(p, s, e).codes == s.codes
  {
    hide PasswordLogin, CompleteMagicLink, LoginWithOAuth;
    match e.action
    case Password(email, password, allowed) => PasswordKeepsCodes(p, s, email, password, allowed, e.call);
    case FollowLink(raw) => LinkKeepsCodes(p, s, raw, e.call);
    case OAuth(provider, externalId, email) => OAuthKeepsCodes(p, s, provider, externalId, email, e.call);
  }

  lemma PasswordKeepsCodes(p: Policy, s: State, email: string, password: string, allowed: bool, c: Call)
    ensures PasswordLogin(p, s, email, password, allowed, c).0.codes == s.codes
  {
    hide CompletePrimaryAuth;
    var found := UserByEmail(s.users, email);
    if found.Some? {
      var u := found.value;
      GateKeepsCodes(p, s.(users := s.users[u.id := AfterSuccess(p, u, password, c)]), u.id, c);
    }
  }

  lemma LinkKeepsCodes(p: Policy, s: State, raw: string, c: Call)
    ensures CompleteMagicLink(p, s, raw, c).0.codes == s.codes
  {
    hide CompletePrimaryAuth;
    var found := TokenByHash(s.mailed, HashToken(raw));
    if found.Some? {
      var vt := found.value;
      var used := if vt.id in s.mailed then s.(mailed := s.mailed[vt.id := s.mailed[vt.id].(usedAt := Some(c.later))]) else s;
      GateKeepsCodes(p, used, vt.userId, c);
    }
  }

  lemma OAuthKeepsCodes(p: Policy, s: State, provider: string, externalId: string, email: string, c: Call)
    ensures LoginWithOAuth(p, s, provider, externalId, email, c).0.codes == s.codes
  {
    hide CompletePrimaryAuth;
    var found := IdentityOf(s.identities, provider, externalId);
    if found.Some? {
      GateKeepsCodes(p, s, found.value.userId, c);
    } else {
      GateKeepsCodes(p, s.(users := s.users[c.newId := User(c.newId, email, "", 0, None)],
                           identities := s.identities[c.newRow := OAuthIdentity(c.newRow, c.newId, provider, externalId)]), c.newId, c);
    }
  }

  lemma SecondKeepsCodes(p: Policy, s: State, e: Event)
    requires e.action.AnswerTOTP? || e.action.AnswerWebAuthn?
    ensures Next(p, s, e).codes == s.codes
  {
    hide FinishLogin;
    forall s0: State, u ensures FinishLogin(p, s0, u, e.call).0.codes == s0.codes {
      FinishKeepsCodes(p, s0, u, e.call);
    }
  }

  lemma EnrolmentKeepsCodes(p: Policy, s: State, e: Event)
    requires e.action.Enroll? || e.action.Confirm? || e.action.Disable? || e.action.AddPasskey? || e.action.RemovePasskey?
    ensures Next(p, s, e).codes == s.codes
  {
  }

  lemma AccountChangesKeepCodes(p: Policy, s: State, e: Event)
    requires e.action.AskForLink? || e.action.Register? || e.action.SetPassword? || e.action.Link?
    ensures Next(p, s, e).codes == s.codes
  {
  }

  /** No other operation touches any code. */
  lemma OnlyTwoTouchCodes(p: Policy, s: State, e: Event)
    requires !e.action.NewCodes? && !e.action.AnswerRecoveryCode?
    ensures Next(p, s, e).codes == s.codes
  {
    if e.action.Password? || e.action.FollowLink? || e.action.OAuth? {
      PrimaryKeepsCodes(p, s, e);
    } else if e.action.AnswerTOTP? || e.action.AnswerWebAuthn? {
      SecondKeepsCodes(p, s, e);
    } else if e.action.AskForLink? || e.action.Register? || e.action.SetPassword? || e.action.Link? {
      AccountChangesKeepCodes(p, s, e);
    } else {
      EnrolmentKeepsCodes(p, s, e);
    }
  }

  /** A new batch is given only beside a real factor, and replaces that user's codes and no other's. */
  lemma NewCodesReplace(p: Policy, s: State, e: Event)
    requires e.action.NewCodes?
    ensures var (u, s') := (e.action.user, Next(p, s, e));
      && (Step(p, s, e).1 == Done <==> HasConfirmedTOTP(s, u) || HasPasskey(s.passkeys, u))
      && (if Step(p, s, e).1 == Done then UnusedOf(s', u) == multiset(CodeHashes(e.action.bufs)) && OthersKeepCodes(s, s', u) else s' == s)
  {
    hide GenerateRecoveryCodes;
    BatchReplaces(s, e.action.user, e.action.bufs, e.call);
  }

  lemma BatchReplaces(s: State, u: Id, bufs: seq<seq<Byte>>, c: Call)
    ensures var (s', r) := GenerateRecoveryCodes(s, u, bufs, c);
      && (r == Done <==> HasConfirmedTOTP(s, u) || HasPasskey(s.passkeys, u))
      && (if r == Done then UnusedOf(s', u) == multiset(CodeHashes(bufs)) && OthersKeepCodes(s, s', u) else s' == s)
  {
    RecoveryCodes.FreshBatchIsUnused(CodeHashes(bufs), u, c.later);
  }

  // ----- Runs -----

  ghost predicate NewBatch(e: Event, u: Id) {
    e.action.NewCodes? && e.action.user == u
  }

  /** No hash is stored twice for the user. */
  ghost predicate Distinct(s: State, u: Id) {
    forall h :: UnusedOf(s, u)[h] <= 1
  }

  /** Every batch of the run is of distinct draws. */
  ghost predicate DistinctDraws(events: seq<Event>, u: Id) {
    forall i | 0 <= i < |events| && NewBatch(events[i], u) :: NoDuplicates(events[i].action.bufs)
  }

  /** Without a new batch no code becomes usable again. */
  lemma StepShrinks(p: Policy, s: State, e: Event, s': State, u: Id)
    requires Follows(p, s, e, s') && !NewBatch(e, u)
    ensures UnusedOf(s', u) <= UnusedOf(s, u)
  {
    hide Next, Step;
    if e.action.NewCodes? {
      NewCodesReplace(p, s, e);
    } else if e.action.AnswerRecoveryCode? {
      ProvingSpends(p, s, e, u);
      var v := Verify(s.signed, e.action.pending, e.call.at);
      if v.Some? {
        ProvingSpends(p, s, e, v.value);
      }
    } else {
      OnlyTwoTouchCodes(p, s, e);
    }
  }

  ghost predicate Shrinks(states: seq<State>, i: nat, j: nat, u: Id) {
    forall n | i <= n < j && n + 1 < |states| :: UnusedOf(states[n + 1], u) <= UnusedOf(states[n], u)
  }

  lemma {:induction false} UnusedShrinks(states: seq<State>, i: nat, j: nat, u: Id)
    requires i <= j < |states| && Shrinks(states, i, j, u)
    ensures UnusedOf(states[j], u) <= UnusedOf(states[i], u)
  {
    if i < j {
      UnusedShrinks(states, i, j - 1, u);
      assert UnusedOf(states[j - 1 + 1], u) <= UnusedOf(states[j - 1], u);
    }
  }

  lemma StepKeepsDistinct(p: Policy, s: State, e: Event, s': State, u: Id)
    requires Follows(p, s, e, s') && Distinct(s, u) && (NewBatch(e, u) ==> NoDuplicates(e.action.bufs))
    ensures Distinct(s', u)
  {
    hide Next, Step;
    if NewBatch(e, u) {
      NewCodesReplace(p, s, e);
      RecoveryCodes.CodesFromBytesAreDistinct(e.action.bufs);
      forall h ensures multiset(CodeHashes(e.action.bufs))[h] <= 1 {
        RecoveryCodes.DistinctOccurOnce(CodeHashes(e.action.bufs), h);
      }
    } else {
      StepShrinks(p, s, e, s', u);
    }
  }

  lemma {:induction false} RunKeepsDistinct(p: Policy, states: seq<State>, events: seq<Event>, u: Id, n: nat)
    requires IsRun(p, states, events) && n <= |events| && Distinct(states[0], u) && DistinctDraws(events, u)
    ensures Distinct(states[n], u)
  {
    hide Follows, WellFormedState, Fresh, Distinct;
    if n > 0 {
      RunKeepsDistinct(p, states, events, u, n - 1);
      StepKeepsDistinct(p, states[n - 1], events[n - 1], states[n], u);
    }
  }

  /**
   In every run in which a user's codes are distinct draws, a code that proved the user's second factor
   proves it no more until the user generates new codes.
   */
  lemma CodeWorksOnce(p: Policy, states: seq<State>, events: seq<Event>, i: nat, j: nat, u: Id)
    requires IsRun(p, states, events) && i < j < |events| && Distinct(states[0], u) && DistinctDraws(events, u)
    requires events[i].action.AnswerRecoveryCode? && ProvesSecond(p, states[i], events[i], u)
    requires events[j].action.AnswerRecoveryCode?
    requires RecoveryCodes.HashRecoveryCode(events[j].action.code) == RecoveryCodes.HashRecoveryCode(events[i].action.code)
    requires forall n | i < n < j :: !NewBatch(events[n], u)
    ensures !ProvesSecond(p, states[j], events[j], u)
  {
    hide WellFormedState, Fresh, Next, RecoveryCodes.HashRecoveryCode;
    var h := RecoveryCodes.HashRecoveryCode(events[i].action.code);
    RunKeepsDistinct(p, states, events, u, i);
    ProvingSpends(p, states[i], events[i], u);
    assert UnusedOf(states[i + 1], u)[h] == 0;
    forall n | i + 1 <= n < j ensures UnusedOf(states[n + 1], u) <= UnusedOf(states[n], u) {
      StepShrinks(p, states[n], events[n], states[n + 1], u);
    }
    UnusedShrinks(states, i + 1, j, u);
  }
}
