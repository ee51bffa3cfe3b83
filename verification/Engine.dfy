/** The sign-in operations carried out on the stores, each equal to its step of the state machine. */
module Engine {
  import opened Wrappers
  import opened Sessions
  import opened AccountStores
  import opened Pending
  import SignIn = Login
  import RecoveryCodes

  class Engine {
    const policy: SignIn.Policy
    const users: UserStore
    const secrets: TOTPStore
    const passkeys: WebAuthnStore
    const codes: RecoveryCodes.RecoveryCodeStore
    const mailed: VerificationStore
    const identities: OAuthStore
    const sessions: SqliteSessionStore
    var signed: set<Jwt>

    ghost function State(): SignIn.State
      reads this, users, secrets, passkeys, codes, mailed, identities, sessions
    {
      SignIn.State(users.byID, secrets.byID, passkeys.byRow, codes.byUserID, mailed.byID, identities.byID, sessions.rows, signed)
    }

    constructor (policy: SignIn.Policy, users: UserStore, secrets: TOTPStore, passkeys: WebAuthnStore,
                 codes: RecoveryCodes.RecoveryCodeStore, mailed: VerificationStore, identities: OAuthStore, sessions: SqliteSessionStore)
      ensures this.policy == policy && signed == {}
      ensures State() == SignIn.State(users.byID, secrets.byID, passkeys.byRow, codes.byUserID, mailed.byID, identities.byID, sessions.rows, {})
    {
      this.policy, this.users, this.secrets, this.passkeys := policy, users, secrets, passkeys;
      this.codes, this.mailed, this.identities, this.sessions := codes, mailed, identities, sessions;
      signed := {};
    }

    method FinishLogin(user: Id, c: SignIn.Call) returns (r: SignIn.Outcome)
      requires Sessions.WellFormed(sessions.rows)
      modifies this, sessions
      ensures (State(), r) == SignIn.FinishLogin(policy, old(State()), user, c)
    {
      var session := SignIn.NewSession(user, c);
      var access := AccessToken(user, c.later + policy.accessTTL);
      signed := signed + {access};
      var stored := sessions.Create(session, c.later);
      if stored.Err? {
        return SignIn.Refused(SignIn.SessionNotStored);
      }
      return SignIn.SignedIn(access, c.newRefresh);
    }

    method CompletePrimaryAuth(user: Id, c: SignIn.Call) returns (r: SignIn.Outcome)
      requires Sessions.WellFormed(sessions.rows)
      modifies this, sessions
      ensures (State(), r) == SignIn.CompletePrimaryAuth(policy, old(State()), user, c)
    {
      var methods: seq<SignIn.Method> := [];
      var hasRealSecondFactor := false;
      var secret := secrets.GetByUserID(user);
      if secret.Some? && secret.value.confirmedAt.Some? {
        hasRealSecondFactor := true;
        methods := methods + [SignIn.ByTOTP];
      }
      var keys := passkeys.ListByUser(user);
      if keys != [] {
        hasRealSecondFactor := true;
        methods := methods + [SignIn.ByPasskey];
      }
      if hasRealSecondFactor {
        var count := codes.CountUnused(user);
        if count > 0 {
          methods := methods + [SignIn.ByRecoveryCode];
        }
      }
      assert methods == SignIn.Methods(State(), user);
      if |methods| > 0 {
        var pending := Issue(user, c.later);
        signed := signed + {pending};
        return SignIn.SecondFactorRequired(pending, methods);
      }
      r := FinishLogin(user, c);
    }

    // ----- Primary factors -----

    method Login(email: string, password: string, allowed: bool, c: SignIn.Call) returns (r: SignIn.Outcome)
      requires SignIn.WellFormedState(State())
      modifies this, users, sessions
      ensures (State(), r) == SignIn.PasswordLogin(policy, old(State()), email, password, allowed, c)
    {
      if !allowed {
        return SignIn.Refused(SignIn.RateLimited);
      }
      var found := users.GetByEmail(email);
      if found.None? {
        return SignIn.Refused(SignIn.InvalidCredentials);
      }
      var user := found.value;
      assert users.byID[user.id] == user;
      if user.lockedUntil.Some? && c.at < user.lockedUntil.value {
        return SignIn.Refused(SignIn.AccountLocked);
      }
      if !policy.passwordMatches(user.passwordHash, password) {
        CountFailure(user, c);
        return SignIn.Refused(SignIn.InvalidCredentials);
      }
      var _ := users.ResetFailedAttempts(user.id);
      UpgradePasswordHash(user, password, c);
      assert users.byID == old(users.byID)[user.id := SignIn.AfterSuccess(policy, user, password, c)];
      r := CompletePrimaryAuth(user.id, c);
    }

    method CountFailure(user: User, c: SignIn.Call)
      requires user.id in users.byID && users.byID[user.id] == user
      modifies users
      ensures users.byID == old(users.byID)[user.id := SignIn.AfterFailure(policy, user, c)]
    {
      var attempts := users.IncrementFailedAttempts(user.id);
      if attempts.value >= policy.threshold {
        var _ := users.LockAccount(user.id, c.later + policy.lockout);
      }
    }

    method UpgradePasswordHash(user: User, password: string, c: SignIn.Call)
      requires user.id in users.byID && users.byID[user.id].passwordHash == user.passwordHash
      modifies users
      ensures users.byID ==
        old(users.byID)[user.id := old(users.byID)[user.id].(passwordHash := SignIn.CurrentHash(policy, user.passwordHash, password, c))]
    {
      if !policy.needsRehash(user.passwordHash) {
        return;
      }
      var newHash := policy.hash(password, c.newSalt);
      var _ := users.UpdatePasswordHash(user.id, newHash);
    }

    method RequestMagicLink(email: string, raw: string, allowed: bool, c: SignIn.Call) returns (r: SignIn.Outcome)
      requires SignIn.WellFormedState(State())
      modifies mailed
      ensures (State(), r) == SignIn.RequestMagicLink(old(State()), email, raw, allowed, c)
    {
      if !allowed {
        return SignIn.Refused(SignIn.RateLimited);
      }
      var found := users.GetByEmail(email);
      if found.None? {
        return SignIn.Done;
      }
      mailed.Create(VerificationToken(c.newId, found.value.id, MagicLink, HashToken(raw), c.later + SignIn.MAGIC_LINK_TTL, None));
      return SignIn.Done;
    }

    method CompleteMagicLink(raw: string, c: SignIn.Call) returns (r: SignIn.Outcome)
      requires SignIn.WellFormedState(State())
      modifies this, mailed, sessions
      ensures (State(), r) == SignIn.CompleteMagicLink(policy, old(State()), raw, c)
    {
      var found := mailed.GetByTokenHash(HashToken(raw));
      if found.None? {
        return SignIn.Refused(SignIn.TokenInvalid);
      }
      var vt := found.value;
      if vt.purpose != MagicLink {
        return SignIn.Refused(SignIn.TokenInvalid);
      }
      if vt.usedAt.Some? {
        return SignIn.Refused(SignIn.TokenInvalid);
      }
      if c.at > vt.expiresAt {
        return SignIn.Refused(SignIn.TokenExpired);
      }
      var _ := mailed.MarkUsed(vt.id, c.later);
      var user := users.GetByID(vt.userId);
      if user.None? {
        return SignIn.Refused(SignIn.NoSuchRow);
      }
      r := CompletePrimaryAuth(vt.userId, c);
    }

    method LoginWithOAuth(provider: string, externalID: string, email: string, c: SignIn.Call) returns (r: SignIn.Outcome)
      requires SignIn.WellFormedState(State())
      modifies this, users, identities, sessions
      ensures (State(), r) == SignIn.LoginWithOAuth(policy, old(State()), provider, externalID, email, c)
    {
      var identity := identities.GetByProviderID(provider, externalID);
      var owner: Id;
      if identity.Some? {
        owner := identity.value.userId;
      } else {
        var existing := users.GetByEmail(email);
        if existing.Some? {
          return SignIn.Refused(SignIn.OAuthEmailConflict);
        }
        users.Create(User(c.newId, email, "", 0, None));
        identities.Link(OAuthIdentity(c.newRow, c.newId, provider, externalID));
        owner := c.newId;
      }
      var user := users.GetByID(owner);
      if user.None? {
        return SignIn.Refused(SignIn.NoSuchRow);
      }
      r := CompletePrimaryAuth(owner, c);
    }

    // ----- Second factors -----

    method CompleteLoginWithTOTP(pending: Jwt, code: string, c: SignIn.Call) returns (r: SignIn.Outcome)
      requires SignIn.WellFormedState(State())
      modifies this, sessions
      ensures (State(), r) == SignIn.CompleteLoginWithTOTP(policy, old(State()), pending, code, c)
    {
      var subject := Verify(signed, pending, c.at);
      if subject.None? {
        return SignIn.Refused(SignIn.InvalidPendingLogin);
      }
      var user := users.GetByID(subject.value);
      if user.None? {
        return SignIn.Refused(SignIn.NoSuchRow);
      }
      var secret := secrets.GetByUserID(subject.value);
      if secret.None? || secret.value.confirmedAt.None? {
        return SignIn.Refused(SignIn.TOTPNotEnabled);
      }
      if !policy.totpMatches(secret.value.secret, code, c.later) {
        return SignIn.Refused(SignIn.InvalidTOTPCode);
      }
      r := FinishLogin(subject.value, c);
    }

    method CompleteLoginWithRecoveryCode(pending: Jwt, code: string, c: SignIn.Call) returns (r: SignIn.Outcome)
      requires SignIn.WellFormedState(State())
      modifies this, codes, sessions
      ensures (State(), r) == SignIn.CompleteLoginWithRecoveryCode(policy, old(State()), pending, code, c)
    {
      var subject := Verify(signed, pending, c.at);
      if subject.None? {
        return SignIn.Refused(SignIn.InvalidPendingLogin);
      }
      var consumed := codes.Consume(subject.value, RecoveryCodes.HashRecoveryCode(code), c.later);
      if !consumed {
        return SignIn.Refused(SignIn.InvalidRecoveryCode);
      }
      var user := users.GetByID(subject.value);
      if user.None? {
        return SignIn.Refused(SignIn.NoSuchRow);
      }
      r := FinishLogin(subject.value, c);
    }

    method CompleteLoginWithWebAuthn(pending: Jwt, ceremony: string, response: SignIn.Assertion, c: SignIn.Call) returns (r: SignIn.Outcome)
      requires SignIn.WellFormedState(State())
      modifies this, sessions
      ensures (State(), r) == SignIn.CompleteLoginWithWebAuthn(policy, old(State()), pending, ceremony, response, c)
    {
      var subject := Verify(signed, pending, c.at);
      if subject.None? {
        return SignIn.Refused(SignIn.InvalidPendingLogin);
      }
      var user := users.GetByID(subject.value);
      if user.None? {
        return SignIn.Refused(SignIn.NoSuchRow);
      }
      var credentials := passkeys.ListByUser(subject.value);
      if !policy.ceremonyOpens(ceremony) {
        return SignIn.Refused(SignIn.InvalidCeremonyToken);
      }
      if response.credentialId !in credentials || !policy.assertionVerifies(subject.value, ceremony, response) {
        return SignIn.Refused(SignIn.InvalidWebAuthnResponse);
      }
      r := FinishLogin(subject.value, c);
    }

    // ----- Enrolment -----

    method EnrollTOTP(user: Id, secret: string) returns (r: SignIn.Outcome)
      modifies secrets
      ensures (State(), r) == SignIn.EnrollTOTP(old(State()), user, secret)
    {
      var found := users.GetByID(user);
      if found.None? {
        return SignIn.Refused(SignIn.NoSuchRow);
      }
      var existing := secrets.GetByUserID(user);
      if existing.Some? && existing.value.confirmedAt.Some? {
        return SignIn.Refused(SignIn.TOTPAlreadyEnabled);
      }
      secrets.Upsert(user, secret);
      return SignIn.Done;
    }

    method ConfirmTOTP(user: Id, code: string, c: SignIn.Call) returns (r: SignIn.Outcome)
      modifies secrets
      ensures (State(), r) == SignIn.ConfirmTOTP(policy, old(State()), user, code, c)
    {
      var existing := secrets.GetByUserID(user);
      if existing.None? {
        return SignIn.Refused(SignIn.NoSuchRow);
      }
      if existing.value.confirmedAt.Some? {
        return SignIn.Refused(SignIn.TOTPAlreadyEnabled);
      }
      if !policy.totpMatches(existing.value.secret, code, c.at) {
        return SignIn.Refused(SignIn.InvalidTOTPCode);
      }
      var _ := secrets.Confirm(user, c.later);
      return SignIn.Done;
    }

    method DisableTOTP(user: Id, password: string) returns (r: SignIn.Outcome)
      modifies secrets
      ensures (State(), r) == SignIn.DisableTOTP(policy, old(State()), user, password)
    {
      var found := users.GetByID(user);
      if found.None? {
        return SignIn.Refused(SignIn.NoSuchRow);
      }
      if !policy.passwordMatches(found.value.passwordHash, password) {
        return SignIn.Refused(SignIn.InvalidCredentials);
      }
      var removed := secrets.Delete(user);
      if !removed {
        return SignIn.Refused(SignIn.NoSuchRow);
      }
      return SignIn.Done;
    }

    /** The raw codes are handed out once; only their hashes are kept. */
    method GenerateRecoveryCodes(user: Id, bufs: seq<seq<Byte>>, c: SignIn.Call) returns (r: SignIn.Outcome, raws: seq<string>)
      requires RecoveryCodes.IsDraw(bufs)
      modifies codes
      ensures (State(), r) == SignIn.GenerateRecoveryCodes(old(State()), user, bufs, c)
      ensures r.Done? ==> |raws| == |bufs| == 10 && forall i | 0 <= i < |bufs| :: |raws[i]| == 19 && RecoveryCodes.Spells(raws[i], RecoveryCodes.Hex(bufs[i]))
    {
      var hasSecondFactor := false;
      var secret := secrets.GetByUserID(user);
      if secret.Some? && secret.value.confirmedAt.Some? {
        hasSecondFactor := true;
      }
      if !hasSecondFactor {
        var keys := passkeys.ListByUser(user);
        hasSecondFactor := keys != [];
      }
      if !hasSecondFactor {
        return SignIn.Refused(SignIn.NoSecondFactorEnrolled), [];
      }
      var toStore: seq<RecoveryCodes.RecoveryCode>;
      raws, toStore := GenerateBatch(bufs);
      codes.ReplaceAll(user, toStore, c.later);
      r := SignIn.Done;
    }

    method GenerateBatch(bufs: seq<seq<Byte>>) returns (raws: seq<string>, toStore: seq<RecoveryCodes.RecoveryCode>)
      ensures |raws| == |bufs| && forall i | 0 <= i < |bufs| :: RecoveryCodes.Spells(raws[i], RecoveryCodes.Hex(bufs[i]))
      ensures forall i | 0 <= i < |bufs| && |bufs[i]| == 8 :: |raws[i]| == 19
      ensures RecoveryCodes.HashesOf(toStore) == SignIn.CodeHashes(bufs)
    {
      raws, toStore := [], [];
      for i := 0 to |bufs|
        invariant |raws| == i && |toStore| == i
        invariant forall k | 0 <= k < i :: RecoveryCodes.Spells(raws[k], RecoveryCodes.Hex(bufs[k]))
        invariant forall k | 0 <= k < i && |bufs[k]| == 8 :: |raws[k]| == 19
        invariant forall k | 0 <= k < i :: toStore[k].codeHash == HashToken(RecoveryCodes.Hex(bufs[k]))
      {
        var formatted := RecoveryCodes.GenerateRecoveryCode(bufs[i]);
        raws := raws + [formatted];
        toStore := toStore + [RecoveryCodes.RecoveryCode("", RecoveryCodes.HashRecoveryCode(formatted), 0, None)];
      }
      assert RecoveryCodes.HashesOf(toStore) == SignIn.CodeHashes(bufs);
    }
  }
}
