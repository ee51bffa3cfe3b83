/** The in-memory stores an account's sign-in reads and writes, one map each. */
module AccountStores {
  import opened Wrappers
  import opened Sessions

  // ----- Users -----

  datatype User = User(id: Id, email: string, passwordHash: string, failedAttempts: nat, lockedUntil: Option<Instant>)

  type Users = map<Id, User>

  /** The key is the id; email is UNIQUE. */
  ghost predicate UsersWellFormed(t: Users) {
    && (forall id | id in t :: t[id].id == id)
    && (forall i, j | i in t && j in t && t[i].email == t[j].email :: i == j)
  }

  ghost predicate HasEmail(t: Users, email: string) {
    exists id :: id in t && t[id].email == email
  }

  ghost function UserByEmail(t: Users, email: string): (r: Option<User>)
    ensures r.Some? <==> HasEmail(t, email)
    ensures r.Some? ==> r.value in t.Values && r.value.email == email
  {
    if HasEmail(t, email) then
      var id :| id in t && t[id].email == email;
      assert t[id] in t.Values;
      Some(t[id])
    else None
  }

  class UserStore {
    var byID: Users

    constructor (initial: Users)
      ensures byID == initial
    {
      byID := initial;
    }

    method Create(user: User)
      modifies this
      ensures byID == old(byID)[user.id := user]
    {
      byID := byID[user.id := user];
    }

    method GetByEmail(email: string) returns (r: Option<User>)
      requires UsersWellFormed(byID)
      ensures r == UserByEmail(byID, email)
    {
      var todo := byID.Keys;
      while todo != {}
        invariant todo <= byID.Keys
        invariant forall id | id in byID && id !in todo :: byID[id].email != email
      {
        var id :| id in todo;
        if byID[id].email == email {
          return Some(byID[id]);
        }
        todo := todo - {id};
      }
      return None;
    }

    method GetByID(id: Id) returns (r: Option<User>)
      ensures r == if id in byID then Some(byID[id]) else None
    {
      return if id in byID then Some(byID[id]) else None;
    }

    method UpdatePasswordHash(id: Id, newHash: string) returns (found: bool)
      modifies this
      ensures found <==> id in old(byID)
      ensures byID == if found then old(byID)[id := old(byID)[id].(passwordHash := newHash)] else old(byID)
    {
      if id !in byID {
        return false;
      }
      byID := byID[id := byID[id].(passwordHash := newHash)];
      return true;
    }

    method IncrementFailedAttempts(id: Id) returns (attempts: Option<nat>)
      modifies this
      ensures attempts == if id in old(byID) then Some(old(byID)[id].failedAttempts + 1) else None
      ensures byID == if id in old(byID) then old(byID)[id := old(byID)[id].(failedAttempts := attempts.value)] else old(byID)
    {
      if id !in byID {
        return None;
      }
      var u := byID[id];
      u := u.(failedAttempts := u.failedAttempts + 1);
      byID := byID[id := u];
      return Some(u.failedAttempts);
    }

    method ResetFailedAttempts(id: Id) returns (found: bool)
      modifies this
      ensures found <==> id in old(byID)
      ensures byID == if found then old(byID)[id := old(byID)[id].(failedAttempts := 0, lockedUntil := None)] else old(byID)
    {
      if id !in byID {
        return false;
      }
      byID := byID[id := byID[id].(failedAttempts := 0, lockedUntil := None)];
      return true;
    }

    method LockAccount(id: Id, until: Instant) returns (found: bool)
      modifies this
      ensures found <==> id in old(byID)
      ensures byID == if found then old(byID)[id := old(byID)[id].(lockedUntil := Some(until))] else old(byID)
    {
      if id !in byID {
        return false;
      }
      byID := byID[id := byID[id].(lockedUntil := Some(until))];
      return true;
    }
  }

  // ----- TOTP secrets -----

  datatype TOTPSecret = TOTPSecret(secret: string, confirmedAt: Option<Instant>)

  type Secrets = map<Id, TOTPSecret>

  class TOTPStore {
    var byID: Secrets

    constructor (initial: Secrets)
      ensures byID == initial
    {
      byID := initial;
    }

    /** Writing a secret clears any confirmation. */
    method Upsert(userID: Id, secret: string)
      modifies this
      ensures byID == old(byID)[userID := TOTPSecret(secret, None)]
    {
      byID := byID[userID := TOTPSecret(secret, None)];
    }

    method GetByUserID(userID: Id) returns (r: Option<TOTPSecret>)
      ensures r == if userID in byID then Some(byID[userID]) else None
    {
      return if userID in byID then Some(byID[userID]) else None;
    }

    method Confirm(userID: Id, now: Instant) returns (found: bool)
      modifies this
      ensures found <==> userID in old(byID)
      ensures byID == if found then old(byID)[userID := old(byID)[userID].(confirmedAt := Some(now))] else old(byID)
    {
      if userID !in byID {
        return false;
      }
      byID := byID[userID := byID[userID].(confirmedAt := Some(now))];
      return true;
    }

    method Delete(userID: Id) returns (found: bool)
      modifies this
      ensures found <==> userID in old(byID)
      ensures byID == if found then old(byID) - {userID} else old(byID)
    {
      if userID !in byID {
        return false;
      }
      byID := byID - {userID};
      return true;
    }
  }

  // ----- Passkeys -----

  datatype Passkey = Passkey(userId: Id, credentialId: string)

  type Passkeys = map<Id, Passkey>

  predicate HasPasskey(t: Passkeys, user: Id) {
    exists row | row in t :: t[row].userId == user
  }

  /** credential_id is UNIQUE. */
  ghost predicate PasskeysWellFormed(t: Passkeys) {
    forall i, j | i in t && j in t && t[i].credentialId == t[j].credentialId :: i == j
  }

  predicate IsCredential(k: Passkey, user: Id, credentialId: string) {
    k.userId == user && k.credentialId == credentialId
  }

  predicate HasCredential(t: Passkeys, user: Id, credentialId: string) {
    exists row | row in t :: IsCredential(t[row], user, credentialId)
  }

  function WithoutCredential(t: Passkeys, user: Id, credentialId: string): Passkeys {
    map row | row in t && !IsCredential(t[row], user, credentialId) :: t[row]
  }

  class WebAuthnStore {
    var byRow: Passkeys

    constructor (initial: Passkeys)
      ensures byRow == initial
    {
      byRow := initial;
    }

    method Add(id: Id, cred: Passkey)
      modifies this
      ensures byRow == old(byRow)[id := cred]
    {
      byRow := byRow[id := cred];
    }

    /** The user's credentials, in map order. */
    method ListByUser(userID: Id) returns (creds: seq<string>)
      ensures forall x :: x in creds <==> HasCredential(byRow, userID, x)
      ensures creds != [] <==> HasPasskey(byRow, userID)
    {
      creds := [];
      var todo := byRow.Keys;
      while todo != {}
        invariant todo <= byRow.Keys
        invariant forall row | row in byRow && row !in todo && byRow[row].userId == userID :: byRow[row].credentialId in creds
        invariant forall x | x in creds :: HasCredential(byRow, userID, x)
      {
        var row :| row in todo;
        if byRow[row].userId == userID {
          assert IsCredential(byRow[row], userID, byRow[row].credentialId);
          creds := creds + [byRow[row].credentialId];
        }
        todo := todo - {row};
      }
      if creds != [] {
        assert HasCredential(byRow, userID, creds[0]);
      }
    }

    method Delete(userID: Id, credentialID: string) returns (found: bool)
      requires PasskeysWellFormed(byRow)
      modifies this
      ensures found <==> HasCredential(old(byRow), userID, credentialID)
      ensures byRow == WithoutCredential(old(byRow), userID, credentialID)
    {
      var todo := byRow.Keys;
      while todo != {}
        invariant todo <= byRow.Keys && byRow == old(byRow)
        invariant forall row | row in byRow && row !in todo :: !IsCredential(byRow[row], userID, credentialID)
      {
        var row :| row in todo;
        if IsCredential(byRow[row], userID, credentialID) {
          byRow := byRow - {row};
          return true;
        }
        todo := todo - {row};
      }
      return false;
    }
  }

  // ----- Mailed tokens -----

  datatype Purpose = MagicLink | EmailChange

  datatype VerificationToken =
    VerificationToken(id: Id, userId: Id, purpose: Purpose, tokenHash: Digest, expiresAt: Instant, usedAt: Option<Instant>)

  type Verifications = map<Id, VerificationToken>

  /** The key is the id; token_hash is UNIQUE. */
  ghost predicate VerificationsWellFormed(t: Verifications) {
    && (forall id | id in t :: t[id].id == id)
    && (forall i, j | i in t && j in t && t[i].tokenHash == t[j].tokenHash :: i == j)
  }

  ghost predicate HasTokenHash(t: Verifications, h: Digest) {
    exists id :: id in t && t[id].tokenHash == h
  }

  ghost function TokenByHash(t: Verifications, h: Digest): (r: Option<VerificationToken>)
    ensures r.Some? <==> HasTokenHash(t, h)
    ensures r.Some? ==> r.value in t.Values && r.value.tokenHash == h
  {
    if HasTokenHash(t, h) then
      var id :| id in t && t[id].tokenHash == h;
      assert t[id] in t.Values;
      Some(t[id])
    else None
  }

  class VerificationStore {
    var byID: Verifications

    constructor (initial: Verifications)
      ensures byID == initial
    {
      byID := initial;
    }

    method Create(vt: VerificationToken)
      modifies this
      ensures byID == old(byID)[vt.id := vt]
    {
      byID := byID[vt.id := vt];
    }

    method GetByTokenHash(h: Digest) returns (r: Option<VerificationToken>)
      requires VerificationsWellFormed(byID)
      ensures r == TokenByHash(byID, h)
    {
      var todo := byID.Keys;
      while todo != {}
        invariant todo <= byID.Keys
        invariant forall id | id in byID && id !in todo :: byID[id].tokenHash != h
      {
        var id :| id in todo;
        if byID[id].tokenHash == h {
          return Some(byID[id]);
        }
        todo := todo - {id};
      }
      return None;
    }

    method MarkUsed(id: Id, now: Instant) returns (found: bool)
      modifies this
      ensures found <==> id in old(byID)
      ensures byID == if found then old(byID)[id := old(byID)[id].(usedAt := Some(now))] else old(byID)
    {
      if id !in byID {
        return false;
      }
      byID := byID[id := byID[id].(usedAt := Some(now))];
      return true;
    }
  }

  // ----- OAuth identities -----

  datatype OAuthIdentity = OAuthIdentity(id: Id, userId: Id, provider: string, externalId: string)

  type Identities = map<Id, OAuthIdentity>

  predicate IsIdentity(i: OAuthIdentity, provider: string, externalId: string) {
    i.provider == provider && i.externalId == externalId
  }

  /** (provider, external_id) is UNIQUE. */
  ghost predicate IdentitiesWellFormed(t: Identities) {
    forall i, j | i in t && j in t && IsIdentity(t[i], t[j].provider, t[j].externalId) :: i == j
  }

  ghost predicate HasIdentity(t: Identities, provider: string, externalId: string) {
    exists id :: id in t && IsIdentity(t[id], provider, externalId)
  }

  ghost function IdentityOf(t: Identities, provider: string, externalId: string): (r: Option<OAuthIdentity>)
    ensures r.Some? <==> HasIdentity(t, provider, externalId)
    ensures r.Some? ==> r.value in t.Values && IsIdentity(r.value, provider, externalId)
  {
    if HasIdentity(t, provider, externalId) then
      var id :| id in t && IsIdentity(t[id], provider, externalId);
      assert t[id] in t.Values;
      Some(t[id])
    else None
  }

  class OAuthStore {
    var byID: Identities

    constructor (initial: Identities)
      ensures byID == initial
    {
      byID := initial;
    }

    method Link(identity: OAuthIdentity)
      modifies this
      ensures byID == old(byID)[identity.id := identity]
    {
      byID := byID[identity.id := identity];
    }

    method GetByProviderID(provider: string, externalID: string) returns (r: Option<OAuthIdentity>)
      requires IdentitiesWellFormed(byID)
      ensures r == IdentityOf(byID, provider, externalID)
    {
      var todo := byID.Keys;
      while todo != {}
        invariant todo <= byID.Keys
        invariant forall id | id in byID && id !in todo :: !IsIdentity(byID[id], provider, externalID)
      {
        var id :| id in todo;
        if IsIdentity(byID[id], provider, externalID) {
          return Some(byID[id]);
        }
        todo := todo - {id};
      }
      return None;
    }
  }
}
