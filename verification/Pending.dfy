/** The token that says a primary factor was proved and a second one is awaited. */
module Pending {
  import opened Wrappers
  import opened Sessions

  const SECOND := 1_000_000_000
  const PENDING_TTL := 300 * SECOND

  /** A signed token by its claims. Expiry is a NumericDate: whole seconds, cut off, not rounded. */
  datatype Jwt = Jwt(typ: string, subject: Id, expiresAt: int)

  const PENDING_TYPE := "mfa_pending"

  function NumericDate(t: Instant): int {
    t / SECOND
  }

  function Issue(user: Id, now: Instant): Jwt {
    Jwt(PENDING_TYPE, user, NumericDate(now + PENDING_TTL))
  }

  /** An access token carries no "typ". */
  function AccessToken(user: Id, expiry: Instant): Jwt {
    Jwt("", user, NumericDate(expiry))
  }

  /** The signature is good exactly for what this secret has signed. */
  function Verify(signed: set<Jwt>, t: Jwt, now: Instant): Option<Id> {
    if t in signed && now < t.expiresAt * SECOND && t.typ == PENDING_TYPE then Some(t.subject) else None
  }

  /** A pending token names its user until five minutes have passed or the fraction of a second before, and never later. */
  lemma PendingLifetime(signed: set<Jwt>, user: Id, issued: Instant, now: Instant)
    ensures Verify(signed + {Issue(user, issued)}, Issue(user, issued), now)
      == if now < issued + 300_000_000_000 - issued % 1_000_000_000 then Some(user) else None
  {
    var t := Issue(user, issued);
    assert issued + PENDING_TTL == (issued / SECOND + 300) * SECOND + issued % SECOND;
    assert t.expiresAt == issued / SECOND + 300;
  }

  /** No access token is ever taken for a pending one, whoever it names and whenever it expires. */
  lemma AccessTokensAreRefused(signed: set<Jwt>, user: Id, expiry: Instant, now: Instant)
    ensures Verify(signed, AccessToken(user, expiry), now) == None
  {
    assert |PENDING_TYPE| != |""|;
  }
}
