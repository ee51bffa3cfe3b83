/** Password hashers, the dispatch over stored hashes, and the upgrade of hashes on login. */
module Hashers {
  import opened Wrappers
  import opened Text
  import opened Argon2

  /**
   The cryptography, as functions: the Argon2id derivation, bcrypt's hashing with a given salt,
   and what bcrypt reads back from one of its hashes.
   */
  datatype Crypto = Crypto(
    derive: (string, seq<Byte>, Params) -> seq<Byte>,
    bcrypt: (string, string, nat) -> string,
    bcryptCost: string -> Option<nat>,
    bcryptMatches: (string, string) -> bool)

  ghost predicate StandardCrypto(c: Crypto) {
    && (forall password, salt, p :: |c.derive(password, salt, p)| == p.keyLength)
    && (forall password, salt, cost: nat ::
          var h := c.bcrypt(password, salt, cost);
          "$2a$" <= h && c.bcryptCost(h) == Some(cost) && c.bcryptMatches(h, password))
    && (forall hash :: "$argon2id$" <= hash ==> c.bcryptCost(hash).None?)
  }

  datatype Hasher = Bcrypt(cost: nat) | Argon2id(params: Params)

  predicate Constructible(h: Hasher) {
    h.Argon2id? ==> InWidth(h.params) && Validates(h.params)
  }

  /** The random input of one Hash call. */
  datatype Salt = Salt(text: string, bytes: seq<Byte>)

  function Hash(c: Crypto, h: Hasher, password: string, salt: Salt): string
    requires StandardCrypto(c)
  {
    match h
    case Bcrypt(cost) => c.bcrypt(password, salt.text, cost)
    case Argon2id(p) => EncodeHash(p, salt.bytes, c.derive(password, salt.bytes, p))
  }

  /** The salt has the length the hasher asks rand.Read for. */
  predicate SaltFits(h: Hasher, salt: Salt) {
    h.Argon2id? ==> |salt.bytes| == h.params.saltLength
  }

  datatype Algorithm = AlgorithmBcrypt | AlgorithmArgon2id | AlgorithmUnknown

  function IdentifyHash(hash: string): Algorithm {
    if "$argon2id$" <= hash then AlgorithmArgon2id
    else if "$2a$" <= hash || "$2b$" <= hash || "$2x$" <= hash || "$2y$" <= hash then AlgorithmBcrypt
    else AlgorithmUnknown
  }

  /** Compare with one algorithm. */
  function CompareArgon2id(c: Crypto, hash: string, password: string): bool {
    match DecodeHash(hash)
    case Err(_) => false
    case Ok(d) => c.derive(password, d.salt, d.params) == d.key
  }

  function CompareWith(c: Crypto, h: Hasher, hash: string, password: string): bool {
    if h.Bcrypt? then c.bcryptMatches(hash, password) else CompareArgon2id(c, hash, password)
  }

  /** MultiHasher.Compare: the hash's own format decides, the primary only for an unknown one. */
  function Compare(c: Crypto, primary: Hasher, hash: string, password: string): bool {
    match IdentifyHash(hash)
    case AlgorithmBcrypt => c.bcryptMatches(hash, password)
    case AlgorithmArgon2id => CompareArgon2id(c, hash, password)
    case AlgorithmUnknown => CompareWith(c, primary, hash, password)
  }

  /** Whether the primary hasher would now write something stronger. */
  function NeedsRehash(c: Crypto, h: Hasher, hash: string): bool {
    match h
    case Bcrypt(cost) => (match c.bcryptCost(hash) case None => true case Some(was) => was < cost)
    case Argon2id(p) =>
      match DecodeHash(hash)
      case Err(_) => true
      case Ok(d) =>
        d.params.memory < p.memory || d.params.iterations < p.iterations
        || d.params.saltLength < p.saltLength || d.params.keyLength < p.keyLength
  }

  /** A PHC string begins with its algorithm between dollar signs. */
  lemma PartsPrefix(parts: seq<string>)
    requires |parts| > 2 && parts[0] == "" && parts[1] == "argon2id"
    ensures "$argon2id$" <= Join(parts, "$")
  {
    JoinOfSum(["", "argon2id"], parts[2..], "$");
    assert parts == ["", "argon2id"] + parts[2..];
    assert ["", "argon2id"][1..] == ["argon2id"];
    assert Join(["", "argon2id"], "$") == "" + "$" + "argon2id";
    assert "" + "$" + "argon2id" + "$" == "$argon2id$";
  }

  lemma EncodedHashPrefix(p: Params, salt: seq<Byte>, key: seq<Byte>)
    ensures "$argon2id$" <= EncodeHash(p, salt, key)
  {
    PartsPrefix(HashParts(p, salt, key));
  }

  /** Nothing else decodes. */
  lemma DecodedHashPrefix(hash: string)
    requires DecodeHash(hash).Ok?
    ensures "$argon2id$" <= hash
  {
    JoinOfSplit(hash, '$');
    PartsPrefix(Split(hash, '$'));
  }

  lemma WrittenHashDecodes(c: Crypto, h: Hasher, password: string, salt: Salt)
    requires StandardCrypto(c) && Constructible(h) && SaltFits(h, salt) && h.Argon2id?
    ensures DecodeHash(Hash(c, h, password, salt)) == Ok(Decoded(h.params, salt.bytes, c.derive(password, salt.bytes, h.params)))
  {
    RoundTrip(h.params, salt.bytes, c.derive(password, salt.bytes, h.params));
  }

  /** A hash names the algorithm that wrote it. */
  lemma WrittenHashIsIdentified(c: Crypto, h: Hasher, password: string, salt: Salt)
    requires StandardCrypto(c)
    ensures IdentifyHash(Hash(c, h, password, salt)) == if h.Bcrypt? then AlgorithmBcrypt else AlgorithmArgon2id
  {
    var hash := Hash(c, h, password, salt);
    if h.Argon2id? {
      EncodedHashPrefix(h.params, salt.bytes, c.derive(password, salt.bytes, h.params));
    } else {
      assert "$2a$" <= hash;
      assert hash[1] == "$2a$"[1] == '2';
      assert "$argon2id$"[1] == 'a';
    }
  }

  /** Whichever hasher is primary, a hash either algorithm wrote verifies its password. */
  lemma EveryWrittenHashVerifies(c: Crypto, writer: Hasher, primary: Hasher, password: string, salt: Salt)
    requires StandardCrypto(c) && Constructible(writer) && SaltFits(writer, salt)
    ensures Compare(c, primary, Hash(c, writer, password, salt), password)
  {
    WrittenHashIsIdentified(c, writer, password, salt);
    if writer.Argon2id? {
      WrittenHashDecodes(c, writer, password, salt);
    }
  }

  /**
   Whichever hasher is primary, a written hash accepts a guess exactly when its own algorithm takes the guess
   for the password: when the derived key is the same, or bcrypt says so.
   */
  lemma WrittenHashDecides(c: Crypto, writer: Hasher, primary: Hasher, password: string, salt: Salt, guess: string)
    requires StandardCrypto(c) && Constructible(writer) && SaltFits(writer, salt)
    ensures Compare(c, primary, Hash(c, writer, password, salt), guess) <==>
      if writer.Argon2id? then c.derive(guess, salt.bytes, writer.params) == c.derive(password, salt.bytes, writer.params)
      else c.bcryptMatches(Hash(c, writer, password, salt), guess)
  {
    WrittenHashIsIdentified(c, writer, password, salt);
    if writer.Argon2id? {
      WrittenHashDecodes(c, writer, password, salt);
    }
  }

  /** A hash with any other parameters, imported or written under older ones, is checked under those. */
  lemma ImportedHashDecides(c: Crypto, primary: Hasher, p: Params, salt: seq<Byte>, key: seq<Byte>, guess: string)
    requires InWidth(p) && |salt| <= MAX_UINT32 && |key| <= MAX_UINT32
    ensures Compare(c, primary, EncodeHash(p, salt, key), guess) <==>
      Usable(p) && salt != [] && key != [] && c.derive(guess, salt, p.(saltLength := |salt|, keyLength := |key|)) == key
  {
    DecodeOfEncodeHash(p, salt, key);
    EncodedHashPrefix(p, salt, key);
  }

  /** The algorithm is read off the first characters: one PHC name, or bcrypt's four versions. */
  lemma AlgorithmIs(hash: string)
    ensures IdentifyHash(hash) == AlgorithmArgon2id <==> exists rest :: hash == "$argon2id$" + rest
    ensures IdentifyHash(hash) == AlgorithmBcrypt <==>
      |hash| >= 4 && hash[0] == '$' && hash[1] == '2' && hash[2] in {'a', 'b', 'x', 'y'} && hash[3] == '$'
  {
    if "$argon2id$" <= hash {
      assert hash == "$argon2id$" + hash[10..];
      assert hash[1] == "$argon2id$"[1] == 'a';
    }
    if |hash| >= 4 {
      assert hash[..4] == [hash[0], hash[1], hash[2], hash[3]];
    }
  }

  /** The hasher is asked only about a format of neither kind; a text that says Argon2id and does not decode is refused. */
  lemma RecognisedNeedsNoPrimary(c: Crypto, primary: Hasher, other: Hasher, hash: string, guess: string)
    ensures IdentifyHash(hash) != AlgorithmUnknown ==> Compare(c, primary, hash, guess) == Compare(c, other, hash, guess)
    ensures "$argon2id$" <= hash && DecodeHash(hash).Err? ==> !Compare(c, primary, hash, guess)
    ensures IdentifyHash(hash) == AlgorithmUnknown ==>
      Compare(c, primary, hash, guess) == (primary.Bcrypt? && c.bcryptMatches(hash, guess))
  {
    if IdentifyHash(hash) == AlgorithmUnknown && DecodeHash(hash).Ok? {
      DecodedHashPrefix(hash);
      assert false;
    }
  }

  /** One hasher writes weaker hashes than another: another algorithm, or a smaller cost of any kind. */
  predicate WeakerThan(writer: Hasher, h: Hasher) {
    match (writer, h)
    case (Bcrypt(was), Bcrypt(cost)) => was < cost
    case (Argon2id(was), Argon2id(p)) => !AtLeast(was, p)
    case _ => true
  }

  /** The lanes of Argon2id are no strength. */
  predicate AtLeast(p: Params, q: Params) {
    p.memory >= q.memory && p.iterations >= q.iterations && p.saltLength >= q.saltLength && p.keyLength >= q.keyLength
  }

  /** A written hash is out of date for a hasher exactly when its writer is the weaker: a stronger hash is left alone. */
  lemma StaleIffWeaker(c: Crypto, writer: Hasher, h: Hasher, password: string, salt: Salt)
    requires StandardCrypto(c) && Constructible(writer) && SaltFits(writer, salt)
    ensures NeedsRehash(c, h, Hash(c, writer, password, salt)) <==> WeakerThan(writer, h)
  {
    hide EncodeHash, DecodeHash;
    var hash := Hash(c, writer, password, salt);
    if writer.Argon2id? {
      WrittenHashDecodes(c, writer, password, salt);
      EncodedHashPrefix(writer.params, salt.bytes, c.derive(password, salt.bytes, writer.params));
    } else if h.Argon2id? {
      assert hash[1] == "$2a$"[1] == '2' && "$argon2id$"[1] == 'a';
      OtherKindsAreStale(c, h, hash);
    }
  }

  /** To an Argon2id hasher every hash of another kind is out of date. */
  lemma OtherKindsAreStale(c: Crypto, h: Hasher, hash: string)
    requires h.Argon2id? && !("$argon2id$" <= hash)
    ensures NeedsRehash(c, h, hash)
  {
    if DecodeHash(hash).Ok? {
      DecodedHashPrefix(hash);
      assert false;
    }
  }

  /** A hash the hasher has just written is not out of date for it. */
  lemma FreshHashIsCurrent(c: Crypto, h: Hasher, password: string, salt: Salt)
    requires StandardCrypto(c) && Constructible(h) && SaltFits(h, salt)
    ensures !NeedsRehash(c, h, Hash(c, h, password, salt))
  {
    StaleIffWeaker(c, h, h, password, salt);
  }

  // ----- Upgrade on login -----

  type User = string

  datatype Upgrade = Upgrade(user: User, from: Algorithm, to: Algorithm)

  /** Which of the calls behind a rewrite go through: hashing, storing, recording. */
  datatype Fate = Fate(hashed: bool, stored: bool, recorded: bool)

  /** The password column, the upgrades made so far, and the upgrade events of the audit log. */
  datatype Accounts = Accounts(hashes: map<User, string>, made: seq<Upgrade>, recorded: seq<Upgrade>)

  function Upgraded(c: Crypto, h: Hasher, a: Accounts, user: User, password: string, salt: Salt, fate: Fate): Accounts
    requires StandardCrypto(c) && user in a.hashes
  {
    if NeedsRehash(c, h, a.hashes[user]) && fate.hashed && fate.stored then
      var hash := Hash(c, h, password, salt);
      var u := Upgrade(user, IdentifyHash(a.hashes[user]), IdentifyHash(hash));
      Accounts(a.hashes[user := hash], a.made + [u], if fate.recorded then a.recorded + [u] else a.recorded)
    else a
  }

  class UserPasswords {
    var hashes: map<User, string>
    ghost var made: seq<Upgrade>
    var recorded: seq<Upgrade>

    ghost function Contents(): Accounts
      reads this
    {
      Accounts(hashes, made, recorded)
    }

    constructor (initial: map<User, string>)
      ensures Contents() == Accounts(initial, [], [])
    {
      hashes, made, recorded := initial, [], [];
    }

    /** upgradePasswordHash, after Compare succeeded for this user; a failure leaves the old hash for the next login. */
    method UpgradePasswordHash(c: Crypto, h: Hasher, user: User, password: string, salt: Salt, fate: Fate)
      requires StandardCrypto(c) && user in hashes
      modifies this
      ensures Contents() == old(Upgraded(c, h, Contents(), user, password, salt, fate))
    {
      var current := hashes[user];
      if !NeedsRehash(c, h, current) {
        return;
      }
      if !fate.hashed {
        return;
      }
      var newHash := Hash(c, h, password, salt);
      if !fate.stored {
        return;
      }
      hashes := hashes[user := newHash];
      var from, to := IdentifyHash(current), IdentifyHash(newHash);
      made := made + [Upgrade(user, from, to)];
      if fate.recorded {
        recorded := recorded + [Upgrade(user, from, to)];
      }
    }
  }

  /** A password login attempt, or a password change by someone who proved the current password. */
  datatype Event =
    | Login(user: User, password: string, salt: Salt, fate: Fate)
    | ChangePassword(owner: User, newPassword: string, newSalt: Salt, changed: Fate)

  function EventSalt(e: Event): Salt {
    if e.Login? then e.salt else e.newSalt
  }

  function Next(c: Crypto, h: Hasher, a: Accounts, e: Event): Accounts
    requires StandardCrypto(c)
  {
    match e
    case Login(u, password, salt, fate) =>
      if u in a.hashes && Compare(c, h, a.hashes[u], password) then Upgraded(c, h, a, u, password, salt, fate) else a
    case ChangePassword(u, password, salt, fate) =>
      if u in a.hashes && fate.hashed && fate.stored then a.(hashes := a.hashes[u := Hash(c, h, password, salt)]) else a
  }

  function Run(c: Crypto, h: Hasher, a: Accounts, events: seq<Event>): Accounts
    requires StandardCrypto(c)
    decreases |events|
  {
    if events == [] then a else Run(c, h, Next(c, h, a, events[0]), events[1..])
  }

  function UpgradesOf(a: Accounts, user: User): nat {
    CountUpgrades(a.made, user)
  }

  function CountUpgrades(upgrades: seq<Upgrade>, user: User): nat {
    if upgrades == [] then 0
    else CountUpgrades(upgrades[..|upgrades| - 1], user) + if upgrades[|upgrades| - 1].user == user then 1 else 0
  }

  lemma CountAppended(upgrades: seq<Upgrade>, u: Upgrade, user: User)
    ensures CountUpgrades(upgrades + [u], user) == CountUpgrades(upgrades, user) + if u.user == user then 1 else 0
  {
    assert (upgrades + [u])[..|upgrades|] == upgrades;
  }

  /** One event upgrades an account only if its hash was out of date, and leaves no hash newly out of date. */
  lemma StepConverges(c: Crypto, h: Hasher, a: Accounts, e: Event, user: User)
    requires StandardCrypto(c) && Constructible(h) && SaltFits(h, EventSalt(e)) && user in a.hashes
    ensures var a' := Next(c, h, a, e);
      && user in a'.hashes
      && (UpgradesOf(a', user) == UpgradesOf(a, user)
          || (UpgradesOf(a', user) == UpgradesOf(a, user) + 1 && NeedsRehash(c, h, a.hashes[user]) && !NeedsRehash(c, h, a'.hashes[user])))
      && (NeedsRehash(c, h, a'.hashes[user]) ==> NeedsRehash(c, h, a.hashes[user]))
  {
    var a' := Next(c, h, a, e);
    if a' != a {
      match e
      case Login(u, password, salt, _) =>
        var hash := Hash(c, h, password, salt);
        assert !NeedsRehash(c, h, hash) by {
          FreshHashIsCurrent(c, h, password, salt);
        }
        CountAppended(a.made, Upgrade(u, IdentifyHash(a.hashes[u]), IdentifyHash(hash)), user);
      case ChangePassword(u, password, salt, _) =>
        assert !NeedsRehash(c, h, Hash(c, h, password, salt)) by {
          FreshHashIsCurrent(c, h, password, salt);
        }
    }
  }

  /** Under one fixed hasher, any run upgrades an account at most once, and only if its hash was out of date. */
  lemma {:induction false} AtMostOneUpgrade(c: Crypto, h: Hasher, a: Accounts, events: seq<Event>, user: User)
    requires StandardCrypto(c) && Constructible(h) && forall i | 0 <= i < |events| :: SaltFits(h, EventSalt(events[i]))
    requires user in a.hashes
    ensures UpgradesOf(a, user) <= UpgradesOf(Run(c, h, a, events), user) <= UpgradesOf(a, user) + if NeedsRehash(c, h, a.hashes[user]) then 1 else 0
    decreases |events|
  {
    if events != [] {
      StepConverges(c, h, a, events[0], user);
      AtMostOneUpgrade(c, h, Next(c, h, a, events[0]), events[1..], user);
    }
  }

  lemma StepRecordsWhatItMakes(c: Crypto, h: Hasher, a: Accounts, e: Event, user: User)
    requires StandardCrypto(c)
    ensures var a' := Next(c, h, a, e);
      CountUpgrades(a'.recorded, user) - CountUpgrades(a.recorded, user) <= UpgradesOf(a', user) - UpgradesOf(a, user)
  {
    hide Hash, NeedsRehash, Compare, IdentifyHash, StandardCrypto, CountUpgrades;
    var a' := Next(c, h, a, e);
    if e.Login? && a'.made != a.made {
      var u := a'.made[|a.made|];
      assert a'.made == a.made + [u];
      CountAppended(a.made, u, user);
      CountAppended(a.recorded, u, user);
    }
  }

  /** The audit log never counts more upgrades than were made. */
  lemma {:induction false} RecordedWereMade(c: Crypto, h: Hasher, a: Accounts, events: seq<Event>, user: User)
    requires StandardCrypto(c) && CountUpgrades(a.recorded, user) <= UpgradesOf(a, user)
    ensures var a' := Run(c, h, a, events); CountUpgrades(a'.recorded, user) <= UpgradesOf(a', user)
    decreases |events|
  {
    hide Next, StandardCrypto;
    if events != [] {
      StepRecordsWhatItMakes(c, h, a, events[0], user);
      RecordedWereMade(c, h, Next(c, h, a, events[0]), events[1..], user);
    }
  }

  /** A rewrite that goes through is recorded from the old hash's algorithm to the hasher's own, and touches no other account. */
  lemma UpgradeIsRecorded(c: Crypto, h: Hasher, a: Accounts, user: User, password: string, salt: Salt, fate: Fate)
    requires StandardCrypto(c) && Constructible(h) && SaltFits(h, salt)
    requires user in a.hashes && Compare(c, h, a.hashes[user], password)
    ensures var a' := Next(c, h, a, Login(user, password, salt, fate));
      && a'.hashes - {user} == a.hashes - {user}
      && a'.recorded == a.recorded +
           if NeedsRehash(c, h, a.hashes[user]) && fate.hashed && fate.stored && fate.recorded
           then [Upgrade(user, IdentifyHash(a.hashes[user]), if h.Bcrypt? then AlgorithmBcrypt else AlgorithmArgon2id)] else []
  {
    hide IdentifyHash, NeedsRehash, Hash, Compare;
    WrittenHashIsIdentified(c, h, password, salt);
    assert a.recorded + [] == a.recorded;
  }

  /** A successful login leaves the hash verifying the password, and leaves it current unless it was not and the rewrite failed. */
  lemma LoginLeavesHashCurrent(c: Crypto, h: Hasher, a: Accounts, user: User, password: string, salt: Salt, fate: Fate)
    requires StandardCrypto(c) && Constructible(h) && SaltFits(h, salt)
    requires user in a.hashes && Compare(c, h, a.hashes[user], password)
    ensures var a' := Next(c, h, a, Login(user, password, salt, fate));
      && Compare(c, h, a'.hashes[user], password)
      && (NeedsRehash(c, h, a'.hashes[user]) <==> NeedsRehash(c, h, a.hashes[user]) && !(fate.hashed && fate.stored))
  {
    FreshHashIsCurrent(c, h, password, salt);
    EveryWrittenHashVerifies(c, h, h, password, salt);
  }
}
