/** Recovery codes: how they are written and read back, and the store that spends them one by one. */
module RecoveryCodes {
  import opened Wrappers
  import opened Text
  import opened Sessions

  // ----- The text of a code -----

  const CODE_COUNT := 10
  const CODE_BYTES := 8

  /** The random bytes one generation draws. */
  predicate IsDraw(bufs: seq<seq<Byte>>) {
    |bufs| == CODE_COUNT && forall i | 0 <= i < |bufs| :: |bufs[i]| == CODE_BYTES
  }

  predicate IsHexDigit(c: char) {
    '0' <= c <= '9' || 'a' <= c <= 'f'
  }

  predicate AllHex(s: string) {
    forall i | 0 <= i < |s| :: IsHexDigit(s[i])
  }

  function HexDigit(n: nat): (c: char)
    requires n < 16
    ensures IsHexDigit(c)
  {
    if n < 10 then '0' + n as char else 'a' + (n - 10) as char
  }

  /** hex.EncodeToString: two digits a byte. */
  function Hex(buf: seq<Byte>): (s: string)
    ensures |s| == 2 * |buf| && AllHex(s)
  {
    if buf == [] then "" else [HexDigit(buf[0] / 16), HexDigit(buf[0] % 16)] + Hex(buf[1..])
  }

  /** Each byte's upper half, then its lower. */
  lemma {:induction false} HexIs(buf: seq<Byte>, i: nat)
    requires i < |buf|
    ensures Hex(buf)[2 * i] == "0123456789abcdef"[buf[i] / 16] && Hex(buf)[2 * i + 1] == "0123456789abcdef"[buf[i] % 16]
  {
    HexDigits(buf[i] / 16);
    HexDigits(buf[i] % 16);
    if i > 0 {
      HexIs(buf[1..], i - 1);
      assert Hex(buf)[2..] == Hex(buf[1..]);
    }
  }

  lemma HexDigits(n: nat)
    requires n < 16
    ensures HexDigit(n) == "0123456789abcdef"[n]
  {
  }

  lemma {:induction false} HexIsInjective(a: seq<Byte>, b: seq<Byte>)
    requires Hex(a) == Hex(b)
    ensures a == b
  {
    if a != [] && b != [] {
      assert Hex(a)[0] == Hex(b)[0] && Hex(a)[1] == Hex(b)[1];
      assert Hex(a)[2..] == Hex(a[1..]) && Hex(b)[2..] == Hex(b[1..]);
      HexIsInjective(a[1..], b[1..]);
      assert a == [a[0]] + a[1..] && b == [b[0]] + b[1..];
    }
  }

  predicate AllSpace(s: string) {
    forall i | 0 <= i < |s| :: IsSpace(s[i])
  }

  function TrimLeft(s: string): string {
    if s != "" && IsSpace(s[0]) then TrimLeft(s[1..]) else s
  }

  function TrimRight(s: string): string {
    if s != "" && IsSpace(s[|s| - 1]) then TrimRight(s[..|s| - 1]) else s
  }

  /** strings.ToLower, then every dash removed. */
  function LoweredWithoutDashes(s: string): string {
    if s == "" then "" else (if s[0] == '-' then "" else [ToLower(s[0])]) + LoweredWithoutDashes(s[1..])
  }

  function Normalised(raw: string): string {
    LoweredWithoutDashes(TrimRight(TrimLeft(raw)))
  }

  function HashRecoveryCode(raw: string): Digest {
    HashToken(Normalised(raw))
  }

  /** What was typed spells the digits in either case, with dashes anywhere. */
  predicate Spells(typed: string, digits: string) {
    if typed == "" then digits == ""
    else if typed[0] == '-' then Spells(typed[1..], digits)
    else digits != "" && ToLower(typed[0]) == digits[0] && Spells(typed[1..], digits[1..])
  }

  lemma {:induction false} SpellingIsLowering(typed: string, digits: string)
    requires AllHex(digits)
    ensures Spells(typed, digits) <==> LoweredWithoutDashes(typed) == digits
  {
    if typed != "" {
      if typed[0] == '-' {
        SpellingIsLowering(typed[1..], digits);
      } else if digits != "" {
        SpellingIsLowering(typed[1..], digits[1..]);
        assert digits == [digits[0]] + digits[1..];
        var lowered := LoweredWithoutDashes(typed);
        assert lowered[0] == ToLower(typed[0]) && lowered[1..] == LoweredWithoutDashes(typed[1..]);
      }
    }
  }

  lemma {:induction false} SpelledHasNoSpace(typed: string, digits: string)
    requires AllHex(digits) && Spells(typed, digits)
    ensures forall i | 0 <= i < |typed| :: !IsSpace(typed[i])
  {
    if typed != "" {
      if typed[0] == '-' {
        SpelledHasNoSpace(typed[1..], digits);
      } else {
        assert IsHexDigit(ToLower(typed[0]));
        SpelledHasNoSpace(typed[1..], digits[1..]);
      }
      assert forall i | 0 < i < |typed| :: typed[i] == typed[1..][i - 1];
    }
  }

  lemma {:induction false} TrimLeftOf(before: string, rest: string)
    requires AllSpace(before)
    ensures TrimLeft(before + rest) == TrimLeft(rest)
  {
    if before == "" {
      assert before + rest == rest;
    } else {
      assert (before + rest)[1..] == before[1..] + rest;
      TrimLeftOf(before[1..], rest);
    }
  }

  lemma {:induction false} TrimRightOf(rest: string, after: string)
    requires AllSpace(after)
    ensures TrimRight(rest + after) == TrimRight(rest)
  {
    if after == "" {
      assert rest + after == rest;
    } else {
      assert (rest + after)[..|rest + after| - 1] == rest + after[..|after| - 1];
      TrimRightOf(rest, after[..|after| - 1]);
    }
  }

  lemma TrimmedIsCore(before: string, core: string, after: string)
    requires AllSpace(before) && AllSpace(after) && forall i | 0 <= i < |core| :: !IsSpace(core[i])
    ensures TrimRight(TrimLeft(before + core + after)) == core
  {
    assert before + core + after == before + (core + after);
    TrimLeftOf(before, core + after);
    if core == "" {
      TrimLeftOf(after, "");
      assert core + after == after == after + "";
    } else {
      assert TrimLeft(core + after) == core + after;
      TrimRightOf(core, after);
    }
  }

  /** However a code is retyped, dashes, case and outer white space included, the same digits are hashed. */
  lemma RetypedCodeReadsBack(before: string, typed: string, after: string, digits: string)
    requires AllHex(digits) && AllSpace(before) && AllSpace(after) && Spells(typed, digits)
    ensures Normalised(before + typed + after) == digits
    ensures HashRecoveryCode(before + typed + after) == HashToken(digits)
  {
    SpelledHasNoSpace(typed, digits);
    TrimmedIsCore(before, typed, after);
    SpellingIsLowering(typed, digits);
  }

  /** Nothing else hashes to those digits: once trimmed, it must spell them. */
  lemma OnlySpellingsMatch(raw: string, digits: string)
    requires AllHex(digits)
    ensures HashRecoveryCode(raw) == HashToken(digits) <==> Spells(TrimRight(TrimLeft(raw)), digits)
  {
    SpellingIsLowering(TrimRight(TrimLeft(raw)), digits);
  }

  lemma {:induction false} SpellingsJoin(a: string, b: string, x: string, y: string)
    requires Spells(a, x) && Spells(b, y)
    ensures Spells(a + b, x + y)
  {
    if a == "" {
      assert a + b == b && x + y == y;
    } else {
      assert (a + b)[1..] == a[1..] + b;
      if a[0] == '-' {
        SpellingsJoin(a[1..], b, x, y);
      } else {
        SpellingsJoin(a[1..], b, x[1..], y);
        assert (x + y)[1..] == x[1..] + y;
      }
    }
  }

  lemma {:induction false} DigitsSpellThemselves(digits: string)
    requires AllHex(digits)
    ensures Spells(digits, digits)
  {
    if digits != "" {
      assert IsHexDigit(digits[0]);
      DigitsSpellThemselves(digits[1..]);
    }
  }

  lemma JoinOfMore(groups: seq<string>, last: string, sep: string)
    requires groups != []
    ensures Join(groups + [last], sep) == Join(groups, sep) + sep + last
  {
    JoinOfSum(groups, [last], sep);
  }

  /** Groups of four behind dashes, the last one shorter when the length is no multiple of four. */
  ghost predicate InFours(groups: seq<string>) {
    forall i | 0 <= i < |groups| :: 1 <= |groups[i]| <= 4 && (i + 1 < |groups| ==> |groups[i]| == 4)
  }

  /** One more group of digits, behind a dash unless it is the first. */
  lemma NextGroupSpells(parts: seq<string>, digits: string, i: nat, end: nat)
    requires AllHex(digits) && i < end <= |digits| && (parts == [] <==> i == 0) && Spells(Join(parts, "-"), digits[..i])
    ensures Spells(Join(parts + [digits[i..end]], "-"), digits[..end])
    ensures |Join(parts + [digits[i..end]], "-")| == |Join(parts, "-")| + (if parts == [] then 0 else 1) + end - i
  {
    var part := digits[i..end];
    DigitsSpellThemselves(part);
    if parts == [] {
      assert digits[..end] == part && [] + [part] == [part];
    } else {
      JoinOfMore(parts, part, "-");
      assert Spells("-" + part, part) by {
        assert ("-" + part)[1..] == part;
      }
      SpellingsJoin(Join(parts, "-"), "-" + part, digits[..i], part);
      assert Join(parts, "-") + "-" + part == Join(parts, "-") + ("-" + part);
      assert digits[..i] + part == digits[..end];
    }
  }

  /** The grouping loop of generateRecoveryCode, for digits of any length. */
  method GroupDigits(digits: string) returns (code: string, ghost groups: seq<string>)
    requires AllHex(digits)
    ensures code == Join(groups, "-") && InFours(groups)
    ensures Spells(code, digits)
    ensures digits != "" ==> |code| == |digits| + (|digits| - 1) / 4
  {
    var parts: seq<string> := [];
    var i := 0;
    while i < |digits|
      invariant 0 <= i && InFours(parts) && (parts == [] <==> i == 0)
      invariant i < |digits| ==> forall p | 0 <= p < |parts| :: |parts[p]| == 4
      invariant Spells(Join(parts, "-"), digits[..if i < |digits| then i else |digits|])
      invariant i == 4 * |parts| && i < |digits| + 4
      invariant |Join(parts, "-")| == (if i < |digits| then i else |digits|) + if parts == [] then 0 else |parts| - 1
    {
      var end := if i + 4 > |digits| then |digits| else i + 4;
      NextGroupSpells(parts, digits, i, end);
      parts := parts + [digits[i..end]];
      i := i + 4;
    }
    assert digits[..|digits|] == digits;
    groups := parts;
    code := Join(parts, "-");
  }

  method GenerateRecoveryCode(buf: seq<Byte>) returns (code: string)
    ensures Spells(code, Hex(buf))
    ensures HashRecoveryCode(code) == HashToken(Hex(buf))
    ensures |buf| == 8 ==> |code| == 19
  {
    ghost var groups: seq<string>;
    code, groups := GroupDigits(Hex(buf));
    RetypedCodeReadsBack("", code, "", Hex(buf));
    assert "" + code + "" == code;
  }

  // ----- The store -----

  datatype RecoveryCode = RecoveryCode(userId: Id, codeHash: Digest, createdAt: Instant, usedAt: Option<Instant>)

  type Table = map<Id, seq<RecoveryCode>>

  function CodesOf(t: Table, user: Id): seq<RecoveryCode> {
    if user in t then t[user] else []
  }

  /** The hashes that can still be consumed, counted with their multiplicity. */
  function Unused(codes: seq<RecoveryCode>): multiset<Digest> {
    if codes == [] then multiset{}
    else Unused(codes[..|codes| - 1])
         + if codes[|codes| - 1].usedAt.None? then multiset{codes[|codes| - 1].codeHash} else multiset{}
  }

  function Batch(user: Id, hashes: seq<Digest>, now: Instant): seq<RecoveryCode> {
    seq(|hashes|, i requires 0 <= i < |hashes| => RecoveryCode(user, hashes[i], now, None))
  }

  function HashesOf(codes: seq<RecoveryCode>): seq<Digest> {
    seq(|codes|, i requires 0 <= i < |codes| => codes[i].codeHash)
  }

  function Replaced(t: Table, user: Id, hashes: seq<Digest>, now: Instant): Table {
    t[user := Batch(user, hashes, now)]
  }

  /** The first unused code with the hash is spent. */
  function Spend(codes: seq<RecoveryCode>, h: Digest, now: Instant): Option<seq<RecoveryCode>> {
    if codes == [] then None
    else if codes[0].codeHash == h && codes[0].usedAt.None? then Some([codes[0].(usedAt := Some(now))] + codes[1..])
    else After([codes[0]], Spend(codes[1..], h, now))
  }

  function After(front: seq<RecoveryCode>, rest: Option<seq<RecoveryCode>>): Option<seq<RecoveryCode>> {
    if rest.None? then None else Some(front + rest.value)
  }

  lemma OptionAfterNothing(rest: Option<seq<RecoveryCode>>)
    ensures After([], rest) == rest
  {
    if rest.Some? {
      assert [] + rest.value == rest.value;
    }
  }

  lemma AfterAfter(a: seq<RecoveryCode>, b: seq<RecoveryCode>, rest: Option<seq<RecoveryCode>>)
    ensures After(a, After(b, rest)) == After(a + b, rest)
  {
    if rest.Some? {
      assert a + (b + rest.value) == a + b + rest.value;
    }
  }

  function ConsumeCode(t: Table, user: Id, h: Digest, now: Instant): Option<Table> {
    match Spend(CodesOf(t, user), h, now)
    case None => None
    case Some(codes) => Some(t[user := codes])
  }

  class RecoveryCodeStore {
    var byUserID: Table

    constructor ()
      ensures byUserID == map[]
    {
      byUserID := map[];
    }

    method ReplaceAll(userID: Id, codes: seq<RecoveryCode>, now: Instant)
      modifies this
      ensures byUserID == Replaced(old(byUserID), userID, HashesOf(codes), now)
    {
      var stored: seq<RecoveryCode> := [];
      for i := 0 to |codes|
        invariant |stored| == i
        invariant forall k | 0 <= k < i :: stored[k] == RecoveryCode(userID, codes[k].codeHash, now, None)
      {
        stored := stored + [codes[i].(userId := userID, createdAt := now, usedAt := None)];
      }
      assert stored == Batch(userID, HashesOf(codes), now);
      byUserID := byUserID[userID := stored];
    }

    method CountUnused(userID: Id) returns (count: nat)
      ensures count == |Unused(CodesOf(byUserID, userID))|
    {
      var codes := if userID in byUserID then byUserID[userID] else [];
      count := 0;
      for i := 0 to |codes|
        invariant count == |Unused(codes[..i])|
      {
        assert codes[..i + 1][..i] == codes[..i];
        if codes[i].usedAt.None? {
          count := count + 1;
        }
      }
      assert codes[..|codes|] == codes;
    }

    method Consume(userID: Id, codeHash: Digest, now: Instant) returns (found: bool)
      modifies this
      ensures match ConsumeCode(old(byUserID), userID, codeHash, now)
              case None => !found && byUserID == old(byUserID)
              case Some(t) => found && byUserID == t
    {
      var codes := if userID in byUserID then byUserID[userID] else [];
      OptionAfterNothing(Spend(codes, codeHash, now));
      assert codes[0..] == codes && codes[..0] == [];
      for i := 0 to |codes|
        invariant byUserID == old(byUserID)
        invariant Spend(codes, codeHash, now) == After(codes[..i], Spend(codes[i..], codeHash, now))
      {
        assert codes[i..][1..] == codes[i + 1..] && codes[..i + 1] == codes[..i] + [codes[i]];
        if codes[i].codeHash == codeHash && codes[i].usedAt.None? {
          var spent := codes[i].(usedAt := Some(now));
          byUserID := byUserID[userID := codes[i := spent]];
          assert codes[i := spent] == codes[..i] + ([spent] + codes[i + 1..]);
          return true;
        }
        AfterAfter(codes[..i], [codes[i]], Spend(codes[i + 1..], codeHash, now));
      }
      return false;
    }

    method DeleteAll(userID: Id)
      modifies this
      ensures byUserID == old(byUserID) - {userID}
    {
      byUserID := byUserID - {userID};
    }
  }

  // ----- Conservation -----

  datatype Event =
    | ReplaceAll(user: Id, hashes: seq<Digest>, at: Instant)
    | Consume(owner: Id, hash: Digest, when: Instant)
    | DeleteAll(gone: Id)

  function Next(t: Table, e: Event): Table {
    match e
    case ReplaceAll(u, hashes, at) => Replaced(t, u, hashes, at)
    case Consume(u, h, at) => (match ConsumeCode(t, u, h, at) case None => t case Some(t') => t')
    case DeleteAll(u) => t - {u}
  }

  function Run(t: Table, events: seq<Event>): Table
    decreases |events|
  {
    if events == [] then t else Run(Next(t, events[0]), events[1..])
  }

  /** The hashes consumed with success for one user over a run, as often as they were. */
  function Consumed(t: Table, events: seq<Event>, user: Id): multiset<Digest>
    decreases |events|
  {
    if events == [] then multiset{}
    else ConsumedBy(t, events[0], user) + Consumed(Next(t, events[0]), events[1..], user)
  }

  /** No new batch and no deletion for this user. */
  predicate KeepsBatch(e: Event, user: Id) {
    match e
    case ReplaceAll(u, _, _) => u != user
    case Consume(_, _, _) => true
    case DeleteAll(u) => u != user
  }

  lemma {:induction false} UnusedOfSum(a: seq<RecoveryCode>, b: seq<RecoveryCode>)
    ensures Unused(a + b) == Unused(a) + Unused(b)
  {
    if b == [] {
      assert a + b == a;
    } else {
      assert (a + b)[..|a + b| - 1] == a + b[..|b| - 1];
      UnusedOfSum(a, b[..|b| - 1]);
    }
  }

  lemma UnusedOfCons(code: RecoveryCode, rest: seq<RecoveryCode>)
    ensures Unused([code] + rest) == (if code.usedAt.None? then multiset{code.codeHash} else multiset{}) + Unused(rest)
  {
    assert [code][..0] == [];
    UnusedOfSum([code], rest);
  }

  /** A consumption succeeds exactly on an unused hash, and removes one of it. */
  lemma {:induction false} SpendTakesOne(codes: seq<RecoveryCode>, h: Digest, now: Instant)
    ensures Spend(codes, h, now).Some? <==> h in Unused(codes)
    ensures Spend(codes, h, now).Some? ==> Unused(Spend(codes, h, now).value) + multiset{h} == Unused(codes)
  {
    if codes != [] {
      var code, rest := codes[0], codes[1..];
      assert codes == [code] + rest;
      UnusedOfCons(code, rest);
      if code.codeHash == h && code.usedAt.None? {
        UnusedOfCons(code.(usedAt := Some(now)), rest);
      } else {
        SpendTakesOne(rest, h, now);
        SpendBelow(code, rest, h, now);
      }
    }
  }

  lemma SpendBelow(code: RecoveryCode, rest: seq<RecoveryCode>, h: Digest, now: Instant)
    requires !(code.codeHash == h && code.usedAt.None?)
    ensures Spend([code] + rest, h, now) == After([code], Spend(rest, h, now))
    ensures Spend(rest, h, now).Some? ==>
      Unused(Spend([code] + rest, h, now).value)
      == (if code.usedAt.None? then multiset{code.codeHash} else multiset{}) + Unused(Spend(rest, h, now).value)
  {
    assert ([code] + rest)[1..] == rest;
    if Spend(rest, h, now).Some? {
      UnusedOfCons(code, Spend(rest, h, now).value);
    }
  }

  lemma {:induction false} FreshBatchIsUnused(hashes: seq<Digest>, user: Id, now: Instant)
    ensures Unused(Batch(user, hashes, now)) == multiset(hashes)
  {
    if hashes != [] {
      var front, last := hashes[..|hashes| - 1], hashes[|hashes| - 1];
      FreshBatchIsUnused(front, user, now);
      assert hashes == front + [last];
      var codes := Batch(user, hashes, now);
      assert codes[..|codes| - 1] == Batch(user, front, now);
    }
  }

  lemma {:induction false} ConsumedPlusUnused(t: Table, events: seq<Event>, user: Id)
    requires forall i | 0 <= i < |events| :: KeepsBatch(events[i], user)
    ensures Consumed(t, events, user) + Unused(CodesOf(Run(t, events), user)) == Unused(CodesOf(t, user))
    decreases |events|
  {
    if events != [] {
      var e := events[0];
      assert KeepsBatch(e, user);
      StepConserves(t, e, user);
      ConsumedPlusUnused(Next(t, e), events[1..], user);
    }
  }

  /** What one event consumes for a user. */
  function ConsumedBy(t: Table, e: Event, user: Id): multiset<Digest> {
    if e.Consume? && e.owner == user && ConsumeCode(t, user, e.hash, e.when).Some? then multiset{e.hash} else multiset{}
  }

  lemma StepConserves(t: Table, e: Event, user: Id)
    requires KeepsBatch(e, user)
    ensures ConsumedBy(t, e, user) + Unused(CodesOf(Next(t, e), user)) == Unused(CodesOf(t, user))
  {
    if e.Consume? {
      SpendTakesOne(CodesOf(t, e.owner), e.hash, e.when);
    }
  }

  /** From one batch to the next, what was consumed and what is still unused make up the batch, whatever other users do. */
  lemma BatchIsConserved(t: Table, user: Id, hashes: seq<Digest>, at: Instant, events: seq<Event>)
    requires forall i | 0 <= i < |events| :: KeepsBatch(events[i], user)
    ensures var start := Next(t, ReplaceAll(user, hashes, at));
      && Consumed(start, events, user) + Unused(CodesOf(Run(start, events), user)) == multiset(hashes)
      && |Consumed(start, events, user)| + |Unused(CodesOf(Run(start, events), user))| == |hashes|
  {
    var start := Next(t, ReplaceAll(user, hashes, at));
    FreshBatchIsUnused(hashes, user, at);
    ConsumedPlusUnused(start, events, user);
  }

  lemma {:induction false} DistinctOccurOnce(hashes: seq<Digest>, h: Digest)
    requires NoDuplicates(hashes)
    ensures multiset(hashes)[h] == if h in hashes then 1 else 0
  {
    if hashes != [] {
      var front, last := hashes[..|hashes| - 1], hashes[|hashes| - 1];
      assert hashes == front + [last];
      DistinctOccurOnce(front, h);
    }
  }

  /** With distinct hashes no code is ever consumed twice, and a code works until it is. */
  lemma EachCodeWorksOnce(t: Table, user: Id, hashes: seq<Digest>, at: Instant, events: seq<Event>, h: Digest, now: Instant)
    requires NoDuplicates(hashes) && forall i | 0 <= i < |events| :: KeepsBatch(events[i], user)
    ensures var start := Next(t, ReplaceAll(user, hashes, at));
      && Consumed(start, events, user)[h] <= 1
      && (ConsumeCode(Run(start, events), user, h, now).Some? <==> h in hashes && Consumed(start, events, user)[h] == 0)
  {
    var start := Next(t, ReplaceAll(user, hashes, at));
    BatchIsConserved(t, user, hashes, at, events);
    DistinctOccurOnce(hashes, h);
    var codes := CodesOf(Run(start, events), user);
    SpendTakesOne(codes, h, now);
    assert Consumed(start, events, user)[h] + Unused(codes)[h] == multiset(hashes)[h];
  }

  /** Different random bytes give codes with different hashes. */
  lemma CodesFromBytesAreDistinct(bufs: seq<seq<Byte>>)
    requires forall i, j | 0 <= i < j < |bufs| :: bufs[i] != bufs[j]
    ensures NoDuplicates(seq(|bufs|, i requires 0 <= i < |bufs| => HashToken(Hex(bufs[i]))))
  {
    forall i, j | 0 <= i < j < |bufs| ensures Hex(bufs[i]) != Hex(bufs[j]) {
      if Hex(bufs[i]) == Hex(bufs[j]) {
        HexIsInjective(bufs[i], bufs[j]);
      }
    }
  }
}
