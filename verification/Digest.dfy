/** The audit digest: one window of history as counts, with the newest attention-worthy events spelled out. */
module Digest {
  import opened Wrappers
  import opened Text
  import opened Audit
  import opened Sorting

  // ----- formatCount -----

  /** Digits after the first group, each group of three behind a comma. */
  function CommaTail(digits: string): string
    requires |digits| % 3 == 0
  {
    if digits == "" then "" else "," + digits[..3] + CommaTail(digits[3..])
  }

  /** The length of the first group: one to three digits. */
  function HeadLength(digits: string): nat
    requires digits != ""
  {
    (|digits| - 1) % 3 + 1
  }

  function Grouped(digits: string): string
    requires digits != ""
  {
    digits[..HeadLength(digits)] + CommaTail(digits[HeadLength(digits)..])
  }

  function FormatInt(n: int): string {
    if n < 0 then "-" + Itoa(-n) else Itoa(n)
  }

  function AbsDigits(n: int): (d: string)
    ensures d != ""
  {
    ItoaIsDecimal(if n < 0 then -n else n);
    Itoa(if n < 0 then -n else n)
  }

  lemma OneMoreGroup(d: string, i: nat, s: string)
    requires i + 3 <= |d| && (|d| - i) % 3 == 0 && s == d[..i + 3] + CommaTail(d[i + 3..])
    ensures s[..i] + "," + s[i..] == d[..i] + CommaTail(d[i..])
  {
    assert d[i..][..3] == d[i..i + 3] && d[i..][3..] == d[i + 3..];
    assert s[..i] == d[..i] && s[i..] == d[i..i + 3] + CommaTail(d[i + 3..]);
  }

  /** The loop of formatCount: commas are inserted from the right, in place. */
  method InsertCommas(d: string) returns (s: string)
    requires d != ""
    ensures s == Grouped(d)
  {
    s := d;
    var i := |s| - 3;
    assert d[i + 3..] == "" && d[..i + 3] == d;
    while i > 0
      invariant -3 < i <= |d| - 3 && (|d| - 3 - i) % 3 == 0
      invariant s == d[..i + 3] + CommaTail(d[i + 3..])
    {
      OneMoreGroup(d, i, s);
      s := s[..i] + "," + s[i..];
      i := i - 3;
    }
  }

  method FormatCount(n: int) returns (r: string)
    ensures r == (if n < 0 then "-" else "") + Grouped(AbsDigits(n))
    ensures var (sign, digits) := if n < 0 then ("-", Itoa(-n)) else ("", Itoa(n));
      sign <= r && WithoutCommas(r[|sign|..]) == digits && InThrees(Split(r[|sign|..], ','))
  {
    GroupedReadsBack(n);
    var s := FormatInt(n);
    var sign := "";
    ItoaIsDecimal(if n < 0 then -n else n);
    if s[0] == '-' {
      sign, s := "-", s[1..];
    }
    assert s == AbsDigits(n);
    s := InsertCommas(s);
    r := sign + s;
  }

  function WithoutCommas(s: string): string {
    if s == "" then "" else (if s[0] == ',' then "" else [s[0]]) + WithoutCommas(s[1..])
  }

  lemma {:induction false} WithoutCommasOfSum(a: string, b: string)
    ensures WithoutCommas(a + b) == WithoutCommas(a) + WithoutCommas(b)
  {
    if a == "" {
      assert a + b == b;
    } else {
      assert (a + b)[1..] == a[1..] + b;
      WithoutCommasOfSum(a[1..], b);
    }
  }

  lemma {:induction false} DigitsHaveNoCommas(a: string)
    requires AllDigits(a)
    ensures WithoutCommas(a) == a && ',' !in a
  {
    if a != "" {
      assert IsDigit(a[0]);
      DigitsHaveNoCommas(a[1..]);
      assert a == [a[0]] + a[1..];
    }
  }

  lemma {:induction false} CommaTailIsDigits(digits: string)
    requires |digits| % 3 == 0 && AllDigits(digits)
    ensures WithoutCommas(CommaTail(digits)) == digits
  {
    if digits != "" {
      CommaTailIsDigits(digits[3..]);
      DigitsHaveNoCommas(digits[..3]);
      WithoutCommasOfSum("," + digits[..3], CommaTail(digits[3..]));
      WithoutCommasOfSum(",", digits[..3]);
      assert WithoutCommas(",") == "" + WithoutCommas("");
      assert digits == digits[..3] + digits[3..];
    }
  }

  /** Groups between the commas: the first of one to three digits, every other of exactly three. */
  ghost predicate InThrees(groups: seq<string>) {
    groups != [] && 1 <= |groups[0]| <= 3 && forall i | 0 < i < |groups| :: |groups[i]| == 3
  }

  lemma {:induction false} TailGroups(head: string, digits: string)
    requires |digits| % 3 == 0 && AllDigits(digits) && AllDigits(head) && 1 <= |head| <= 3
    ensures InThrees(Split(head + CommaTail(digits), ',')) && Split(head + CommaTail(digits), ',')[0] == head
    decreases |digits|
  {
    DigitsHaveNoCommas(head);
    if digits == "" {
      assert head + CommaTail(digits) == head;
      SplitOne(head, ',');
    } else {
      TailGroups(digits[..3], digits[3..]);
      var rest := digits[..3] + CommaTail(digits[3..]);
      assert head + CommaTail(digits) == head + [','] + rest;
      SplitFirst(head, ',', rest);
    }
  }

  lemma GroupingReadsBack(d: string)
    requires AllDigits(d) && d != ""
    ensures WithoutCommas(Grouped(d)) == d && InThrees(Split(Grouped(d), ','))
  {
    var head, tail := d[..HeadLength(d)], d[HeadLength(d)..];
    WithoutCommasOfSum(head, CommaTail(tail));
    DigitsHaveNoCommas(head);
    CommaTailIsDigits(tail);
    assert d == head + tail;
    TailGroups(head, tail);
  }

  /** Removing the commas gives the decimal text back, and they part it in threes. */
  lemma GroupedReadsBack(n: int)
    ensures WithoutCommas(Grouped(AbsDigits(n))) == Itoa(if n < 0 then -n else n)
    ensures InThrees(Split(Grouped(AbsDigits(n)), ','))
  {
    ItoaIsDecimal(if n < 0 then -n else n);
    GroupingReadsBack(AbsDigits(n));
  }

  // ----- Totals -----

  type Counts = map<EventKind, int>

  /** The sum of the counts, in whatever order the map is walked. */
  ghost function Sum(counts: Counts): int {
    SumOver(counts.Keys, counts)
  }

  ghost function Pick(kinds: set<EventKind>): (k: EventKind)
    requires kinds != {}
    ensures k in kinds
  {
    var k :| k in kinds;
    k
  }

  ghost function SumOver(kinds: set<EventKind>, counts: Counts): int
    requires kinds <= counts.Keys
  {
    if kinds == {} then 0 else counts[Pick(kinds)] + SumOver(kinds - {Pick(kinds)}, counts)
  }

  lemma {:induction false} SumWithout(kinds: set<EventKind>, counts: Counts, k: EventKind)
    requires k in kinds && kinds <= counts.Keys
    ensures SumOver(kinds, counts) == counts[k] + SumOver(kinds - {k}, counts)
  {
    var j := Pick(kinds);
    if j != k {
      SumWithout(kinds - {j}, counts, k);
      SumWithout(kinds - {k}, counts, j);
      assert kinds - {j} - {k} == kinds - {k} - {j};
    }
  }

  method Total(counts: Counts) returns (total: int)
    ensures total == Sum(counts)
  {
    total := 0;
    var left := counts.Keys;
    while left != {}
      invariant left <= counts.Keys && total + SumOver(left, counts) == Sum(counts)
    {
      var k :| k in left;
      SumWithout(left, counts, k);
      total := total + counts[k];
      left := left - {k};
    }
  }

  // ----- What is printed -----

  const ATTENTION: seq<EventKind> := [AccountLocked, TokenReuseDetected, AnomalyDetected, CredentialStuffingDetected]

  const ACCOUNTS: seq<EventKind> :=
    [SignupSuccess, AccountDeleted, PasswordChanged, PasswordBreachRejected, PasswordHashUpgraded, EmailChangeRequested, EmailChanged]

  const SIGN_INS: seq<EventKind> :=
    [LoginSuccess, LoginFailed, MagicLinkRequested, Logout, LogoutAll, SessionRevoked, TokenRotated]

  const SIGN_IN_METHODS: seq<EventKind> :=
    [OAuthLinked, TOTPEnabled, TOTPDisabled, TOTPChallengeFailed, WebAuthnRegistered, WebAuthnRemoved, WebAuthnChallengeFailed,
     RecoveryCodesGenerated, RecoveryCodeUsed, RecoveryCodeFailed]

  const API_KEYS: seq<EventKind> := [APIKeyCreated, APIKeyRevoked, APIKeyRejected]

  const SECTIONS: seq<seq<EventKind>> := [ATTENTION, ACCOUNTS, SIGN_INS, SIGN_IN_METHODS, API_KEYS]

  const CLASSIFIED: seq<EventKind> := ATTENTION + ACCOUNTS + SIGN_INS + SIGN_IN_METHODS + API_KEYS

  const HIGHLIGHT_LIMIT := 10

  /** The place of a type in the sections, in printing order. */
  function Place(k: EventKind): nat {
    match k
    case AccountLocked => 0
    case TokenReuseDetected => 1
    case AnomalyDetected => 2
    case CredentialStuffingDetected => 3
    case SignupSuccess => 4
    case AccountDeleted => 5
    case PasswordChanged => 6
    case PasswordBreachRejected => 7
    case PasswordHashUpgraded => 8
    case EmailChangeRequested => 9
    case EmailChanged => 10
    case LoginSuccess => 11
    case LoginFailed => 12
    case MagicLinkRequested => 13
    case Logout => 14
    case LogoutAll => 15
    case SessionRevoked => 16
    case TokenRotated => 17
    case OAuthLinked => 18
    case TOTPEnabled => 19
    case TOTPDisabled => 20
    case TOTPChallengeFailed => 21
    case WebAuthnRegistered => 22
    case WebAuthnRemoved => 23
    case WebAuthnChallengeFailed => 24
    case RecoveryCodesGenerated => 25
    case RecoveryCodeUsed => 26
    case RecoveryCodeFailed => 27
    case APIKeyCreated => 28
    case APIKeyRevoked => 29
    case APIKeyRejected => 30
    case HostEvent(_) => 31
  }

  ghost predicate Placed(kinds: seq<EventKind>, base: nat) {
    forall i | 0 <= i < |kinds| :: Place(kinds[i]) == base + i
  }

  lemma PlacedSum(a: seq<EventKind>, b: seq<EventKind>, base: nat)
    requires Placed(a, base) && Placed(b, base + |a|)
    ensures Placed(a + b, base)
  {
  }

  lemma AttentionIsPlaced()
    ensures Placed(ATTENTION, 0)
  {
  }

  lemma AccountsArePlaced()
    ensures Placed(ACCOUNTS, 4)
  {
  }

  lemma SignInsArePlaced()
    ensures Placed(SIGN_INS, 11)
  {
  }

  lemma SignInMethodsArePlaced()
    ensures Placed(SIGN_IN_METHODS, 18)
  {
  }

  lemma APIKeysArePlaced()
    ensures Placed(API_KEYS, 28)
  {
  }

  lemma EachTypeHasOnePlace()
    ensures Placed(CLASSIFIED, 0)
  {
    AttentionIsPlaced();
    AccountsArePlaced();
    SignInsArePlaced();
    SignInMethodsArePlaced();
    APIKeysArePlaced();
    PlacedSum(ATTENTION, ACCOUNTS, 0);
    PlacedSum(ATTENTION + ACCOUNTS, SIGN_INS, 0);
    PlacedSum(ATTENTION + ACCOUNTS + SIGN_INS, SIGN_IN_METHODS, 0);
    PlacedSum(ATTENTION + ACCOUNTS + SIGN_INS + SIGN_IN_METHODS, API_KEYS, 0);
  }

  /** One printed line: a type, its count, and the events spelled out below it. */
  datatype Line = Line(kind: EventKind, count: int, details: seq<AuditEvent>)

  /** The events of one type, in the order they stand. */
  function OfKind(events: seq<AuditEvent>, kind: EventKind): seq<AuditEvent> {
    if events == [] then [] else (if events[0].kind == kind then [events[0]] else []) + OfKind(events[1..], kind)
  }

  predicate Occurs(counts: Counts, k: EventKind) {
    k in counts && counts[k] != 0
  }

  function LineFor(k: EventKind, counts: Counts, highlights: seq<AuditEvent>): seq<Line> {
    if Occurs(counts, k) then [Line(k, counts[k], if k in CLASSIFIED then OfKind(highlights, k) else [])] else []
  }

  /** The lines for a list of types, those with no events left out. */
  function LinesFor(kinds: seq<EventKind>, counts: Counts, highlights: seq<AuditEvent>): seq<Line> {
    if kinds == [] then [] else LinesFor(kinds[..|kinds| - 1], counts, highlights) + LineFor(kinds[|kinds| - 1], counts, highlights)
  }

  lemma OneMoreLine(kinds: seq<EventKind>, k: EventKind, counts: Counts, highlights: seq<AuditEvent>)
    ensures LinesFor(kinds + [k], counts, highlights) == LinesFor(kinds, counts, highlights) + LineFor(k, counts, highlights)
  {
    assert (kinds + [k])[..|kinds|] == kinds;
  }

  function Flatten(sections: seq<seq<EventKind>>): seq<EventKind> {
    if sections == [] then [] else Flatten(sections[..|sections| - 1]) + sections[|sections| - 1]
  }

  lemma SectionsFlatten()
    ensures Flatten(SECTIONS) == CLASSIFIED
  {
    assert SECTIONS[..1][..0] == [] && SECTIONS[..2][..1] == SECTIONS[..1] && SECTIONS[..3][..2] == SECTIONS[..2];
    assert SECTIONS[..4][..3] == SECTIONS[..3] && SECTIONS[..4] == SECTIONS[..|SECTIONS| - 1];
    assert Flatten(SECTIONS[..1]) == ATTENTION;
    assert Flatten(SECTIONS[..2]) == ATTENTION + ACCOUNTS;
    assert Flatten(SECTIONS[..3]) == ATTENTION + ACCOUNTS + SIGN_INS;
    assert Flatten(SECTIONS[..4]) == ATTENTION + ACCOUNTS + SIGN_INS + SIGN_IN_METHODS;
  }

  lemma UnclassifiedIsHost(k: EventKind)
    ensures k in CLASSIFIED <==> !k.HostEvent?
  {
    EachTypeHasOnePlace();
    if Place(k) < 4 {
      assert k == ATTENTION[Place(k)];
    } else if Place(k) < 11 {
      assert k == ACCOUNTS[Place(k) - 4];
    } else if Place(k) < 18 {
      assert k == SIGN_INS[Place(k) - 11];
    } else if Place(k) < 28 {
      assert k == SIGN_IN_METHODS[Place(k) - 18];
    } else if Place(k) < 31 {
      assert k == API_KEYS[Place(k) - 28];
    }
  }

  ghost predicate IsOther(name: string, counts: Counts) {
    Occurs(counts, HostEvent(name))
  }

  /** The names no section claims, each once and in name order. No other list is like that. */
  ghost predicate AreOtherNames(names: seq<string>, counts: Counts) {
    NoDuplicates(names) && Ascending(names) && forall name :: name in names <==> IsOther(name, counts)
  }

  lemma OtherNamesAreUnique(a: seq<string>, b: seq<string>, counts: Counts)
    requires AreOtherNames(a, counts) && AreOtherNames(b, counts)
    ensures a == b
  {
    NoDuplicatesMultiset(a);
    NoDuplicatesMultiset(b);
    forall x ensures multiset(a)[x] == multiset(b)[x] {
      assert x in a <==> x in b;
    }
    AscendingIsUnique(a, b);
  }

  function HostEvents(names: seq<string>): seq<EventKind> {
    seq(|names|, i requires 0 <= i < |names| => HostEvent(names[i]))
  }

  ghost predicate AreOthers(others: seq<EventKind>, counts: Counts) {
    exists names :: AreOtherNames(names, counts) && others == HostEvents(names)
  }

  lemma OthersAreUnique(a: seq<EventKind>, b: seq<EventKind>, counts: Counts)
    requires AreOthers(a, counts) && AreOthers(b, counts)
    ensures a == b
  {
    var x :| AreOtherNames(x, counts) && a == HostEvents(x);
    var y :| AreOtherNames(y, counts) && b == HostEvents(y);
    OtherNamesAreUnique(x, y, counts);
  }

  /** unclassifiedTypes: counted types that no section claims, whatever order the map is walked in. */
  method UnclassifiedTypes(counts: Counts) returns (others: seq<EventKind>)
    ensures AreOthers(others, counts)
  {
    var found: seq<string> := [];
    var left := counts.Keys;
    while left != {}
      invariant left <= counts.Keys && NoDuplicates(found)
      invariant forall name :: name in found <==> HostEvent(name) !in left && IsOther(name, counts)
    {
      var k :| k in left;
      UnclassifiedIsHost(k);
      if counts[k] != 0 && k !in CLASSIFIED {
        found := found + [k.name];
      }
      left := left - {k};
    }
    SortSorts(found);
    SortKeepsDistinct(found);
    var names := SortStrings(found);
    assert AreOtherNames(names, counts);
    others := HostEvents(names);
  }

  /** The lines of the sections, types with no events left out. */
  method SectionLines(counts: Counts, highlights: seq<AuditEvent>) returns (lines: seq<Line>)
    ensures lines == LinesFor(CLASSIFIED, counts, highlights)
  {
    lines := [];
    ghost var kinds: seq<EventKind> := [];
    for s := 0 to |SECTIONS|
      invariant kinds == Flatten(SECTIONS[..s]) && lines == LinesFor(kinds, counts, highlights)
    {
      var added := AppendLines(lines, kinds, SECTIONS[s], counts, highlights);
      lines := added;
      kinds := kinds + SECTIONS[s];
      assert SECTIONS[..s + 1][..s] == SECTIONS[..s];
    }
    assert SECTIONS[..|SECTIONS|] == SECTIONS;
    SectionsFlatten();
  }

  method AppendLines(above: seq<Line>, ghost done: seq<EventKind>, kinds: seq<EventKind>, counts: Counts, highlights: seq<AuditEvent>)
    returns (lines: seq<Line>)
    requires above == LinesFor(done, counts, highlights)
    ensures lines == LinesFor(done + kinds, counts, highlights)
  {
    lines := above;
    assert done + kinds[..0] == done;
    for k := 0 to |kinds|
      invariant lines == LinesFor(done + kinds[..k], counts, highlights)
    {
      assert done + kinds[..k + 1] == done + kinds[..k] + [kinds[k]];
      OneMoreLine(done + kinds[..k], kinds[k], counts, highlights);
      lines := lines + LineFor(kinds[k], counts, highlights);
    }
    assert kinds[..|kinds|] == kinds;
  }

  ghost predicate NothingOccurs(counts: Counts) {
    forall k :: !Occurs(counts, k)
  }

  /** Text, as the lines it prints below its header. Counts that cancel out print as an empty window. */
  method Lines(counts: Counts, highlights: seq<AuditEvent>) returns (lines: seq<Line>)
    ensures PrintsEachOnce(lines, counts) <==> Sum(counts) != 0 || NothingOccurs(counts)
    ensures LineSum(lines) == Sum(counts)
    ensures forall line | line in lines :: LineFor(line.kind, counts, highlights) == [line]
    ensures forall others | Sum(counts) != 0 && AreOthers(others, counts) :: lines == LinesFor(CLASSIFIED + others, counts, highlights)
  {
    var total := Total(counts);
    if total == 0 {
      return [];
    }
    lines := SectionLines(counts, highlights);
    var others := UnclassifiedTypes(counts);
    lines := AppendLines(lines, CLASSIFIED, others, counts, highlights);
    forall same | AreOthers(same, counts) ensures same == others {
      OthersAreUnique(same, others, counts);
    }
    KindsAreDistinct(counts, others);
    LinesPrintEachOnce(CLASSIFIED + others, counts, highlights);
    LinesSumToTotal(CLASSIFIED + others, counts, highlights);
  }

  // ----- Every type once, and the counts add up -----

  predicate NoTypeTwice(lines: seq<Line>) {
    forall i, j | 0 <= i < j < |lines| :: lines[i].kind != lines[j].kind
  }

  ghost predicate PrintsEachOnce(lines: seq<Line>, counts: Counts) {
    && NoTypeTwice(lines)
    && (forall k | Occurs(counts, k) :: exists line :: line in lines && line.kind == k && line.count == counts[k])
    && (forall line | line in lines :: Occurs(counts, line.kind) && line.count == counts[line.kind])
  }

  function LineSum(lines: seq<Line>): int {
    if lines == [] then 0 else LineSum(lines[..|lines| - 1]) + lines[|lines| - 1].count
  }

  lemma KindsAreDistinct(counts: Counts, others: seq<EventKind>)
    requires AreOthers(others, counts)
    ensures NoDuplicates(CLASSIFIED + others)
    ensures forall k | Occurs(counts, k) :: k in CLASSIFIED + others
  {
    EachTypeHasOnePlace();
    var names :| AreOtherNames(names, counts) && others == HostEvents(names);
    var kinds := CLASSIFIED + others;
    var n := |CLASSIFIED|;
    forall i, j | 0 <= i < j < |kinds| ensures kinds[i] != kinds[j] {
      if j < n {
        assert kinds[i] == CLASSIFIED[i] && kinds[j] == CLASSIFIED[j];
      } else if i < n {
        UnclassifiedIsHost(kinds[i]);
        assert kinds[i] == CLASSIFIED[i] && kinds[j] == others[j - n];
      } else {
        assert kinds[i] == others[i - n] && kinds[j] == others[j - n];
      }
    }
    forall k | Occurs(counts, k) ensures k in kinds {
      UnclassifiedIsHost(k);
      if k.HostEvent? {
        assert k.name in names;
        var i :| 0 <= i < |names| && names[i] == k.name;
        assert others[i] == k;
      }
    }
  }

  /** Counts of events cannot cancel: the total is zero only when nothing occurred. */
  lemma {:induction false} CountsDoNotCancel(kinds: set<EventKind>, counts: Counts)
    requires kinds <= counts.Keys && forall k | k in kinds :: counts[k] >= 0
    ensures SumOver(kinds, counts) >= 0
    ensures SumOver(kinds, counts) == 0 <==> forall k | k in kinds :: counts[k] == 0
  {
    if kinds != {} {
      CountsDoNotCancel(kinds - {Pick(kinds)}, counts);
      assert forall k | k in kinds :: k == Pick(kinds) || k in kinds - {Pick(kinds)};
    }
  }

  /** A pair of counts that cancels: something occurred, and the digest says nothing did. */
  lemma CancellingCounts()
    ensures var counts := map[LoginFailed := 1, Logout := -1];
      Sum(counts) == 0 && !NothingOccurs(counts) && !PrintsEachOnce([], counts)
  {
    var counts: Counts := map[LoginFailed := 1, Logout := -1];
    SumWithout(counts.Keys, counts, LoginFailed);
    SumWithout(counts.Keys - {LoginFailed}, counts, Logout);
    assert counts.Keys - {LoginFailed} - {Logout} == {};
    assert Occurs(counts, Logout);
  }

  lemma {:induction false} LinesAre(kinds: seq<EventKind>, counts: Counts, highlights: seq<AuditEvent>)
    requires NoDuplicates(kinds)
    ensures NoTypeTwice(LinesFor(kinds, counts, highlights))
    ensures forall line :: line in LinesFor(kinds, counts, highlights) <==> line.kind in kinds && LineFor(line.kind, counts, highlights) == [line]
  {
    if kinds != [] {
      var front, last := kinds[..|kinds| - 1], kinds[|kinds| - 1];
      LinesAre(front, counts, highlights);
      assert kinds == front + [last] && last !in front;
      var lines := LinesFor(front, counts, highlights);
      forall i | 0 <= i < |lines| ensures lines[i].kind != last {
        assert lines[i] in lines;
      }
    }
  }

  lemma LinesPrintEachOnce(kinds: seq<EventKind>, counts: Counts, highlights: seq<AuditEvent>)
    requires NoDuplicates(kinds) && forall k | Occurs(counts, k) :: k in kinds
    ensures PrintsEachOnce(LinesFor(kinds, counts, highlights), counts)
    ensures forall line | line in LinesFor(kinds, counts, highlights) :: LineFor(line.kind, counts, highlights) == [line]
  {
    LinesAre(kinds, counts, highlights);
    forall k | Occurs(counts, k)
      ensures exists line :: line in LinesFor(kinds, counts, highlights) && line.kind == k && line.count == counts[k]
    {
      var line := LineFor(k, counts, highlights)[0];
      assert line in LinesFor(kinds, counts, highlights);
    }
  }

  lemma {:induction false} SumOfZeros(kinds: set<EventKind>, counts: Counts)
    requires kinds <= counts.Keys && forall k | k in kinds :: counts[k] == 0
    ensures SumOver(kinds, counts) == 0
  {
    if kinds != {} {
      var k :| k in kinds;
      SumWithout(kinds, counts, k);
      SumOfZeros(kinds - {k}, counts);
    }
  }

  lemma {:induction false} LinesSum(kinds: seq<EventKind>, among: set<EventKind>, counts: Counts, highlights: seq<AuditEvent>)
    requires NoDuplicates(kinds) && among <= counts.Keys
    requires forall k | k in among && counts[k] != 0 :: k in kinds
    requires forall k | k in kinds && k in counts :: k in among
    ensures LineSum(LinesFor(kinds, counts, highlights)) == SumOver(among, counts)
    decreases |kinds|
  {
    if kinds == [] {
      SumOfZeros(among, counts);
    } else {
      var front, last := kinds[..|kinds| - 1], kinds[|kinds| - 1];
      assert kinds == front + [last] && last !in front;
      LinesSum(front, among - {last}, counts, highlights);
      LineSumOfLast(front, last, counts, highlights);
      assert kinds == front + [last];
      if last in counts {
        SumWithout(among, counts, last);
      } else {
        assert among - {last} == among;
      }
    }
  }

  lemma LineSumOfLast(front: seq<EventKind>, last: EventKind, counts: Counts, highlights: seq<AuditEvent>)
    ensures LineSum(LinesFor(front + [last], counts, highlights))
         == LineSum(LinesFor(front, counts, highlights)) + if last in counts then counts[last] else 0
  {
    var lines := LinesFor(front, counts, highlights);
    OneMoreLine(front, last, counts, highlights);
    if Occurs(counts, last) {
      assert (lines + LineFor(last, counts, highlights))[..|lines|] == lines;
    } else {
      assert lines + [] == lines;
    }
  }

  lemma LinesSumToTotal(kinds: seq<EventKind>, counts: Counts, highlights: seq<AuditEvent>)
    requires NoDuplicates(kinds) && forall k | Occurs(counts, k) :: k in kinds
    ensures LineSum(LinesFor(kinds, counts, highlights)) == Sum(counts)
  {
    LinesSum(kinds, counts.Keys, counts, highlights);
  }

  // ----- Highlights -----

  predicate InTimeOrder(events: seq<AuditEvent>) {
    forall i, j | 0 <= i < j < |events| :: events[i].createdAt <= events[j].createdAt
  }

  function InWindow(events: seq<AuditEvent>, since: Instant): seq<AuditEvent> {
    if events == [] then []
    else (if events[0].createdAt >= since then [events[0]] else []) + InWindow(events[1..], since)
  }

  /** What the loop over the first attention types gathers. */
  function Gathered(kinds: seq<EventKind>, events: seq<AuditEvent>, since: Instant): seq<AuditEvent> {
    if kinds == [] then []
    else
      Gathered(kinds[..|kinds| - 1], events, since) + InWindow(Newest(events, kinds[|kinds| - 1], HIGHLIGHT_LIMIT), since)
  }

  function InsertByTime(e: AuditEvent, events: seq<AuditEvent>): seq<AuditEvent> {
    if events == [] || events[0].createdAt <= e.createdAt then [e] + events else [events[0]] + InsertByTime(e, events[1..])
  }

  /** sort.SliceStable, newest first. */
  function ByTime(events: seq<AuditEvent>): seq<AuditEvent> {
    if events == [] then [] else InsertByTime(events[0], ByTime(events[1..]))
  }

  ghost predicate NewestFirst(events: seq<AuditEvent>) {
    forall i, j | 0 <= i < j < |events| :: events[i].createdAt >= events[j].createdAt
  }

  method AppendInWindow(above: seq<AuditEvent>, events: seq<AuditEvent>, since: Instant) returns (all: seq<AuditEvent>)
    ensures all == above + InWindow(events, since)
  {
    all := above;
    for i := 0 to |events|
      invariant all + InWindow(events[i..], since) == above + InWindow(events, since)
    {
      assert events[i..][1..] == events[i + 1..];
      if events[i].createdAt >= since {
        all := all + [events[i]];
      }
    }
  }

  /** One window of history, summarised. */
  datatype Digest = Digest(since: Instant, until: Instant, counts: Counts, highlights: seq<AuditEvent>)

  /** The events of a type from one instant to another, both included. */
  function CountBetween(events: seq<AuditEvent>, kind: EventKind, since: Instant, until: Instant): nat {
    |PositionsBetween(events, kind, since, until)|
  }

  /** Positions of events of a type from one instant to another. */
  function PositionsBetween(events: seq<AuditEvent>, kind: EventKind, since: Instant, until: Instant): set<int> {
    set i | 0 <= i < |events| && events[i].kind == kind && since <= events[i].createdAt <= until
  }

  lemma NoneAfter(events: seq<AuditEvent>, kind: EventKind, since: Instant, until: Instant)
    requires forall i | 0 <= i < |events| :: events[i].createdAt <= until
    ensures CountSince(events, kind, since) == CountBetween(events, kind, since, until)
  {
    CountSinceIs(events, kind, since);
    assert PositionsBetween(events, kind, since, until) == PositionsSince(events, kind, since);
  }

  /**
   One count query, then one search for each attention type that occurred; the end of the window is read
   after them, so with no event dated later the counts are those of the window the digest names.
   */
  method BuildDigest(audit: AuditStore, since: Instant, now: Instant) returns (d: Digest)
    ensures d.since == since && d.until == now
    ensures forall k :: k in d.counts <==> CountSince(audit.events, k, since) > 0
    ensures forall k | k in d.counts :: d.counts[k] == CountSince(audit.events, k, since) == |PositionsSince(audit.events, k, since)|
    ensures (forall e | e in audit.events :: e.createdAt <= now) ==>
      forall k | k in d.counts :: d.counts[k] == CountBetween(audit.events, k, d.since, d.until)
    ensures d.highlights == ByTime(Gathered(ATTENTION, audit.events, since))
  {
    hide CountSince, Newest;
    var counts := audit.CountByType(since);
    var highlights := [];
    for t := 0 to |ATTENTION|
      invariant highlights == Gathered(ATTENTION[..t], audit.events, since)
    {
      var kind := ATTENTION[t];
      assert ATTENTION[..t + 1][..t] == ATTENTION[..t];
      if kind in counts {
        var events := audit.SearchByType(kind, HIGHLIGHT_LIMIT);
        highlights := AppendInWindow(highlights, events, since);
      } else {
        NoneToShow(audit.events, kind, HIGHLIGHT_LIMIT, since);
        assert highlights + [] == highlights;
      }
    }
    assert ATTENTION[..|ATTENTION|] == ATTENTION;
    d := Digest(since, now, counts, ByTime(highlights));
    if forall e | e in audit.events :: e.createdAt <= now {
      forall k | k in counts ensures counts[k] == CountBetween(audit.events, k, since, now) {
        NoneAfter(audit.events, k, since, now);
      }
    }
  }

  lemma {:induction false} NoneToShow(events: seq<AuditEvent>, kind: EventKind, limit: nat, since: Instant)
    requires CountSince(events, kind, since) == 0
    ensures InWindow(Newest(events, kind, limit), since) == []
    decreases |events|
  {
    if events != [] && limit > 0 {
      var before, e := events[..|events| - 1], events[|events| - 1];
      if e.kind == kind {
        NoneToShow(before, kind, limit - 1, since);
        assert ([e] + Newest(before, kind, limit - 1))[1..] == Newest(before, kind, limit - 1);
      } else {
        NoneToShow(before, kind, limit, since);
      }
    }
  }

  lemma OfKindOfCons(e: AuditEvent, rest: seq<AuditEvent>, kind: EventKind)
    ensures OfKind([e] + rest, kind) == (if e.kind == kind then [e] else []) + OfKind(rest, kind)
  {
    assert ([e] + rest)[1..] == rest;
  }

  lemma {:induction false} OfKindOfSum(a: seq<AuditEvent>, b: seq<AuditEvent>, kind: EventKind)
    ensures OfKind(a + b, kind) == OfKind(a, kind) + OfKind(b, kind)
  {
    if a == [] {
      assert a + b == b;
    } else {
      OfKindOfSum(a[1..], b, kind);
      OfKindOfCons(a[0], a[1..], kind);
      OfKindOfCons(a[0], a[1..] + b, kind);
      assert a == [a[0]] + a[1..];
      assert a + b == [a[0]] + (a[1..] + b);
    }
  }

  lemma {:induction false} OfOneKind(events: seq<AuditEvent>, kind: EventKind, other: EventKind)
    requires forall e | e in events :: e.kind == kind
    ensures OfKind(events, other) == if other == kind then events else []
  {
    if events != [] {
      OfOneKind(events[1..], kind, other);
      assert events == [events[0]] + events[1..];
    }
  }

  lemma {:induction false} GatheredByKind(kinds: seq<EventKind>, events: seq<AuditEvent>, since: Instant, kind: EventKind)
    requires NoDuplicates(kinds) && InTimeOrder(events)
    ensures OfKind(Gathered(kinds, events, since), kind)
         == if kind in kinds then InWindow(Newest(events, kind, HIGHLIGHT_LIMIT), since) else []
  {
    if kinds != [] {
      var front, last := kinds[..|kinds| - 1], kinds[|kinds| - 1];
      assert kinds == front + [last] && last !in front;
      GatheredByKind(front, events, since, kind);
      var found := InWindow(Newest(events, last, HIGHLIGHT_LIMIT), since);
      assert OfKind(found, kind) == if kind == last then found else [] by {
        HighlightsAreTheNewestTen(events, last, HIGHLIGHT_LIMIT, since);
        OfOneKind(found, last, kind);
      }
      OfKindOfSum(Gathered(front, events, since), found, kind);
    }
  }

  lemma NewestFirstBelow(e: AuditEvent, events: seq<AuditEvent>)
    ensures NewestFirst([e] + events) <==> NewestFirst(events) && forall x | x in events :: x.createdAt <= e.createdAt
  {
    var all := [e] + events;
    assert forall i | 0 <= i < |events| :: all[i + 1] == events[i];
    if NewestFirst(all) {
      forall i, j | 0 <= i < j < |events| ensures events[i].createdAt >= events[j].createdAt {
        assert all[i + 1].createdAt >= all[j + 1].createdAt;
      }
      forall x | x in events ensures x.createdAt <= e.createdAt {
        var i :| 0 <= i < |events| && events[i] == x;
        assert all[0].createdAt >= all[i + 1].createdAt;
      }
    } else {
      var i, j :| 0 <= i < j < |all| && all[i].createdAt < all[j].createdAt;
      assert all[j] == events[j - 1] && events[j - 1] in events;
      assert i > 0 ==> all[i] == events[i - 1];
    }
  }

  lemma {:induction false} InsertKeepsOrder(e: AuditEvent, events: seq<AuditEvent>)
    requires NewestFirst(events)
    ensures NewestFirst(InsertByTime(e, events))
    ensures forall x :: x in InsertByTime(e, events) <==> x == e || x in events
  {
    if events != [] && !(events[0].createdAt <= e.createdAt) {
      assert events == [events[0]] + events[1..];
      NewestFirstBelow(events[0], events[1..]);
      InsertKeepsOrder(e, events[1..]);
      NewestFirstBelow(events[0], InsertByTime(e, events[1..]));
    } else {
      NewestFirstBelow(e, events);
      if events != [] {
        assert events == [events[0]] + events[1..];
        NewestFirstBelow(events[0], events[1..]);
      }
    }
  }

  lemma {:induction false} InsertKeepsGroups(e: AuditEvent, events: seq<AuditEvent>, kind: EventKind)
    requires e.kind == kind ==> forall x | x in OfKind(events, kind) :: x.createdAt <= e.createdAt
    ensures OfKind(InsertByTime(e, events), kind) == OfKind([e] + events, kind)
  {
    if events != [] && !(events[0].createdAt <= e.createdAt) {
      var first, below := events[0], events[1..];
      var mine, other := if e.kind == kind then [e] else [], if first.kind == kind then [first] else [];
      assert events == [first] + below;
      OfKindOfCons(first, below, kind);
      assert forall x | x in OfKind(below, kind) :: x in OfKind(events, kind);
      InsertKeepsGroups(e, below, kind);
      assert mine == [] || other == [] by {
        assert first.kind == kind ==> OfKind(events, kind)[0] == first;
      }
      OfKindOfCons(first, InsertByTime(e, below), kind);
      OfKindOfCons(e, below, kind);
      OfKindOfCons(e, events, kind);
      OneIsEmpty(mine, other, OfKind(below, kind));
    }
  }

  lemma OneIsEmpty(a: seq<AuditEvent>, b: seq<AuditEvent>, rest: seq<AuditEvent>)
    requires a == [] || b == []
    ensures a + (b + rest) == b + (a + rest)
  {
  }

  /** Sorting by time orders the whole list and, where a type was in order already, leaves that type's events as they stood. */
  lemma {:induction false} ByTimeKeepsGroups(events: seq<AuditEvent>, kind: EventKind)
    requires NewestFirst(OfKind(events, kind))
    ensures NewestFirst(ByTime(events)) && OfKind(ByTime(events), kind) == OfKind(events, kind)
  {
    if events != [] {
      var e, rest := events[0], events[1..];
      var found := OfKind(rest, kind);
      if e.kind == kind {
        assert OfKind(events, kind) == [e] + found;
        NewestFirstBelow(e, found);
      } else {
        assert OfKind(events, kind) == found;
      }
      ByTimeKeepsGroups(rest, kind);
      InsertKeepsOrder(e, ByTime(rest));
      InsertKeepsGroups(e, ByTime(rest), kind);
      assert ([e] + ByTime(rest))[1..] == ByTime(rest);
    }
  }

  lemma {:induction false} NewestIsNewestFirst(events: seq<AuditEvent>, kind: EventKind, limit: nat, since: Instant)
    requires InTimeOrder(events)
    ensures NewestFirst(InWindow(Newest(events, kind, limit), since))
    ensures forall e | e in InWindow(Newest(events, kind, limit), since) :: e in events
    decreases |events|
  {
    if events != [] && limit > 0 {
      var before, e := events[..|events| - 1], events[|events| - 1];
      assert InTimeOrder(before) && events == before + [e];
      assert forall x | x in before :: x.createdAt <= e.createdAt;
      if e.kind == kind {
        NewestIsNewestFirst(before, kind, limit - 1, since);
        assert ([e] + Newest(before, kind, limit - 1))[1..] == Newest(before, kind, limit - 1);
      } else {
        NewestIsNewestFirst(before, kind, limit, since);
      }
    }
  }

  /** Below each attention line stand its newest events, exactly the smaller of ten and its count; below other lines, none. */
  lemma DigestOfOrderedHistory(events: seq<AuditEvent>, since: Instant, kind: EventKind)
    requires InTimeOrder(events)
    ensures var details := OfKind(ByTime(Gathered(ATTENTION, events, since)), kind);
      && |details| == (if kind in ATTENTION then Min(HIGHLIGHT_LIMIT, CountSince(events, kind, since)) else 0)
      && NewestFirst(details)
      && (kind in ATTENTION ==> details == InWindow(Newest(events, kind, HIGHLIGHT_LIMIT), since))
  {
    AttentionIsPlaced();
    assert NoDuplicates(ATTENTION) by {
      forall i, j | 0 <= i < j < |ATTENTION| ensures ATTENTION[i] != ATTENTION[j] {
        assert Place(ATTENTION[i]) == i && Place(ATTENTION[j]) == j;
      }
    }
    GatheredByKind(ATTENTION, events, since, kind);
    NewestIsNewestFirst(events, kind, HIGHLIGHT_LIMIT, since);
    HighlightsAreTheNewestTen(events, kind, HIGHLIGHT_LIMIT, since);
    ByTimeKeepsGroups(Gathered(ATTENTION, events, since), kind);
  }

  /** With events in time order, a type shows exactly the smaller of ten and its count, all its own and in the window. */
  lemma {:induction false} HighlightsAreTheNewestTen(events: seq<AuditEvent>, kind: EventKind, limit: nat, since: Instant)
    requires InTimeOrder(events)
    ensures |InWindow(Newest(events, kind, limit), since)| == Min(limit, CountSince(events, kind, since))
    ensures forall e | e in InWindow(Newest(events, kind, limit), since) :: e in events && e.kind == kind && e.createdAt >= since
    decreases |events|
  {
    if events != [] && limit > 0 {
      var before, e := events[..|events| - 1], events[|events| - 1];
      assert InTimeOrder(before);
      var left := if e.kind == kind then limit - 1 else limit;
      HighlightsAreTheNewestTen(before, kind, left, since);
      var rest := Newest(before, kind, left);
      if e.kind == kind {
        assert ([e] + rest)[1..] == rest;
        if e.createdAt < since {
          NoneBefore(before, kind, since);
        }
      }
    }
  }

  lemma {:induction false} NoneBefore(events: seq<AuditEvent>, kind: EventKind, since: Instant)
    requires forall i | 0 <= i < |events| :: events[i].createdAt < since
    ensures CountSince(events, kind, since) == 0
  {
    if events != [] {
      NoneBefore(events[..|events| - 1], kind, since);
    }
  }

  /** The four types whose events are spelled out. */
  predicate WorthSpelling(kind: EventKind) {
    kind == AccountLocked || kind == TokenReuseDetected || kind == AnomalyDetected || kind == CredentialStuffingDetected
  }

  lemma AttentionIs(kind: EventKind)
    ensures kind in ATTENTION <==> WorthSpelling(kind)
    ensures WorthSpelling(kind) ==> kind in CLASSIFIED
  {
    UnclassifiedIsHost(kind);
  }

  lemma {:induction false} InWindowHas(events: seq<AuditEvent>, since: Instant, e: AuditEvent)
    ensures e in InWindow(events, since) <==> e in events && e.createdAt >= since
  {
    if events != [] {
      InWindowHas(events[1..], since, e);
      assert events == [events[0]] + events[1..];
    }
  }

  /** An event with fewer than ten of its type behind it is among the newest ten. */
  lemma FewBehindIsShown(events: seq<AuditEvent>, kind: EventKind, since: Instant, i: nat)
    requires i < |events| && events[i].kind == kind && since <= events[i].createdAt && |Behind(events, kind, i)| < 10
    ensures events[i] in InWindow(Newest(events, kind, HIGHLIGHT_LIMIT), since)
  {
    var wanted := (e: AuditEvent) => e == events[i];
    NewestIs(events, kind, HIGHLIGHT_LIMIT, wanted);
    FollowersAre(events, kind, i);
    assert WantedAt(events, kind, HIGHLIGHT_LIMIT, wanted, i);
    InWindowHas(Newest(events, kind, HIGHLIGHT_LIMIT), since, events[i]);
  }

  /**
   What a line of the digest of a history in time order says: how many events of its type the window holds, and,
   for the four types worth it, the newest of them, ten at most, newest first.
   */
  lemma LinesOfOrderedHistory(events: seq<AuditEvent>, since: Instant, counts: Counts, line: Line)
    requires InTimeOrder(events)
    requires forall k :: k in counts <==> PositionsSince(events, k, since) != {}
    requires forall k | k in counts :: counts[k] == |PositionsSince(events, k, since)|
    requires LineFor(line.kind, counts, ByTime(Gathered(ATTENTION, events, since))) == [line]
    ensures 0 < line.count == |PositionsSince(events, line.kind, since)|
    ensures |line.details| == if WorthSpelling(line.kind) then Min(10, line.count) else 0
    ensures NewestFirst(line.details) && forall e | e in line.details :: e in events && e.kind == line.kind && since <= e.createdAt
    ensures WorthSpelling(line.kind) ==>
      forall i | i in PositionsSince(events, line.kind, since) && |Behind(events, line.kind, i)| < 10 :: events[i] in line.details
  {
    hide Newest, InWindow, ByTime, Gathered, Behind, OfKind;
    AttentionIs(line.kind);
    CountSinceIs(events, line.kind, since);
    DigestOfOrderedHistory(events, since, line.kind);
    if WorthSpelling(line.kind) {
      HighlightsAreTheNewestTen(events, line.kind, HIGHLIGHT_LIMIT, since);
      forall i | i in PositionsSince(events, line.kind, since) && |Behind(events, line.kind, i)| < 10 ensures events[i] in line.details {
        FewBehindIsShown(events, line.kind, since, i);
      }
    }
  }
}
