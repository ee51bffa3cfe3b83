/** Strings as bytes: decimal numbers, lexicographic order, splitting and joining. */
module Text {
  /** White space as unicode.IsSpace has it. */
  predicate IsSpace(c: char) {
    var n := c as int;
    || 9 <= n <= 13 || n == 0x20 || n == 0x85 || n == 0xA0 || n == 0x1680 || 0x2000 <= n <= 0x200A
    || n == 0x2028 || n == 0x2029 || n == 0x202F || n == 0x205F || n == 0x3000
  }

  /** ASCII letters in lower case, everything else as it is. */
  function ToLower(c: char): char {
    if 'A' <= c <= 'Z' then c + ' ' else c
  }

  // ----- Decimal -----

  predicate IsDigit(c: char) {
    '0' <= c <= '9'
  }

  predicate AllDigits(s: string) {
    forall i | 0 <= i < |s| :: IsDigit(s[i])
  }

  function DigitChar(d: nat): char
    requires d < 10
  {
    '0' + d as char
  }

  function DigitValue(c: char): nat
    requires IsDigit(c)
  {
    c as nat - '0' as nat
  }

  function Pow10(w: nat): nat {
    if w == 0 then 1 else 10 * Pow10(w - 1)
  }

  /** Decimal with at least `width` digits, as fmt's %0*d prints it. */
  function Padded(n: nat, width: nat): string
    decreases n, width
  {
    if n == 0 && width == 0 then ""
    else Padded(n / 10, if width == 0 then 0 else width - 1) + [DigitChar(n % 10)]
  }

  function Itoa(n: nat): string {
    Padded(n, 1)
  }

  function NumberOf(s: string): nat
    requires AllDigits(s)
  {
    if s == "" then 0 else 10 * NumberOf(s[..|s| - 1]) + DigitValue(s[|s| - 1])
  }

  lemma {:induction false} PaddedIsDecimal(n: nat, width: nat)
    ensures AllDigits(Padded(n, width)) && NumberOf(Padded(n, width)) == n
    ensures |Padded(n, width)| >= width
    ensures |Padded(n, width)| == width <==> n < Pow10(width)
    decreases n, width
  {
    if n > 0 || width > 0 {
      var w := if width == 0 then 0 else width - 1;
      PaddedIsDecimal(n / 10, w);
      var s := Padded(n, width);
      assert s[..|s| - 1] == Padded(n / 10, w);
      if width == 0 {
        assert |s| > 0;
      }
    }
  }

  /** Every digit string is the padded form of its number. */
  lemma {:induction false} DigitsArePadded(s: string)
    requires AllDigits(s)
    ensures NumberOf(s) < Pow10(|s|) && Padded(NumberOf(s), |s|) == s
  {
    if s != "" {
      var front := s[..|s| - 1];
      DigitsArePadded(front);
      assert NumberOf(s) / 10 == NumberOf(front);
      assert s == front + [s[|s| - 1]];
    }
  }

  lemma {:induction false} ZeroIsZeros(s: string)
    requires AllDigits(s)
    ensures NumberOf(s) == 0 <==> forall i | 0 <= i < |s| :: s[i] == '0'
  {
    if s != "" {
      ZeroIsZeros(s[..|s| - 1]);
    }
  }

  lemma ItoaIsDecimal(n: nat)
    ensures |Itoa(n)| > 0 && AllDigits(Itoa(n)) && NumberOf(Itoa(n)) == n
  {
    PaddedIsDecimal(n, 1);
  }

  /** ... without leading zeros. */
  lemma {:induction false} ItoaIsShort(n: nat)
    ensures n > 0 ==> Itoa(n)[0] != '0'
    ensures Itoa(0) == "0"
  {
    if n >= 10 {
      ItoaIsShort(n / 10);
      ItoaIsDecimal(n / 10);
      assert Itoa(n) == Padded(n / 10, 0) + [DigitChar(n % 10)];
      WideEnough(n / 10);
    } else {
      assert Itoa(n) == Padded(0, 0) + [DigitChar(n)];
    }
  }

  lemma WideEnough(n: nat)
    requires n > 0
    ensures Padded(n, 0) == Padded(n, 1)
  {
  }

  /** How many digits the text begins with. */
  function DigitRun(s: string): (n: nat)
    ensures n <= |s| && AllDigits(s[..n])
    ensures n < |s| ==> !IsDigit(s[n])
  {
    if s == "" || !IsDigit(s[0]) then 0 else 1 + DigitRun(s[1..])
  }

  lemma {:induction false} DigitRunOfSum(digits: string, rest: string)
    requires AllDigits(digits) && (rest == "" || !IsDigit(rest[0]))
    ensures DigitRun(digits + rest) == |digits|
  {
    if digits == "" {
      assert digits + rest == rest;
    } else {
      assert (digits + rest)[1..] == digits[1..] + rest;
      DigitRunOfSum(digits[1..], rest);
    }
  }

  // ----- Lexicographic order -----

  /** Byte-by-byte comparison, a proper prefix first. */
  predicate Before(a: string, b: string) {
    b != "" && (a == "" || a[0] < b[0] || (a[0] == b[0] && Before(a[1..], b[1..])))
  }

  lemma {:induction false} BeforeAfterCommonLength(a: string, b: string, a': string, b': string)
    requires |a| == |b|
    ensures Before(a + a', b + b') <==> Before(a, b) || (a == b && Before(a', b'))
  {
    if a == "" {
      assert a + a' == a' && b + b' == b';
    } else {
      assert (a + a')[1..] == a[1..] + a' && (b + b')[1..] == b[1..] + b';
      BeforeAfterCommonLength(a[1..], b[1..], a', b');
      assert a == b <==> a[0] == b[0] && a[1..] == b[1..];
    }
  }

  lemma {:induction false} BeforeIsIrreflexive(a: string)
    ensures !Before(a, a)
  {
    if a != "" {
      BeforeIsIrreflexive(a[1..]);
    }
  }

  lemma LastDigitOrder(a: string, b: string, x: nat, y: nat)
    requires |a| == |b| && x < 10 && y < 10
    ensures Before(a + [DigitChar(x)], b + [DigitChar(y)]) <==> Before(a, b) || (a == b && x < y)
    ensures a + [DigitChar(x)] == b + [DigitChar(y)] <==> a == b && x == y
  {
    BeforeAfterCommonLength(a, b, [DigitChar(x)], [DigitChar(y)]);
    assert (a + [DigitChar(x)])[..|a|] == a && (b + [DigitChar(y)])[..|a|] == b;
    assert (a + [DigitChar(x)])[|a|] == DigitChar(x) && (b + [DigitChar(y)])[|a|] == DigitChar(y);
  }

  /** Equal widths: the order of the digit strings is the order of the numbers. */
  lemma {:induction false} PaddedOrder(m: nat, n: nat, width: nat)
    requires m < Pow10(width) && n < Pow10(width)
    ensures Before(Padded(m, width), Padded(n, width)) <==> m < n
    ensures Padded(m, width) == Padded(n, width) <==> m == n
  {
    if width > 0 {
      var a, b := m / 10, n / 10;
      assert m == 10 * a + m % 10 && n == 10 * b + n % 10;
      PaddedOrder(a, b, width - 1);
      PaddedIsDecimal(a, width - 1);
      PaddedIsDecimal(b, width - 1);
      LastDigitOrder(Padded(a, width - 1), Padded(b, width - 1), m % 10, n % 10);
      assert Padded(m, width) == Padded(a, width - 1) + [DigitChar(m % 10)];
      assert Padded(n, width) == Padded(b, width - 1) + [DigitChar(n % 10)];
    }
  }

  // ----- Splitting and joining -----

  /** strings.Split on one separator character. */
  function Split(s: string, sep: char): (parts: seq<string>)
    ensures |parts| > 0
  {
    if s == "" then [""]
    else
      var rest := Split(s[1..], sep);
      if s[0] == sep then [""] + rest else [[s[0]] + rest[0]] + rest[1..]
  }

  /** strings.Join. */
  function Join(parts: seq<string>, sep: string): string {
    if |parts| == 0 then ""
    else if |parts| == 1 then parts[0]
    else parts[0] + sep + Join(parts[1..], sep)
  }

  lemma {:induction false} SplitOne(s: string, sep: char)
    requires sep !in s
    ensures Split(s, sep) == [s]
  {
    if s != "" {
      SplitOne(s[1..], sep);
      assert s == [s[0]] + s[1..];
    }
  }

  lemma {:induction false} SplitFirst(s: string, sep: char, rest: string)
    requires sep !in s
    ensures Split(s + [sep] + rest, sep) == [s] + Split(rest, sep)
  {
    var t := s + [sep] + rest;
    if s == "" {
      assert t[1..] == rest;
    } else {
      SplitFirst(s[1..], sep, rest);
      assert t[1..] == s[1..] + [sep] + rest;
      assert s == [s[0]] + s[1..];
    }
  }

  lemma {:induction false} SplitOfJoin(parts: seq<string>, sep: char)
    requires |parts| > 0 && forall i | 0 <= i < |parts| :: sep !in parts[i]
    ensures Split(Join(parts, [sep]), sep) == parts
  {
    if |parts| == 1 {
      SplitOne(parts[0], sep);
      assert parts == [parts[0]];
    } else {
      var rest := parts[1..];
      assert forall i | 0 <= i < |rest| :: rest[i] == parts[i + 1];
      SplitOfJoin(rest, sep);
      SplitFirst(parts[0], sep, Join(rest, [sep]));
      assert parts == [parts[0]] + rest;
    }
  }

  lemma {:induction false} JoinOfSplit(s: string, sep: char)
    ensures Join(Split(s, sep), [sep]) == s
  {
    if s != "" {
      var rest := Split(s[1..], sep);
      JoinOfSplit(s[1..], sep);
      assert s == [s[0]] + s[1..];
      if s[0] == sep {
        assert ([""] + rest)[1..] == rest;
      } else {
        assert ([[s[0]] + rest[0]] + rest[1..])[1..] == rest[1..];
      }
    }
  }

  lemma {:induction false} JoinOfSum(a: seq<string>, b: seq<string>, sep: string)
    requires |a| > 0 && |b| > 0
    ensures Join(a + b, sep) == Join(a, sep) + sep + Join(b, sep)
  {
    if |a| == 1 {
      assert (a + b)[1..] == b;
    } else {
      JoinOfSum(a[1..], b, sep);
      assert (a + b)[1..] == a[1..] + b;
    }
  }
}
