/** Base64 without padding (sections 3.2 and 4 of RFC 4648), read as encoding/base64 reads it. */
module Base64 {
  import opened Wrappers

  function Symbol(v: nat): char
    requires v < 64
  {
    if v < 26 then 'A' + v as char
    else if v < 52 then 'a' + (v - 26) as char
    else if v < 62 then '0' + (v - 52) as char
    else if v == 62 then '+'
    else '/'
  }

  function Value(c: char): Option<nat> {
    if 'A' <= c <= 'Z' then Some((c as int - 'A' as int) as nat)
    else if 'a' <= c <= 'z' then Some((c as int - 'a' as int + 26) as nat)
    else if '0' <= c <= '9' then Some((c as int - '0' as int + 52) as nat)
    else if c == '+' then Some(62)
    else if c == '/' then Some(63)
    else None
  }

  lemma ValueOfSymbol(v: nat)
    requires v < 64
    ensures Value(Symbol(v)) == Some(v)
  {
  }

  lemma SymbolOfValue(c: char)
    requires Value(c).Some?
    ensures Value(c).value < 64 && Symbol(Value(c).value) == c
  {
  }

  predicate Sixes(v: seq<nat>) {
    forall i | 0 <= i < |v| :: v[i] < 64
  }

  function Symbols(v: seq<nat>): string
    requires Sixes(v)
  {
    seq(|v|, i requires 0 <= i < |v| => Symbol(v[i]))
  }

  /** The four six-bit values of three bytes. */
  function GroupOf(x: Byte, y: Byte, z: Byte): (v: seq<nat>)
    ensures |v| == 4 && Sixes(v)
  {
    [x / 4, x % 4 * 16 + y / 16, y % 16 * 4 + z / 64, z % 64]
  }

  /** One or two bytes left over make two or three values, filled up with zero bits. */
  function Groups(b: seq<Byte>): (v: seq<nat>)
    ensures Sixes(v)
  {
    if |b| == 0 then []
    else if |b| == 1 then GroupOf(b[0], 0, 0)[..2]
    else if |b| == 2 then GroupOf(b[0], b[1], 0)[..3]
    else GroupOf(b[0], b[1], b[2]) + Groups(b[3..])
  }

  function Encode(b: seq<Byte>): string {
    Symbols(Groups(b))
  }

  /** Line breaks are skipped before anything else. */
  function WithoutBreaks(s: string): string {
    if s == "" then ""
    else (if s[0] == '\r' || s[0] == '\n' then "" else [s[0]]) + WithoutBreaks(s[1..])
  }

  predicate Alphabet(s: string) {
    forall i | 0 <= i < |s| :: Value(s[i]).Some?
  }

  function Values(s: string): Option<seq<nat>> {
    if Alphabet(s) then Some(seq(|s|, i requires 0 <= i < |s| => Value(s[i]).value)) else None
  }

  /** The three bytes of four values. */
  function BytesOf(v0: nat, v1: nat, v2: nat, v3: nat): (b: seq<Byte>)
    ensures |b| == 3
  {
    [(v0 * 4 + v1 / 16) % 256, (v1 * 16 + v2 / 4) % 256, (v2 * 64 + v3) % 256]
  }

  /** Four values make three bytes; a group of two or three leaves bits over, which are ignored. */
  function Assemble(v: seq<nat>): Option<seq<Byte>> {
    if |v| == 0 then Some([])
    else if |v| == 1 then None
    else if |v| == 2 then Some(BytesOf(v[0], v[1], 0, 0)[..1])
    else if |v| == 3 then Some(BytesOf(v[0], v[1], v[2], 0)[..2])
    else
      match Assemble(v[4..])
      case None => None
      case Some(rest) => Some(BytesOf(v[0], v[1], v[2], v[3]) + rest)
  }

  function Decode(s: string): Option<seq<Byte>> {
    match Values(WithoutBreaks(s))
    case None => None
    case Some(v) => Assemble(v)
  }

  // ----- Text and values -----

  lemma {:induction false} AlphabetHasNoBreaks(s: string)
    requires Alphabet(s)
    ensures WithoutBreaks(s) == s
  {
    if s != "" {
      AlphabetHasNoBreaks(s[1..]);
      assert Value(s[0]).Some?;
      assert s == [s[0]] + s[1..];
    }
  }

  lemma ValuesOfSymbols(v: seq<nat>)
    requires Sixes(v)
    ensures Alphabet(Symbols(v)) && Values(Symbols(v)) == Some(v)
  {
    forall i | 0 <= i < |v| ensures Value(Symbols(v)[i]) == Some(v[i]) {
      ValueOfSymbol(v[i]);
    }
    assert Values(Symbols(v)).value == v;
  }

  lemma SymbolsOfValues(s: string)
    requires Alphabet(s)
    ensures Sixes(Values(s).value) && Symbols(Values(s).value) == s
  {
    forall i | 0 <= i < |s| ensures Values(s).value[i] < 64 && Symbol(Values(s).value[i]) == s[i] {
      SymbolOfValue(s[i]);
    }
  }

  lemma EncodeIsAlphabet(b: seq<Byte>)
    ensures Alphabet(Encode(b))
    ensures Encode(b) == "" <==> b == []
  {
    ValuesOfSymbols(Groups(b));
  }

  // ----- Decoding what was encoded -----

  /** Three bytes fall apart into four values and come back. */
  lemma BytesOfGroup(x: Byte, y: Byte, z: Byte)
    ensures var v := GroupOf(x, y, z); BytesOf(v[0], v[1], v[2], v[3]) == [x, y, z]
  {
    FirstByte(x, y);
    SecondByte(x, y, z);
    ThirdByte(y, z);
  }

  lemma Joins(x: Byte, m: nat)
    requires m == 4 || m == 16 || m == 64
    ensures x / m * m + x % m == x
  {
  }

  lemma FirstByte(x: Byte, y: Byte)
    ensures (x / 4 * 4 + (x % 4 * 16 + y / 16) / 16) % 256 == x
  {
    Joins(x, 4);
    assert (x % 4 * 16 + y / 16) / 16 == x % 4;
  }

  lemma SecondByte(x: Byte, y: Byte, z: Byte)
    ensures ((x % 4 * 16 + y / 16) * 16 + (y % 16 * 4 + z / 64) / 4) % 256 == y
  {
    Joins(y, 16);
    assert (y % 16 * 4 + z / 64) / 4 == y % 16;
    assert (x % 4 * 16 + y / 16) * 16 + y % 16 == x % 4 * 256 + y;
  }

  lemma ThirdByte(y: Byte, z: Byte)
    ensures ((y % 16 * 4 + z / 64) * 64 + z % 64) % 256 == z
  {
    Joins(z, 64);
    assert (y % 16 * 4 + z / 64) * 64 + z % 64 == y % 16 * 256 + z;
  }

  lemma {:induction false} AssembleOfGroups(b: seq<Byte>)
    ensures Assemble(Groups(b)) == Some(b)
  {
    hide GroupOf, BytesOf;
    if |b| == 0 {
    } else if |b| == 1 {
      BytesOfGroup(b[0], 0, 0);
      LeftOver(b[0], 0);
      assert [b[0], 0, 0][..1] == [b[0]] == b;
    } else if |b| == 2 {
      BytesOfGroup(b[0], b[1], 0);
      LeftOver(b[0], b[1]);
      assert [b[0], b[1], 0][..2] == [b[0], b[1]] == b;
    } else {
      BytesOfGroup(b[0], b[1], b[2]);
      AssembleOfGroups(b[3..]);
      assert Groups(b)[4..] == Groups(b[3..]);
      assert b == [b[0], b[1], b[2]] + b[3..];
    }
  }

  /** The values that are not written are zero. */
  lemma LeftOver(x: Byte, y: Byte)
    ensures GroupOf(x, y, 0)[3] == 0 && GroupOf(x, 0, 0)[2] == 0
  {
  }

  lemma DecodeOfEncode(b: seq<Byte>)
    ensures Decode(Encode(b)) == Some(b)
  {
    ValuesOfSymbols(Groups(b));
    AlphabetHasNoBreaks(Encode(b));
    AssembleOfGroups(b);
  }

  // ----- Encoding what was decoded -----

  /** The bits beyond the last whole byte are zero. */
  predicate SpareBitsZero(v: seq<nat>) {
    (|v| % 4 == 2 ==> v[|v| - 1] % 16 == 0) && (|v| % 4 == 3 ==> v[|v| - 1] % 4 == 0)
  }

  /** No line breaks, and no bits set beyond the last whole byte. */
  predicate Canonical(s: string) {
    Values(s).Some? && SpareBitsZero(Values(s).value)
  }

  lemma {:induction false} GroupsSpareNoBits(b: seq<Byte>)
    ensures SpareBitsZero(Groups(b))
  {
    if |b| > 2 {
      hide GroupOf;
      GroupsSpareNoBits(b[3..]);
      var rest := Groups(b[3..]);
      assert Groups(b) == GroupOf(b[0], b[1], b[2]) + rest;
      assert rest != [] ==> Groups(b)[|Groups(b)| - 1] == rest[|rest| - 1];
    } else if |b| > 0 {
      ShortSpareNoBits(b[0], if |b| == 2 then b[1] else 0);
    }
  }

  lemma ShortSpareNoBits(x: Byte, y: Byte)
    ensures GroupOf(x, 0, 0)[1] % 16 == 0 && GroupOf(x, y, 0)[2] % 4 == 0
  {
  }

  lemma UpperByte(v0: nat, v1: nat)
    requires v0 < 64 && v1 < 64
    ensures var x := (v0 * 4 + v1 / 16) % 256; x / 4 == v0 && x % 4 == v1 / 16
  {
    assert v0 * 4 + v1 / 16 < 256;
  }

  lemma MiddleByte(v1: nat, v2: nat)
    requires v1 < 64 && v2 < 64
    ensures var y := (v1 * 16 + v2 / 4) % 256; y / 16 == v1 % 16 && y % 16 == v2 / 4
  {
    assert v1 * 16 == v1 / 16 * 256 + v1 % 16 * 16;
    assert (v1 * 16 + v2 / 4) % 256 == v1 % 16 * 16 + v2 / 4;
  }

  lemma LowerByte(v2: nat, v3: nat)
    requires v2 < 64 && v3 < 64
    ensures var z := (v2 * 64 + v3) % 256; z / 64 == v2 % 4 && z % 64 == v3
  {
    assert v2 * 64 == v2 / 4 * 256 + v2 % 4 * 64;
    assert (v2 * 64 + v3) % 256 == v2 % 4 * 64 + v3;
  }

  /** Four values make three bytes, which fall apart into them again. */
  lemma GroupOfBytes(v0: nat, v1: nat, v2: nat, v3: nat)
    requires v0 < 64 && v1 < 64 && v2 < 64 && v3 < 64
    ensures var b := BytesOf(v0, v1, v2, v3); GroupOf(b[0], b[1], b[2]) == [v0, v1, v2, v3]
  {
    hide GroupOf;
    UpperByte(v0, v1);
    MiddleByte(v1, v2);
    LowerByte(v2, v3);
    GroupFromParts(BytesOf(v0, v1, v2, v3), v0, v1, v2, v3);
  }

  /** Bytes whose parts are those of four values are grouped into them. */
  lemma GroupFromParts(b: seq<Byte>, v0: nat, v1: nat, v2: nat, v3: nat)
    requires |b| == 3
    requires b[0] / 4 == v0 && b[0] % 4 == v1 / 16 && b[1] / 16 == v1 % 16 && b[1] % 16 == v2 / 4
    requires b[2] / 64 == v2 % 4 && b[2] % 64 == v3
    ensures GroupOf(b[0], b[1], b[2]) == [v0, v1, v2, v3]
  {
    assert v1 / 16 * 16 + v1 % 16 == v1 && v2 / 4 * 4 + v2 % 4 == v2;
  }

  /** With no bits to spare the bytes not written are zero. */
  lemma NothingSpare(v0: nat, v1: nat, v2: nat)
    ensures v1 % 16 == 0 ==> BytesOf(v0, v1, 0, 0)[1] == 0
    ensures v2 % 4 == 0 ==> BytesOf(v0, v1, v2, 0)[2] == 0
    ensures BytesOf(v0, v1, 0, 0)[2] == 0
  {
  }

  lemma GroupsOfShort(v: seq<nat>)
    requires Sixes(v) && (|v| == 2 || |v| == 3) && SpareBitsZero(v)
    ensures Groups(Assemble(v).value) == v
  {
    hide GroupOf, BytesOf;
    var v2 := if |v| == 2 then 0 else v[2];
    GroupOfBytes(v[0], v[1], v2, 0);
    NothingSpare(v[0], v[1], v2);
    assert v == [v[0], v[1], v2, 0][..|v|];
  }

  lemma {:induction false} GroupsOfAssemble(v: seq<nat>)
    requires Sixes(v) && Assemble(v).Some? && SpareBitsZero(v)
    ensures Groups(Assemble(v).value) == v
  {
    hide GroupOf, BytesOf;
    if |v| == 0 {
    } else if |v| <= 3 {
      GroupsOfShort(v);
    } else {
      GroupOfBytes(v[0], v[1], v[2], v[3]);
      assert v[4..] != [] ==> v[4..][|v| - 5] == v[|v| - 1];
      GroupsOfAssemble(v[4..]);
      assert Assemble(v).value[3..] == Assemble(v[4..]).value;
      assert v == [v[0], v[1], v[2], v[3]] + v[4..];
    }
  }

  /** Encoding what was decoded gives the text back exactly when the text is canonical. */
  lemma EncodeOfDecode(s: string)
    requires Decode(s).Some?
    ensures Encode(Decode(s).value) == s <==> Canonical(s)
  {
    var b := Decode(s).value;
    if Encode(b) == s {
      ValuesOfSymbols(Groups(b));
      GroupsSpareNoBits(b);
    } else if Canonical(s) {
      AlphabetHasNoBreaks(s);
      SymbolsOfValues(s);
      GroupsOfAssemble(Values(s).value);
      assert false;
    }
  }

  // ----- The code as RFC 4648 has it -----

  /** Table 1 of section 4. */
  const UPPER := "ABCDEFGHIJKLMNOPQRSTUVWXYZ"
  const LOWER := "abcdefghijklmnopqrstuvwxyz"
  const ALPHABET := UPPER + LOWER + "0123456789" + "+/"

  lemma SymbolsAreTheAlphabet(v: nat)
    requires v < 64
    ensures |ALPHABET| == 64 && Symbol(v) == ALPHABET[v]
  {
    if v < 26 {
      Uppercase(v);
    } else if v < 52 {
      Lowercase(v - 26);
    } else if v < 62 {
      Figures(v - 52);
    }
  }

  lemma Uppercase(i: nat)
    requires i < 26
    ensures UPPER[i] == 'A' + i as char
  {
  }

  lemma Lowercase(i: nat)
    requires i < 26
    ensures LOWER[i] == 'a' + i as char
  {
  }

  lemma Figures(i: nat)
    requires i < 10
    ensures "0123456789"[i] == '0' + i as char
  {
  }

  /** Three bytes and their four values are one 24-bit number, its first digit the most significant. */
  lemma GroupIsOneNumber(x: Byte, y: Byte, z: Byte)
    ensures var v := GroupOf(x, y, z);
      v[0] * 262144 + v[1] * 4096 + v[2] * 64 + v[3] == x * 65536 + y * 256 + z
  {
    Joins(x, 4);
    Joins(y, 16);
    Joins(z, 64);
  }

  function InAlphabet(v: seq<nat>): string
    requires |v| == 4 && Sixes(v)
  {
    [ALPHABET[v[0]], ALPHABET[v[1]], ALPHABET[v[2]], ALPHABET[v[3]]]
  }

  /** What stands from position `at` on is the group that begins with byte i, as if zeros followed the last byte. */
  ghost predicate GroupStandsAt(b: seq<Byte>, i: nat, at: nat)
    requires i < |b|
  {
    var text := InAlphabet(GroupOf(b[i], if i + 1 < |b| then b[i + 1] else 0, if i + 2 < |b| then b[i + 2] else 0));
    && at <= |Encode(b)|
    && if |b| - i >= 3 then text <= Encode(b)[at..] else Encode(b)[at..] == text[..|b| - i + 1]
  }

  lemma SymbolsInAlphabet(v: seq<nat>)
    requires |v| == 4 && Sixes(v)
    ensures Symbols(v) == InAlphabet(v)
  {
    hide Symbol;
    SymbolsAreTheAlphabet(v[0]);
    SymbolsAreTheAlphabet(v[1]);
    SymbolsAreTheAlphabet(v[2]);
    SymbolsAreTheAlphabet(v[3]);
  }

  lemma FirstGroup(b: seq<Byte>)
    requires b != []
    ensures GroupStandsAt(b, 0, 0)
    ensures |b| >= 3 ==> Encode(b) == InAlphabet(GroupOf(b[0], b[1], b[2])) + Encode(b[3..])
  {
    hide GroupOf, Symbol, InAlphabet;
    var v := GroupOf(b[0], if 1 < |b| then b[1] else 0, if 2 < |b| then b[2] else 0);
    SymbolsInAlphabet(v);
    assert Encode(b)[0..] == Encode(b);
    if |b| < 3 {
      assert Symbols(v)[..|b| + 1] == Symbols(v[..|b| + 1]);
    } else {
      assert Symbols(v + Groups(b[3..])) == Symbols(v) + Symbols(Groups(b[3..]));
    }
  }

  /** Every three bytes are four characters; one or two bytes left over at the end are two or three. */
  lemma {:induction false} TextIs(b: seq<Byte>, k: nat)
    requires 3 * k < |b|
    ensures GroupStandsAt(b, 3 * k, 4 * k)
    decreases k
  {
    FirstGroup(b);
    if k > 0 {
      hide GroupOf, Encode, InAlphabet;
      TextIs(b[3..], k - 1);
      assert Encode(b)[4 * k..] == Encode(b[3..])[4 * (k - 1)..];
    }
  }

  predicate IsBreak(c: char) {
    c == '\r' || c == '\n'
  }

  lemma InTheAlphabet(c: char)
    ensures Value(c).Some? <==> c in ALPHABET
  {
    if Value(c).Some? {
      SymbolOfValue(c);
      SymbolsAreTheAlphabet(Value(c).value);
    } else if c in ALPHABET {
      var i :| 0 <= i < |ALPHABET| && ALPHABET[i] == c;
      SymbolsAreTheAlphabet(i);
      ValueOfSymbol(i);
      assert false;
    }
  }

  lemma {:induction false} BreaksAreSkipped(s: string)
    ensures forall c :: c in WithoutBreaks(s) <==> c in s && !IsBreak(c)
  {
    if s != "" {
      BreaksAreSkipped(s[1..]);
      assert s == [s[0]] + s[1..];
    }
  }

  lemma {:induction false} AssemblesIff(v: seq<nat>)
    ensures Assemble(v).Some? <==> |v| % 4 != 1
  {
    if |v| >= 4 {
      AssemblesIff(v[4..]);
    }
  }

  /** What decodes: characters of the alphabet and line breaks, and no lone character left over. */
  lemma DecodableIff(s: string)
    ensures Decode(s).Some? <==> (forall c | c in s :: c in ALPHABET || IsBreak(c)) && |WithoutBreaks(s)| % 4 != 1
    ensures Decode(s) == Decode(WithoutBreaks(s))
  {
    var t := WithoutBreaks(s);
    BreaksAreSkipped(s);
    forall c ensures Value(c).Some? <==> c in ALPHABET {
      InTheAlphabet(c);
    }
    assert Alphabet(t) <==> forall c | c in t :: Value(c).Some?;
    assert forall c | IsBreak(c) :: Value(c).None?;
    if Alphabet(t) {
      AssemblesIff(Values(t).value);
    }
    NothingSkipped(t);
  }

  lemma {:induction false} NothingSkipped(s: string)
    requires forall c | c in s :: !IsBreak(c)
    ensures WithoutBreaks(s) == s
  {
    if s != "" {
      assert s[0] in s && s == [s[0]] + s[1..];
      NothingSkipped(s[1..]);
    }
  }
}
