/** The PHC string of an Argon2id hash: printing it, and the parser that reads it back. */
module Argon2 {
  import opened Wrappers
  import opened Text
  import opened Base64

  const MAX_UINT8 := 0xff
  const MAX_UINT32 := 0xffff_ffff
  const MAX_INT64 := 0x7fff_ffff_ffff_ffff
  const MAX_MEMORY := 4 * 1024 * 1024
  const VERSION := 19

  datatype Params = Params(memory: nat, iterations: nat, parallelism: nat, saltLength: nat, keyLength: nat)

  /** The widths of the fields: uint32, but uint8 for parallelism. */
  predicate InWidth(p: Params) {
    && p.memory <= MAX_UINT32 && p.iterations <= MAX_UINT32 && p.parallelism <= MAX_UINT8
    && p.saltLength <= MAX_UINT32 && p.keyLength <= MAX_UINT32
  }

  /** validate: what a hasher may be configured with. */
  predicate Validates(p: Params) {
    && p.iterations >= 1 && p.parallelism >= 1
    && 8 * p.parallelism <= p.memory <= MAX_MEMORY
    && p.saltLength >= 8 && p.keyLength >= 16
  }

  datatype HashError = Malformed | UnsupportedVersion

  datatype Decoded = Decoded(params: Params, salt: seq<Byte>, key: seq<Byte>)

  function EncodeParams(p: Params): string {
    "m=" + Itoa(p.memory) + (",t=" + Itoa(p.iterations) + (",p=" + Itoa(p.parallelism)))
  }

  /** The six parts a hash is split into at its dollar signs. */
  function HashParts(p: Params, salt: seq<Byte>, key: seq<Byte>): seq<string> {
    ["", "argon2id", "v=" + Itoa(VERSION), EncodeParams(p), Encode(salt), Encode(key)]
  }

  function EncodeHash(p: Params, salt: seq<Byte>, key: seq<Byte>): string {
    Join(HashParts(p, salt, key), "$")
  }

  // ----- fmt.Sscanf, for %d and literal text -----

  /** Space that a number may stand behind; a line break is an error there. */
  predicate IsScanSpace(c: char) {
    IsSpace(c) && c != '\n'
  }

  function SkipSpaces(s: string): string {
    if s != "" && IsScanSpace(s[0]) then SkipSpaces(s[1..]) else s
  }

  /** %d into an unsigned integer: as many digits as there are, and the value must fit. */
  function ScanUint(s: string, max: nat): Option<(nat, string)> {
    var t := SkipSpaces(s);
    var n := DigitRun(t);
    if n == 0 || NumberOf(t[..n]) > max then None else Some((NumberOf(t[..n]), t[n..]))
  }

  /** %d into an int: a sign is allowed. */
  function ScanInt(s: string): Option<int> {
    var t := SkipSpaces(s);
    if t != "" && (t[0] == '-' || t[0] == '+') then
      match ScanDigits(t[1..], if t[0] == '-' then MAX_INT64 + 1 else MAX_INT64)
      case None => None
      case Some(v) => Some(if t[0] == '-' then 0 - v else v)
    else ScanDigits(t, MAX_INT64)
  }

  function ScanDigits(t: string, max: nat): (r: Option<int>)
    ensures r.Some? ==> r.value >= 0
  {
    var n := DigitRun(t);
    if n == 0 || NumberOf(t[..n]) > max then None else Some(NumberOf(t[..n]))
  }

  function ScanLiteral(s: string, literal: string): Option<string> {
    if literal <= s then Some(s[|literal|..]) else None
  }

  /** A field: literal text, then a number. */
  function ScanField(s: string, literal: string, max: nat): Option<(nat, string)> {
    match ScanLiteral(s, literal)
    case None => None
    case Some(rest) => ScanUint(rest, max)
  }

  /** Sscanf with "m=%d,t=%d,p=%d"; what follows is not looked at. */
  function ScanParams(s: string): Option<Params> {
    match ScanField(s, "m=", MAX_UINT32)
    case None => None
    case Some((m, s1)) =>
      match ScanField(s1, ",t=", MAX_UINT32)
      case None => None
      case Some((t, s2)) =>
        match ScanField(s2, ",p=", MAX_UINT8)
        case None => None
        case Some((p, _)) => Some(Params(m, t, p, 0, 0))
  }

  function ScanVersion(s: string): Option<int> {
    match ScanLiteral(s, "v=")
    case None => None
    case Some(rest) => ScanInt(rest)
  }

  /** decodeArgon2idHash. */
  function DecodeHash(hash: string): Result<Decoded, HashError> {
    DecodeParts(Split(hash, '$'))
  }

  function DecodeParts(parts: seq<string>): Result<Decoded, HashError> {
    if |parts| != 6 || parts[0] != "" || parts[1] != "argon2id" then Err(Malformed)
    else
      match ScanVersion(parts[2])
      case None => Err(Malformed)
      case Some(version) =>
        if version != VERSION then Err(UnsupportedVersion)
        else
          match ScanParams(parts[3])
          case None => Err(Malformed)
          case Some(p) =>
            if EncodeParams(p) != parts[3] || !Usable(p) then Err(Malformed)
            else DecodeSecrets(p, Decode(parts[4]), Decode(parts[5]))
  }

  /** The lengths are observed, and stored as uint32. */
  function DecodeSecrets(p: Params, salt: Option<seq<Byte>>, key: Option<seq<Byte>>): Result<Decoded, HashError> {
    if salt.None? || salt.value == [] || key.None? || key.value == [] then Err(Malformed)
    else Ok(Decoded(p.(saltLength := AsUint32(|salt.value|), keyLength := AsUint32(|key.value|)), salt.value, key.value))
  }

  function AsUint32(n: nat): nat {
    n % (MAX_UINT32 + 1)
  }

  /** The bounds the decoder itself insists on, weaker than validate. */
  predicate Usable(p: Params) {
    p.iterations >= 1 && p.parallelism >= 1 && p.memory <= MAX_MEMORY
  }

  // ----- Scanning what was printed -----

  lemma ScanPrinted(literal: string, n: nat, rest: string, max: nat)
    requires n <= max && (rest == "" || !IsDigit(rest[0]))
    ensures ScanField(literal + Itoa(n) + rest, literal, max) == Some((n, rest))
  {
    var digits := Itoa(n);
    ItoaIsDecimal(n);
    assert (literal + digits + rest)[|literal|..] == digits + rest;
    assert (digits + rest)[0] == digits[0] && IsDigit(digits[0]);
    DigitRunOfSum(digits, rest);
    assert (digits + rest)[..|digits|] == digits && (digits + rest)[|digits|..] == rest;
  }

  lemma ScanOfEncodeParams(p: Params)
    requires InWidth(p)
    ensures ScanParams(EncodeParams(p)) == Some(Params(p.memory, p.iterations, p.parallelism, 0, 0))
  {
    var s2 := ",p=" + Itoa(p.parallelism);
    var s1 := ",t=" + Itoa(p.iterations) + s2;
    ScanPrinted("m=", p.memory, s1, MAX_UINT32);
    ScanPrinted(",t=", p.iterations, s2, MAX_UINT32);
    ScanPrinted(",p=", p.parallelism, "", MAX_UINT8);
    assert s2 + "" == s2;
  }

  /** The parameter text is injective in memory, iterations and parallelism. */
  lemma ParamsTextIsInjective(p: Params, q: Params)
    requires InWidth(p) && InWidth(q) && EncodeParams(p) == EncodeParams(q)
    ensures p.memory == q.memory && p.iterations == q.iterations && p.parallelism == q.parallelism
  {
    ScanOfEncodeParams(p);
    ScanOfEncodeParams(q);
  }

  lemma ScanIntPrinted(n: nat, junk: string)
    requires n <= MAX_INT64 && (junk == "" || !IsDigit(junk[0]))
    ensures ScanInt(Itoa(n) + junk) == Some(n)
  {
    var digits := Itoa(n);
    ItoaIsDecimal(n);
    var s := digits + junk;
    assert s[0] == digits[0] && IsDigit(digits[0]);
    DigitRunOfSum(digits, junk);
    assert s[..|digits|] == digits;
    assert ScanDigits(s, MAX_INT64) == Some(n);
  }

  lemma ScanOfVersion(junk: string)
    requires junk == "" || !IsDigit(junk[0])
    ensures ScanVersion("v=" + Itoa(VERSION) + junk) == Some(VERSION)
  {
    ScanVersionPrinted(VERSION, junk);
  }

  lemma ScanVersionPrinted(n: nat, junk: string)
    requires n <= MAX_INT64
    requires junk == "" || !IsDigit(junk[0])
    ensures ScanVersion("v=" + Itoa(n) + junk) == Some(n)
  {
    ScanIntPrinted(n, junk);
    var s := "v=" + Itoa(n) + junk;
    assert s[..2] == "v=" && s[2..] == Itoa(n) + junk;
  }

  lemma NoDollars(p: Params, salt: seq<Byte>, key: seq<Byte>)
    ensures forall i | 0 <= i < 6 :: '$' !in HashParts(p, salt, key)[i]
  {
    NumbersHaveNoDollars(p.memory);
    NumbersHaveNoDollars(p.iterations);
    NumbersHaveNoDollars(p.parallelism);
    NumbersHaveNoDollars(VERSION);
    EncodeIsAlphabet(salt);
    EncodeIsAlphabet(key);
    assert forall i | 0 <= i < |Encode(salt)| :: Value(Encode(salt)[i]).Some?;
    assert forall i | 0 <= i < |Encode(key)| :: Value(Encode(key)[i]).Some?;
    assert Value('$').None?;
    assert '$' !in Encode(salt) && '$' !in Encode(key);
    assert '$' !in "argon2id" && '$' !in "v=" + Itoa(VERSION);
    assert '$' !in EncodeParams(p);
  }

  lemma NumbersHaveNoDollars(n: nat)
    ensures '$' !in Itoa(n)
  {
    ItoaIsDecimal(n);
    assert forall i | 0 <= i < |Itoa(n)| :: IsDigit(Itoa(n)[i]);
  }

  /** What decoding an encoded hash gives, for every parameter set, salt and key. */
  lemma DecodeOfEncodeHash(p: Params, salt: seq<Byte>, key: seq<Byte>)
    requires InWidth(p) && |salt| <= MAX_UINT32 && |key| <= MAX_UINT32
    ensures DecodeHash(EncodeHash(p, salt, key)) ==
      if Usable(p) && salt != [] && key != []
      then Ok(Decoded(p.(saltLength := |salt|, keyLength := |key|), salt, key))
      else Err(Malformed)
  {
    var parts := HashParts(p, salt, key);
    assert Split(EncodeHash(p, salt, key), '$') == parts by {
      NoDollars(p, salt, key);
      SplitOfJoin(parts, '$');
    }
    assert ScanVersion(parts[2]) == Some(VERSION) by {
      ScanOfVersion("");
      assert "v=" + Itoa(VERSION) + "" == parts[2];
    }
    assert ScanParams(parts[3]) == Some(Params(p.memory, p.iterations, p.parallelism, 0, 0)) by {
      ScanOfEncodeParams(p);
    }
    assert Decode(parts[4]) == Some(salt) && Decode(parts[5]) == Some(key) by {
      DecodeOfEncode(salt);
      DecodeOfEncode(key);
    }
    DecodePartsOf(parts, p, salt, key);
  }

  lemma DecodePartsOf(parts: seq<string>, p: Params, salt: seq<Byte>, key: seq<Byte>)
    requires |parts| == 6 && parts[0] == "" && parts[1] == "argon2id"
    requires ScanVersion(parts[2]) == Some(VERSION)
    requires ScanParams(parts[3]) == Some(Params(p.memory, p.iterations, p.parallelism, 0, 0)) && EncodeParams(p) == parts[3]
    requires Decode(parts[4]) == Some(salt) && Decode(parts[5]) == Some(key)
    requires |salt| <= MAX_UINT32 && |key| <= MAX_UINT32
    ensures DecodeParts(parts) ==
      if Usable(p) && salt != [] && key != []
      then Ok(Decoded(p.(saltLength := |salt|, keyLength := |key|), salt, key))
      else Err(Malformed)
  {
    var scanned := Params(p.memory, p.iterations, p.parallelism, 0, 0);
    assert EncodeParams(scanned) == EncodeParams(p) && Usable(scanned) == Usable(p);
    assert DecodeParts(parts) == if Usable(p) then DecodeSecrets(scanned, Decode(parts[4]), Decode(parts[5])) else Err(Malformed);
    SmallLengths(|salt|, |key|);
  }

  lemma SmallLengths(m: nat, n: nat)
    requires m <= MAX_UINT32 && n <= MAX_UINT32
    ensures AsUint32(m) == m && AsUint32(n) == n
  {
  }

  /** The round trip, for every parameter set that validates with matching lengths, and exactly when. */
  lemma RoundTrip(p: Params, salt: seq<Byte>, key: seq<Byte>)
    requires InWidth(p) && |salt| <= MAX_UINT32 && |key| <= MAX_UINT32
    ensures DecodeHash(EncodeHash(p, salt, key)) == Ok(Decoded(p, salt, key))
      <==> Usable(p) && 0 < |salt| == p.saltLength && 0 < |key| == p.keyLength
    ensures Validates(p) && |salt| == p.saltLength && |key| == p.keyLength
      ==> DecodeHash(EncodeHash(p, salt, key)) == Ok(Decoded(p, salt, key))
  {
    DecodeOfEncodeHash(p, salt, key);
  }

  /** The hash as text. */
  lemma HashText(p: Params, salt: seq<Byte>, key: seq<Byte>)
    ensures EncodeHash(p, salt, key) == "$argon2id$v=19$m=" + Itoa(p.memory) + ",t=" + Itoa(p.iterations) + ",p=" + Itoa(p.parallelism)
                                        + "$" + Encode(salt) + "$" + Encode(key)
  {
    hide Encode, Itoa;
    VersionText();
    var parts := HashParts(p, salt, key);
    JoinSix(parts);
    PrefixText();
    ParamsText("$argon2id$v=19$", Itoa(p.memory), Itoa(p.iterations), Itoa(p.parallelism), "$" + Encode(salt), "$" + Encode(key));
  }

  lemma JoinSix(parts: seq<string>)
    requires |parts| == 6
    ensures Join(parts, "$") == parts[0] + "$" + (parts[1] + "$" + (parts[2] + "$" + (parts[3] + "$" + (parts[4] + "$" + parts[5]))))
  {
    forall i: nat | i < 5 ensures Join(parts[i..], "$") == parts[i] + "$" + Join(parts[i + 1..], "$") {
      assert parts[i..][1..] == parts[i + 1..];
    }
    assert parts[0..] == parts && Join(parts[5..], "$") == parts[5];
  }

  lemma PrefixText()
    ensures "" + "$" + ("argon2id" + "$" + ("v=19" + "$")) == "$argon2id$v=19$"
  {
  }

  lemma ParamsText(head: string, m: string, t: string, p: string, salt: string, key: string)
    requires head == "" + "$" + ("argon2id" + "$" + ("v=19" + "$"))
    ensures "" + "$" + ("argon2id" + "$" + ("v=19" + "$" + (("m=" + m + (",t=" + t + (",p=" + p))) + (salt + key))))
         == "$argon2id$v=19$m=" + m + ",t=" + t + ",p=" + p + salt + key
  {
    assert "$argon2id$v=19$m=" == head + "m=";
  }

  /** The memory Argon2 uses: at least eight blocks a lane, else cut down to four blocks a lane at a time. */
  function UsedMemory(p: Params): nat
    requires p.parallelism >= 1
  {
    var cut := p.memory / (4 * p.parallelism) * (4 * p.parallelism);
    if cut < 8 * p.parallelism then 8 * p.parallelism else cut
  }

  /** Of parameters within the other bounds, those are accepted whose hash does not claim less memory than is used. */
  lemma ValidatesIff(p: Params)
    requires p.parallelism >= 1 && p.iterations >= 1 && p.memory <= 4194304
    ensures Validates(p) <==> UsedMemory(p) <= p.memory && p.saltLength >= 8 && p.keyLength >= 16
  {
    var lanes := 4 * p.parallelism;
    assert p.memory / lanes * lanes <= p.memory;
  }

  // ----- Which hashes that decode are the ones written -----

  /**
   A hash that decodes carries the parameter text this package writes. It is, as a whole, the hash
   this package writes exactly when its version is spelled plainly and its base64 is canonical.
   */
  lemma DecodedHashIsOurs(hash: string)
    requires DecodeHash(hash).Ok?
    ensures |Split(hash, '$')| == 6
    ensures var (parts, d) := (Split(hash, '$'), DecodeHash(hash).value);
      && parts[3] == EncodeParams(d.params) && Usable(d.params)
      && (EncodeHash(d.params, d.salt, d.key) == hash <==> parts[2] == "v=19" && Canonical(parts[4]) && Canonical(parts[5]))
  {
    hide EncodeHash, DecodeParts, EncodeParams, Canonical;
    var parts, d := Split(hash, '$'), DecodeHash(hash).value;
    DecodedParts(parts);
    SameTextSameParts(hash, d.params, d.salt, d.key);
    VersionText();
    EncodeOfDecode(parts[4]);
    EncodeOfDecode(parts[5]);
  }

  lemma SameTextSameParts(hash: string, p: Params, salt: seq<Byte>, key: seq<Byte>)
    ensures EncodeHash(p, salt, key) == hash <==> HashParts(p, salt, key) == Split(hash, '$')
  {
    JoinOfSplit(hash, '$');
    NoDollars(p, salt, key);
    SplitOfJoin(HashParts(p, salt, key), '$');
  }

  lemma DecodedParts(parts: seq<string>)
    requires DecodeParts(parts).Ok?
    ensures |parts| == 6 && parts[0] == "" && parts[1] == "argon2id"
    ensures var d := DecodeParts(parts).value;
      && parts[3] == EncodeParams(d.params) && Usable(d.params)
      && Decode(parts[4]) == Some(d.salt) && Decode(parts[5]) == Some(d.key)
  {
  }

  lemma VersionText()
    ensures Itoa(VERSION) == "19" && "v=" + Itoa(VERSION) == "v=19"
  {
    assert Padded(19, 1) == Padded(1, 0) + ['9'] && Padded(1, 0) == Padded(0, 0) + ['1'];
  }

  /** One way to spell the version: space, a plus sign, zeros, 19, and a tail. */
  predicate SpellsVersion(segment: string, space: string, sign: string, zeros: string, tail: string) {
    && segment == "v=" + (space + (sign + (zeros + "19" + tail)))
    && (forall i | 0 <= i < |space| :: IsScanSpace(space[i]))
    && (sign == "" || sign == "+")
    && (forall i | 0 <= i < |zeros| :: zeros[i] == '0')
    && (tail == "" || !IsDigit(tail[0]))
  }

  lemma {:induction false} SkipSpacesOfSum(space: string, rest: string)
    requires (forall i | 0 <= i < |space| :: IsScanSpace(space[i])) && rest != "" && !IsScanSpace(rest[0])
    ensures SkipSpaces(space + rest) == rest
  {
    if space == "" {
      assert space + rest == rest;
    } else {
      SkipSpacesOfSum(space[1..], rest);
      assert (space + rest)[1..] == space[1..] + rest;
    }
  }

  lemma {:induction false} SpacesSkipped(s: string) returns (space: string)
    ensures s == space + SkipSpaces(s) && forall i | 0 <= i < |space| :: IsScanSpace(space[i])
  {
    if s != "" && IsScanSpace(s[0]) {
      var rest := SpacesSkipped(s[1..]);
      space := [s[0]] + rest;
      assert s == [s[0]] + s[1..];
    } else {
      space := "";
      assert s == "" + s;
    }
  }

  lemma NineteenAfterZeros(zeros: string)
    requires forall i | 0 <= i < |zeros| :: zeros[i] == '0'
    ensures AllDigits(zeros + "19") && NumberOf(zeros + "19") == 19
  {
    ZeroIsZeros(zeros);
    var s := zeros + "19";
    assert s[..|s| - 1] == zeros + "1" && (zeros + "1")[..|zeros|] == zeros;
  }

  lemma NineteenIsSpelled(digits: string) returns (zeros: string)
    requires AllDigits(digits) && NumberOf(digits) == 19
    ensures digits == zeros + "19" && forall i | 0 <= i < |zeros| :: zeros[i] == '0'
  {
    var front := digits[..|digits| - 1];
    assert NumberOf(front) == 1 && digits[|digits| - 1] == '9';
    zeros := front[..|front| - 1];
    assert NumberOf(zeros) == 0 && front[|front| - 1] == '1';
    ZeroIsZeros(zeros);
    assert digits == front + ['9'] && front == zeros + ['1'];
  }

  lemma SpelledIsRead(segment: string, space: string, sign: string, zeros: string, tail: string)
    requires SpellsVersion(segment, space, sign, zeros, tail)
    ensures ScanVersion(segment) == Some(VERSION)
  {
    var digits := zeros + "19";
    var signed := sign + (digits + tail);
    assert segment[2..] == space + signed;
    assert (digits + tail)[0] == digits[0] && IsDigit(digits[0]);
    SkipSpacesOfSum(space, signed);
    DigitRunOfSum(digits, tail);
    NineteenAfterZeros(zeros);
    assert (digits + tail)[..|digits|] == digits;
    assert signed[|sign|..] == digits + tail;
    assert sign == "" ==> signed == digits + tail;
  }

  lemma ReadIsSpelled(segment: string)
    requires ScanVersion(segment) == Some(VERSION)
    ensures exists space, sign, zeros, tail :: SpellsVersion(segment, space, sign, zeros, tail)
  {
    hide IsScanSpace, SkipSpaces, NumberOf;
    var rest := segment[2..];
    assert segment == "v=" + rest;
    var space := SpacesSkipped(rest);
    var t := SkipSpaces(rest);
    var sign := if t[0] == '+' then "+" else "";
    assert t[0] != '-';
    var number := t[|sign|..];
    var n := DigitRun(number);
    var zeros := NineteenIsSpelled(number[..n]);
    var tail := number[n..];
    assert number == zeros + "19" + tail && t == sign + number;
    assert SpellsVersion(segment, space, sign, zeros, tail);
  }

  /** The version segments read as this version are those that spell it, and they decode alike. */
  lemma VersionSpellings(p: Params, salt: seq<Byte>, key: seq<Byte>, segment: string)
    requires InWidth(p) && |salt| <= MAX_UINT32 && |key| <= MAX_UINT32 && '$' !in segment
    requires Usable(p) && salt != [] && key != []
    ensures DecodeHash(Join(HashParts(p, salt, key)[2 := segment], "$")) == DecodeHash(EncodeHash(p, salt, key))
      <==> exists space, sign, zeros, tail :: SpellsVersion(segment, space, sign, zeros, tail)
  {
    var parts := HashParts(p, salt, key);
    NoDollars(p, salt, key);
    SplitOfJoin(parts, '$');
    SplitOfJoin(parts[2 := segment], '$');
    DecodeOfEncodeHash(p, salt, key);
    if ScanVersion(segment) == Some(VERSION) {
      ReadIsSpelled(segment);
      OnlyTheVersionMatters(parts, segment);
    } else if exists space, sign, zeros, tail :: SpellsVersion(segment, space, sign, zeros, tail) {
      var space, sign, zeros, tail :| SpellsVersion(segment, space, sign, zeros, tail);
      SpelledIsRead(segment, space, sign, zeros, tail);
    }
  }

  /** A hash of another version is refused as that, before anything after its version is looked at. */
  lemma OtherVersionsAreUnsupported(p: Params, salt: seq<Byte>, key: seq<Byte>, version: nat)
    requires version <= MAX_INT64 && version != 19
    ensures DecodeHash(Join(HashParts(p, salt, key)[2 := "v=" + Itoa(version)], "$")) == Err(UnsupportedVersion)
  {
    var parts := HashParts(p, salt, key)[2 := "v=" + Itoa(version)];
    NoDollars(p, salt, key);
    NumbersHaveNoDollars(version);
    SplitOfJoin(parts, '$');
    ScanVersionPrinted(version, "");
    assert "v=" + Itoa(version) + "" == parts[2];
  }

  /** What decodes: this version's spellings, a parameter text this package writes, and base64 of something. */
  lemma DecodesIff(hash: string)
    ensures DecodeHash(hash).Ok? <==> DecodableParts(Split(hash, '$'))
    ensures DecodeHash(hash).Ok? ==> DecodeHash(hash).value.salt == Decode(Split(hash, '$')[4]).value && DecodeHash(hash).value.key == Decode(Split(hash, '$')[5]).value
  {
    hide EncodeParams, ScanParams, Decode;
    var parts := Split(hash, '$');
    if DecodableParts(parts) {
      var p :| SoundParams(p) && EncodeParams(p) == parts[3];
      var scanned := Params(p.memory, p.iterations, p.parallelism, 0, 0);
      ParamsTextLooksAt(p, scanned);
      ScanOfEncodeParams(scanned);
      var space, sign, zeros, tail :| SpellsVersion(parts[2], space, sign, zeros, tail);
      SpelledIsRead(parts[2], space, sign, zeros, tail);
    }
    if DecodeHash(hash).Ok? {
      ReadIsSpelled(parts[2]);
      ScannedInWidth(parts[3]);
    }
  }

  /** Parameters a hash may carry: at most 4 GiB in KiB, one to 255 lanes, at least one pass. */
  predicate SoundParams(p: Params) {
    p.memory <= 4_194_304 && 1 <= p.iterations <= 4_294_967_295 && 1 <= p.parallelism <= 255
  }

  ghost predicate DecodableParts(parts: seq<string>) {
    && |parts| == 6 && parts[0] == "" && parts[1] == "argon2id"
    && (exists space, sign, zeros, tail :: SpellsVersion(parts[2], space, sign, zeros, tail))
    && (exists p :: SoundParams(p) && EncodeParams(p) == parts[3])
    && Decode(parts[4]).Some? && Decode(parts[4]).value != []
    && Decode(parts[5]).Some? && Decode(parts[5]).value != []
  }

  lemma ScannedInWidth(s: string)
    requires ScanParams(s).Some?
    ensures InWidth(ScanParams(s).value)
  {
  }

  lemma ParamsTextLooksAt(p: Params, q: Params)
    requires p.memory == q.memory && p.iterations == q.iterations && p.parallelism == q.parallelism
    ensures EncodeParams(p) == EncodeParams(q)
  {
  }

  lemma OnlyTheVersionMatters(parts: seq<string>, segment: string)
    requires |parts| == 6 && ScanVersion(parts[2]) == ScanVersion(segment)
    ensures DecodeParts(parts[2 := segment]) == DecodeParts(parts)
  {
  }
}
