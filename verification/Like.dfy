/**
 SQL pattern matching, as the "contains" operator uses it: LIKE in SQLite, ILIKE in Postgres.

 Both ignore the case of ASCII letters. In Postgres a backslash makes the next pattern
 character literal; in SQLite it is an ordinary character.
 */
module Like {
  import opened Text

  datatype Dialect = Sqlite | Postgres

  function FoldAll(s: string): string {
    seq(|s|, i requires 0 <= i < |s| => ToLower(s[i]))
  }

  predicate Matches(d: Dialect, p: string, t: string)
    decreases |p| + |t|
  {
    if p == "" then t == ""
    else if p[0] == '%' then Matches(d, p[1..], t) || (t != "" && Matches(d, p, t[1..]))
    else if p[0] == '_' then t != "" && Matches(d, p[1..], t[1..])
    else if d.Postgres? && p[0] == '\\' then
      |p| > 1 && t != "" && ToLower(p[1]) == ToLower(t[0]) && Matches(d, p[2..], t[1..])
    else t != "" && ToLower(p[0]) == ToLower(t[0]) && Matches(d, p[1..], t[1..])
  }

  /** What valueForOperator binds for "contains". */
  function ContainsPattern(value: string): string {
    "%" + value + "%"
  }

  /** The same character, or the same ASCII letter in the other case. */
  predicate SameLetter(a: char, b: char) {
    a == b || ('A' <= a <= 'Z' && b as int == a as int + 32) || ('A' <= b <= 'Z' && a as int == b as int + 32)
  }

  /** The text holds the value somewhere, ASCII case aside. */
  ghost predicate ContainsFold(t: string, v: string) {
    exists i :: OccursAt(t, v, i)
  }

  predicate OccursAt(t: string, v: string, i: int) {
    0 <= i <= |t| - |v| && forall j | 0 <= j < |v| :: SameLetter(t[i + j], v[j])
  }

  lemma FoldedIsSameLetter(a: string, b: string)
    requires |a| == |b|
    ensures FoldAll(a) == FoldAll(b) <==> forall j | 0 <= j < |a| :: SameLetter(a[j], b[j])
  {
    assert forall j | 0 <= j < |a| :: SameLetter(a[j], b[j]) <==> ToLower(a[j]) == ToLower(b[j]);
    assert forall j | 0 <= j < |a| :: FoldAll(a)[j] == ToLower(a[j]) && FoldAll(b)[j] == ToLower(b[j]);
  }

  lemma OccursFolded(t: string, v: string, i: int)
    requires 0 <= i <= |t| - |v|
    ensures OccursAt(t, v, i) <==> FoldAll(t[i..i + |v|]) == FoldAll(v)
  {
    FoldedIsSameLetter(t[i..i + |v|], v);
    assert forall j | 0 <= j < |v| :: SameLetter(t[i..i + |v|][j], v[j]) <==> SameLetter(t[i + j], v[j]);
  }

  predicate Special(d: Dialect, c: char) {
    c == '%' || c == '_' || (d.Postgres? && c == '\\')
  }

  predicate Plain(d: Dialect, v: string) {
    forall i | 0 <= i < |v| :: !Special(d, v[i])
  }

  predicate StartsWithFold(t: string, v: string) {
    |v| <= |t| && FoldAll(t[..|v|]) == FoldAll(v)
  }

  lemma {:induction false} AnythingMatchesPercent(d: Dialect, t: string)
    ensures Matches(d, "%", t)
    decreases |t|
  {
    if t != "" {
      AnythingMatchesPercent(d, t[1..]);
    } else {
      assert "%"[1..] == "";
    }
  }

  lemma FoldFirst(s: string, v: string)
    requires |s| == |v| > 0
    ensures FoldAll(s) == FoldAll(v) <==> ToLower(s[0]) == ToLower(v[0]) && FoldAll(s[1..]) == FoldAll(v[1..])
  {
    assert FoldAll(s) == [ToLower(s[0])] + FoldAll(s[1..]);
    assert FoldAll(v) == [ToLower(v[0])] + FoldAll(v[1..]);
    assert FoldAll(s)[1..] == FoldAll(s[1..]) && FoldAll(v)[1..] == FoldAll(v[1..]);
  }

  lemma {:induction false} PlainPrefix(d: Dialect, v: string, t: string)
    requires Plain(d, v)
    ensures Matches(d, v + "%", t) <==> StartsWithFold(t, v)
    decreases |v|
  {
    if v == "" {
      assert v + "%" == "%";
      AnythingMatchesPercent(d, t);
    } else {
      assert !Special(d, v[0]);
      assert (v + "%")[1..] == v[1..] + "%";
      if t != "" {
        PlainPrefix(d, v[1..], t[1..]);
        if |v| <= |t| {
          FoldFirst(t[..|v|], v);
          assert t[..|v|][1..] == t[1..][..|v| - 1];
        }
      }
    }
  }

  lemma {:induction false} PercentTriesEverySuffix(d: Dialect, p: string, t: string)
    ensures Matches(d, "%" + p, t) <==> exists i :: 0 <= i <= |t| && Matches(d, p, t[i..])
    decreases |t|
  {
    assert ("%" + p)[1..] == p;
    assert t[0..] == t;
    if t != "" {
      PercentTriesEverySuffix(d, p, t[1..]);
      forall i | 1 <= i <= |t| ensures t[i..] == t[1..][i - 1..] {
      }
      if Matches(d, "%" + p, t[1..]) {
        var i :| 0 <= i <= |t| - 1 && Matches(d, p, t[1..][i..]);
        assert Matches(d, p, t[i + 1..]);
      }
    }
  }

  /** A value free of special characters is matched as a substring, case aside. */
  lemma PlainValueIsSubstring(d: Dialect, v: string, t: string)
    requires Plain(d, v)
    ensures Matches(d, ContainsPattern(v), t) <==> ContainsFold(t, v)
  {
    assert ContainsPattern(v) == "%" + (v + "%");
    PercentTriesEverySuffix(d, v + "%", t);
    forall i | 0 <= i <= |t| ensures Matches(d, v + "%", t[i..]) <==> OccursAt(t, v, i) {
      PlainPrefix(d, v, t[i..]);
      if i <= |t| - |v| {
        assert t[i..][..|v|] == t[i..i + |v|];
        OccursFolded(t, v, i);
      }
    }
    if ContainsFold(t, v) {
      var i :| OccursAt(t, v, i);
      assert Matches(d, v + "%", t[i..]);
    }
  }

  // ----- What a pattern means, piece by piece -----

  /** A pattern that does not end in the middle of an escape. */
  predicate Complete(d: Dialect, p: string)
    decreases |p|
  {
    p == "" || if d.Postgres? && p[0] == '\\' then |p| > 1 && Complete(d, p[2..]) else Complete(d, p[1..])
  }

  /** The text falls into two parts, matched by the two patterns. */
  ghost predicate SplitMatches(d: Dialect, a: string, b: string, t: string, i: int) {
    0 <= i <= |t| && Matches(d, a, t[..i]) && Matches(d, b, t[i..])
  }

  lemma SplitLater(d: Dialect, a: string, b: string, t: string, i: int)
    requires t != "" && 0 <= i < |t| && Matches(d, b, t[1..][i..])
    ensures t[..i + 1][1..] == t[1..][..i] && t[i + 1..] == t[1..][i..] && t[..i + 1] != "" && t[..i + 1][0] == t[0]
  {
  }

  lemma MatchesOfSum(d: Dialect, a: string, b: string, t: string)
    requires Complete(d, a)
    ensures Matches(d, a + b, t) <==> exists i :: SplitMatches(d, a, b, t, i)
  {
    if Matches(d, a + b, t) {
      SumMatchesSplit(d, a, b, t);
    }
    if i :| SplitMatches(d, a, b, t, i) {
      SplitAtMatchesSum(d, a, b, t, i);
    }
  }

  lemma {:induction false} SumMatchesSplit(d: Dialect, a: string, b: string, t: string)
    requires Complete(d, a) && Matches(d, a + b, t)
    ensures exists i :: SplitMatches(d, a, b, t, i)
    decreases |a| + |t|
  {
    if a == "" {
      assert a + b == b && t[0..] == t && t[..0] == "";
      assert SplitMatches(d, a, b, t, 0);
    } else if a[0] == '%' {
      assert (a + b)[1..] == a[1..] + b;
      if Matches(d, a[1..] + b, t) {
        SumMatchesSplit(d, a[1..], b, t);
        var i :| SplitMatches(d, a[1..], b, t, i);
        assert SplitMatches(d, a, b, t, i);
      } else {
        SumMatchesSplit(d, a, b, t[1..]);
        var i :| SplitMatches(d, a, b, t[1..], i);
        SplitLater(d, a, b, t, i);
        assert SplitMatches(d, a, b, t, i + 1);
      }
    } else {
      var n := if d.Postgres? && a[0] == '\\' then 2 else 1;
      assert (a + b)[n..] == a[n..] + b && (n == 2 ==> (a + b)[1] == a[1]);
      SumMatchesSplit(d, a[n..], b, t[1..]);
      var i :| SplitMatches(d, a[n..], b, t[1..], i);
      SplitLater(d, a, b, t, i);
      assert SplitMatches(d, a, b, t, i + 1);
    }
  }

  function HeadLength(d: Dialect, p: string): nat
    requires p != "" && Complete(d, p)
  {
    if d.Postgres? && p[0] == '\\' then 2 else 1
  }

  /** The piece a pattern begins with, if it is no percent sign, takes this character. */
  predicate HeadTakes(d: Dialect, p: string, c: char)
    requires p != "" && Complete(d, p)
  {
    p[0] == '_' || ToLower(p[HeadLength(d, p) - 1]) == ToLower(c)
  }

  lemma HeadAndRest(d: Dialect, a: string, b: string, t: string)
    requires a != "" && Complete(d, a) && a[0] != '%'
    ensures Matches(d, a + b, t) <==> t != "" && HeadTakes(d, a, t[0]) && Matches(d, a[HeadLength(d, a)..] + b, t[1..])
    ensures Complete(d, a[HeadLength(d, a)..])
  {
    var n := HeadLength(d, a);
    assert (a + b)[n..] == a[n..] + b && (a + b)[n - 1] == a[n - 1];
  }

  lemma PercentAndRest(d: Dialect, a: string, b: string, t: string)
    requires a != "" && a[0] == '%'
    ensures Matches(d, a + b, t) <==> Matches(d, a[1..] + b, t) || (t != "" && Matches(d, a + b, t[1..]))
  {
    assert (a + b)[1..] == a[1..] + b;
  }

  lemma {:induction false} SplitAtMatchesSum(d: Dialect, a: string, b: string, t: string, i: int)
    requires Complete(d, a) && SplitMatches(d, a, b, t, i)
    ensures Matches(d, a + b, t)
    decreases |a| + |t|
  {
    assert a + "" == a && (i > 0 ==> t[..i][1..] == t[1..][..i - 1] && t[i..] == t[1..][i - 1..] && t[..i][0] == t[0]);
    if a == "" {
      assert a + b == b && t[i..] == t;
    } else if a[0] == '%' {
      hide Matches;
      assert a[1..] + "" == a[1..];
      PercentAndRest(d, a, "", t[..i]);
      PercentAndRest(d, a, b, t);
      if Matches(d, a[1..], t[..i]) {
        SplitAtMatchesSum(d, a[1..], b, t, i);
      } else {
        SplitAtMatchesSum(d, a, b, t[1..], i - 1);
      }
    } else {
      hide Matches;
      var rest := a[HeadLength(d, a)..];
      assert rest + "" == rest;
      HeadAndRest(d, a, "", t[..i]);
      HeadAndRest(d, a, b, t);
      SplitAtMatchesSum(d, rest, b, t[1..], i - 1);
    }
  }

  /**
   A pattern is its pieces one after another: a percent sign is any text, an underscore any one character, an
   escaped character itself, and any other character itself, in either case.
   */
  lemma PatternIsItsPieces(d: Dialect, a: string, b: string, c: char, t: string)
    requires Complete(d, a)
    ensures Matches(d, a + b, t) <==> exists i :: SplitMatches(d, a, b, t, i)
    ensures Matches(d, "", t) <==> t == ""
    ensures Matches(d, "%", t)
    ensures Matches(d, "_", t) <==> |t| == 1
    ensures !Special(d, c) ==> (Matches(d, [c], t) <==> |t| == 1 && SameLetter(c, t[0]))
    ensures Matches(Postgres, ['\\', c], t) <==> |t| == 1 && SameLetter(c, t[0])
  {
    MatchesOfSum(d, a, b, t);
    AnythingMatchesPercent(d, t);
    OneCharacter(d, c, t);
  }

  lemma OneCharacter(d: Dialect, c: char, t: string)
    ensures Matches(d, "_", t) <==> |t| == 1
    ensures !Special(d, c) ==> (Matches(d, [c], t) <==> |t| == 1 && SameLetter(c, t[0]))
    ensures Matches(Postgres, ['\\', c], t) <==> |t| == 1 && SameLetter(c, t[0])
  {
    assert "_"[1..] == "" && [c][1..] == [] && ['\\', c][2..] == [];
    if t != "" {
      assert |t| == 1 <==> t[1..] == "";
      assert ToLower(c) == ToLower(t[0]) <==> SameLetter(c, t[0]);
    }
  }

  /** A text that the pattern for `v` matches, no longer than `v`. */
  function Sample(d: Dialect, v: string): string
    decreases |v|
  {
    if v == "" then ""
    else if v[0] == '%' || v[0] == '_' then ['a'] + Sample(d, v[1..])
    else if d.Postgres? && v[0] == '\\' then
      if |v| == 1 then "%" else [v[1]] + Sample(d, v[2..])
    else [v[0]] + Sample(d, v[1..])
  }

  /** Read by Postgres, a backslash in the value makes some percent sign literal, the appended one included. */
  predicate EscapesPercent(v: string)
    decreases |v|
  {
    v != "" &&
    if v[0] == '\\' then |v| == 1 || v[1] == '%' || EscapesPercent(v[2..]) else EscapesPercent(v[1..])
  }

  lemma OneMatched(d: Dialect, v: string, t: string)
    requires v != "" && t != "" && !(d.Postgres? && v[0] == '\\')
    requires v[0] == '%' || v[0] == '_' || v[0] == t[0]
    requires Matches(d, v[1..] + "%", t[1..])
    ensures Matches(d, v + "%", t)
  {
    assert (v + "%")[1..] == v[1..] + "%";
  }

  lemma EscapedMatched(v: string, t: string)
    requires v != "" && t != "" && v[0] == '\\'
    requires if |v| == 1 then t == "%" else v[1] == t[0] && Matches(Postgres, v[2..] + "%", t[1..])
    ensures Matches(Postgres, v + "%", t)
  {
    if |v| == 1 {
      assert (v + "%")[1] == '%' && (v + "%")[2..] == "" && t[1..] == "";
    } else {
      assert (v + "%")[2..] == v[2..] + "%";
    }
  }

  /** It is matched, and so is anything that begins with it, unless the appended percent sign is literal. */
  lemma {:induction false} SampleMatches(d: Dialect, v: string, rest: string)
    requires rest == "" || d.Sqlite? || !EscapesPercent(v)
    ensures Matches(d, v + "%", Sample(d, v) + rest)
    decreases |v|
  {
    hide Matches;
    var t := Sample(d, v) + rest;
    if v == "" {
      assert v + "%" == "%";
      AnythingMatchesPercent(d, t);
    } else if d.Postgres? && v[0] == '\\' {
      if |v| > 1 {
        SampleMatches(d, v[2..], rest);
        assert t[1..] == Sample(d, v[2..]) + rest;
      }
      EscapedMatched(v, t);
    } else {
      SampleMatches(d, v[1..], rest);
      assert t[1..] == Sample(d, v[1..]) + rest;
      OneMatched(d, v, t);
    }
  }

  lemma {:induction false} SampleDiffers(d: Dialect, v: string)
    ensures |Sample(d, v)| <= |v|
    ensures |Sample(d, v)| == |v| && FoldAll(Sample(d, v)) == FoldAll(v) ==> Plain(d, v)
    decreases |v|
  {
    if v == "" {
    } else if d.Postgres? && v[0] == '\\' && |v| > 1 {
      SampleDiffers(d, v[2..]);
    } else {
      var t := Sample(d, v);
      SampleDiffers(d, v[1..]);
      if |t| == |v| && FoldAll(t) == FoldAll(v) {
        FoldFirst(t, v);
        assert t[1..] == Sample(d, v[1..]) || (d.Postgres? && v == "\\");
        assert Plain(d, v[1..]);
        assert forall i | 1 <= i < |v| :: v[i] == v[1..][i - 1];
      }
    }
  }

  /** "contains" means substring, for every text, exactly for the values free of special characters. */
  lemma ContainsIsSubstringIffPlain(d: Dialect, v: string)
    ensures (forall t :: Matches(d, ContainsPattern(v), t) <==> ContainsFold(t, v)) <==> Plain(d, v)
  {
    if Plain(d, v) {
      forall t ensures Matches(d, ContainsPattern(v), t) <==> ContainsFold(t, v) {
        PlainValueIsSubstring(d, v, t);
      }
    } else {
      SpecialValueMatchesMore(d, v);
    }
  }

  /** "contains" finds the sample inside any text, with the same exception. */
  lemma SampleIsContained(d: Dialect, v: string, before: string, after: string)
    requires after == "" || d.Sqlite? || !EscapesPercent(v)
    ensures Matches(d, ContainsPattern(v), before + Sample(d, v) + after)
  {
    var t := before + Sample(d, v) + after;
    SampleMatches(d, v, after);
    assert ContainsPattern(v) == "%" + (v + "%");
    PercentTriesEverySuffix(d, v + "%", t);
    assert t[|before|..] == Sample(d, v) + after;
  }

  lemma SpecialValueMatchesMore(d: Dialect, v: string)
    requires !Plain(d, v)
    ensures Matches(d, ContainsPattern(v), Sample(d, v)) && !ContainsFold(Sample(d, v), v)
  {
    var t := Sample(d, v);
    SampleIsContained(d, v, "", "");
    SampleDiffers(d, v);
    assert "" + t + "" == t;
    forall i ensures !OccursAt(t, v, i) {
      if |t| == |v| && i == 0 {
        assert t[0..|v|] == t;
        OccursFolded(t, v, i);
      }
    }
  }

  /** The two dialects match alike when the value has no backslash. */
  lemma {:induction false} DialectsAgree(p: string, t: string)
    requires '\\' !in p
    ensures Matches(Sqlite, p, t) == Matches(Postgres, p, t)
    decreases |p| + |t|
  {
    if p != "" {
      if t != "" {
        DialectsAgree(p, t[1..]);
        DialectsAgree(p[1..], t[1..]);
      }
      DialectsAgree(p[1..], t);
    }
  }

  lemma {:induction false} EscapedPercentIsNeeded(v: string, t: string)
    requires EscapesPercent(v) && Matches(Postgres, v + "%", t)
    ensures '%' in t
    decreases |v| + |t|
  {
    var p := v + "%";
    assert p[1..] == v[1..] + "%";
    if v[0] == '%' {
      if Matches(Postgres, p[1..], t) {
        EscapedPercentIsNeeded(v[1..], t);
      } else {
        EscapedPercentIsNeeded(v, t[1..]);
      }
    } else if v[0] == '\\' {
      if |v| == 1 || v[1] == '%' {
        assert p[1] == '%' && ToLower('%') == '%';
        assert t[0] == '%';
      } else {
        assert p[2..] == v[2..] + "%";
        EscapedPercentIsNeeded(v[2..], t[1..]);
      }
    } else {
      EscapedPercentIsNeeded(v[1..], t[1..]);
    }
  }

  lemma {:induction false} SampleHasNoPercent(v: string)
    ensures '%' !in Sample(Sqlite, v)
    decreases |v|
  {
    if v != "" {
      SampleHasNoPercent(v[1..]);
    }
  }

  // ----- Runs of backslashes -----

  function LeadRun(s: string): nat {
    if s != "" && s[0] == '\\' then 1 + LeadRun(s[1..]) else 0
  }

  /** The length of the longest run of backslashes. */
  function MaxRun(s: string): nat {
    if s == "" then 0 else if LeadRun(s) > MaxRun(s[1..]) then LeadRun(s) else MaxRun(s[1..])
  }

  lemma {:induction false} BackslashMakesRun(s: string)
    ensures MaxRun(s) > 0 <==> '\\' in s
  {
    if s != "" {
      BackslashMakesRun(s[1..]);
      assert s == [s[0]] + s[1..];
    }
  }

  lemma {:induction false} LeadRunIsMatched(p: string, t: string)
    requires Matches(Sqlite, p, t)
    ensures LeadRun(p) <= LeadRun(t)
    decreases |p|
  {
    if p != "" && p[0] == '\\' {
      assert ToLower(t[0]) == '\\' && t[0] == '\\';
      LeadRunIsMatched(p[1..], t[1..]);
    }
  }

  lemma {:induction false} LeadRunOfSum(s: string, c: char, t: string)
    requires c != '\\'
    ensures LeadRun(s + [c] + t) == LeadRun(s)
  {
    if s != "" {
      LeadRunOfSum(s[1..], c, t);
      assert (s + [c] + t)[1..] == s[1..] + [c] + t;
    }
  }

  lemma {:induction false} MaxRunOfSum(s: string, c: char, t: string)
    requires c != '\\'
    ensures MaxRun(s + [c] + t) == if MaxRun(s) > MaxRun(t) then MaxRun(s) else MaxRun(t)
  {
    if s == "" {
      assert ("" + [c] + t)[1..] == t;
    } else {
      LeadRunOfSum(s, c, t);
      MaxRunOfSum(s[1..], c, t);
      assert (s + [c] + t)[1..] == s[1..] + [c] + t;
    }
  }

  /** SQLite reads backslashes as they are, so a matched text has runs as long. */
  lemma {:induction false} RunsAreMatched(v: string, t: string)
    requires Matches(Sqlite, v + "%", t)
    ensures MaxRun(v) <= MaxRun(t)
    decreases |v| + |t|
  {
    if v != "" {
      assert (v + "%")[1..] == v[1..] + "%";
      LeadRunIsMatched(v + "%", t);
      LeadRunOfSum(v, '%', "");
      assert v + ['%'] + "" == v + "%";
      if v[0] != '%' {
        RunsAreMatched(v[1..], t[1..]);
      } else if Matches(Sqlite, v[1..] + "%", t) {
        RunsAreMatched(v[1..], t);
      } else {
        RunsAreMatched(v, t[1..]);
      }
    }
  }

  /** Postgres reads two backslashes as one, so its sample has runs half as long. */
  lemma {:induction false} SampleHalvesRuns(v: string)
    requires !EscapesPercent(v)
    ensures LeadRun(Sample(Postgres, v)) == LeadRun(v) / 2
    ensures MaxRun(Sample(Postgres, v)) <= MaxRun(v) / 2
    decreases |v|
  {
    if v != "" {
      var t := Sample(Postgres, v);
      if v[0] == '\\' {
        SampleHalvesRuns(v[2..]);
        assert t[1..] == Sample(Postgres, v[2..]);
        assert v[1..][1..] == v[2..] && MaxRun(v[2..]) <= MaxRun(v[1..]);
      } else {
        SampleHalvesRuns(v[1..]);
        assert t[1..] == Sample(Postgres, v[1..]);
      }
    }
  }

  /** Half a run is not enough. */
  lemma ShortRunsAreNotContained(v: string, t: string)
    requires MaxRun(t) < MaxRun(v)
    ensures !Matches(Sqlite, ContainsPattern(v), t)
  {
    ContainsMatchesSuffix(Sqlite, v, t);
    forall i | 0 <= i <= |t| ensures !Matches(Sqlite, v + "%", t[i..]) {
      SuffixRuns(t, i);
      if Matches(Sqlite, v + "%", t[i..]) {
        RunsAreMatched(v, t[i..]);
      }
    }
  }

  lemma {:induction false} SuffixRuns(t: string, i: nat)
    requires i <= |t|
    ensures MaxRun(t[i..]) <= MaxRun(t)
    decreases i
  {
    if i == 0 {
      assert t[0..] == t;
    } else {
      SuffixRuns(t, i - 1);
      assert t[i - 1..][1..] == t[i..];
    }
  }

  /** A text without a percent sign does not have a literal one. */
  lemma NoPercentIsNotContained(v: string, t: string)
    requires EscapesPercent(v) && '%' !in t
    ensures !Matches(Postgres, ContainsPattern(v), t)
  {
    ContainsMatchesSuffix(Postgres, v, t);
    forall i | 0 <= i <= |t| ensures !Matches(Postgres, v + "%", t[i..]) {
      if Matches(Postgres, v + "%", t[i..]) {
        EscapedPercentIsNeeded(v, t[i..]);
      }
    }
  }

  lemma ContainsMatchesSuffix(d: Dialect, v: string, t: string)
    ensures Matches(d, ContainsPattern(v), t) <==> exists i :: 0 <= i <= |t| && Matches(d, v + "%", t[i..])
  {
    assert ContainsPattern(v) == "%" + (v + "%");
    PercentTriesEverySuffix(d, v + "%", t);
  }

  /** A value with a backslash is matched differently: one dialect's sample is not matched by the other. */
  lemma BackslashTellsThemApart(v: string)
    requires '\\' in v
    ensures exists t :: Matches(Sqlite, ContainsPattern(v), t) != Matches(Postgres, ContainsPattern(v), t)
  {
    var writer := if EscapesPercent(v) then Sqlite else Postgres;
    var t := Sample(writer, v);
    SampleIsContained(writer, v, "", "");
    assert "" + t + "" == t;
    if EscapesPercent(v) {
      SampleHasNoPercent(v);
      NoPercentIsNotContained(v, t);
    } else {
      BackslashMakesRun(v);
      SampleHalvesRuns(v);
      ShortRunsAreNotContained(v, t);
    }
    assert Matches(Sqlite, ContainsPattern(v), t) != Matches(Postgres, ContainsPattern(v), t);
  }

  /** "contains" means the same in both dialects exactly for the values without a backslash. */
  lemma DialectsAgreeIffNoBackslash(v: string)
    ensures (forall t :: Matches(Sqlite, ContainsPattern(v), t) == Matches(Postgres, ContainsPattern(v), t)) <==> '\\' !in v
  {
    if '\\' in v {
      BackslashTellsThemApart(v);
    } else {
      forall t ensures Matches(Sqlite, ContainsPattern(v), t) == Matches(Postgres, ContainsPattern(v), t) {
        DialectsAgree(ContainsPattern(v), t);
      }
    }
  }
}
