/**
 TEXT timestamps: RFC 3339 in UTC with nine fractional digits, compared as strings.

 An instant is a count of nanoseconds from 0001-01-01T00:00:00Z, the zero time.
 */
module Timestamps {
  import opened Wrappers
  import opened Text
  import opened Calendar

  const NANOS := 1_000_000_000

  // ----- Instants and their fields -----

  function DateOf(t: Instant): Date {
    Civil(t / NANOS / 86400)
  }

  /** Hour, minute, second, nanosecond. */
  function ClockOf(t: Instant): seq<nat> {
    var s := t / NANOS % 86400;
    [s / 3600, s / 60 % 60, s % 60, t % NANOS]
  }

  predicate ValidClock(c: seq<nat>) {
    |c| == 4 && c[0] < 24 && c[1] < 60 && c[2] < 60 && c[3] < NANOS
  }

  function InstantAt(d: Date, c: seq<nat>): Instant
    requires Valid(d) && ValidClock(c)
  {
    (DayNumber(d) * 86400 + c[0] * 3600 + c[1] * 60 + c[2]) * NANOS + c[3]
  }

  lemma FieldsOfInstant(t: Instant)
    ensures Valid(DateOf(t)) && ValidClock(ClockOf(t)) && InstantAt(DateOf(t), ClockOf(t)) == t
  {
    var s := t / NANOS % 86400;
    assert s == s / 3600 * 3600 + s / 60 % 60 * 60 + s % 60;
    assert t / NANOS == t / NANOS / 86400 * 86400 + s;
  }

  lemma SplitDay(days: int, s: nat, n: nat)
    requires s < 86400 && n < NANOS
    ensures var t := (days * 86400 + s) * NANOS + n;
      t / NANOS / 86400 == days && t / NANOS % 86400 == s && t % NANOS == n
  {
    var t := (days * 86400 + s) * NANOS + n;
    assert t / NANOS == days * 86400 + s && t % NANOS == n;
  }

  lemma SplitSeconds(h: nat, m: nat, s: nat)
    requires h < 24 && m < 60 && s < 60
    ensures var all := h * 3600 + m * 60 + s;
      all < 86400 && all / 3600 == h && all / 60 % 60 == m && all % 60 == s
  {
    var all := h * 3600 + m * 60 + s;
    assert all / 60 == h * 60 + m;
  }

  lemma InstantOfFields(d: Date, c: seq<nat>)
    requires Valid(d) && ValidClock(c)
    ensures DateOf(InstantAt(d, c)) == d && ClockOf(InstantAt(d, c)) == c
  {
    var s := c[0] * 3600 + c[1] * 60 + c[2];
    SplitSeconds(c[0], c[1], c[2]);
    SplitDay(DayNumber(d), s, c[3]);
    assert InstantAt(d, c) == (DayNumber(d) * 86400 + s) * NANOS + c[3];
    CivilOfDayNumber(d);
    assert ClockOf(InstantAt(d, c)) == c;
  }

  // ----- Fixed-width fields -----

  /** Each field's width and the character written after it. */
  type Layout = seq<(nat, char)>

  const MINUTES: Layout := [(4, '-'), (2, '-'), (2, 'T'), (2, ':'), (2, ':')]
  const WHOLE: Layout := MINUTES + [(2, 'Z')]
  const DOTTED: Layout := MINUTES + [(2, '.')]
  const FULL: Layout := DOTTED + [(9, 'Z')]

  function Render(vals: seq<nat>, layout: Layout): string
    requires |vals| == |layout|
  {
    if layout == [] then "" else Padded(vals[0], layout[0].0) + [layout[0].1] + Render(vals[1..], layout[1..])
  }

  ghost predicate Fits(vals: seq<nat>, layout: Layout)
    requires |vals| == |layout|
  {
    forall i | 0 <= i < |vals| :: vals[i] < Pow10(layout[i].0)
  }

  function Width(layout: Layout): nat {
    if layout == [] then 0 else layout[0].0 + 1 + Width(layout[1..])
  }

  /** Reads the fields off the front of the text; the rest is handed back. */
  function ReadFields(s: string, layout: Layout): (r: Option<(seq<nat>, string)>)
    ensures r.Some? ==> |r.value.0| == |layout|
  {
    if layout == [] then Some(([], s))
    else
      var (w, sep) := layout[0];
      if |s| > w && AllDigits(s[..w]) && s[w] == sep then
        match ReadFields(s[w + 1..], layout[1..])
        case None => None
        case Some((vals, rest)) => Some(([NumberOf(s[..w])] + vals, rest))
      else None
  }

  predicate FieldsBefore(a: seq<nat>, b: seq<nat>)
    requires |a| == |b|
  {
    a != [] && (a[0] < b[0] || (a[0] == b[0] && FieldsBefore(a[1..], b[1..])))
  }

  lemma {:induction false} RenderWidth(vals: seq<nat>, layout: Layout)
    requires |vals| == |layout|
    ensures |Render(vals, layout)| >= Width(layout)
    ensures |Render(vals, layout)| == Width(layout) <==> Fits(vals, layout)
  {
    if layout != [] {
      PaddedIsDecimal(vals[0], layout[0].0);
      RenderWidth(vals[1..], layout[1..]);
      assert Fits(vals, layout) <==> vals[0] < Pow10(layout[0].0) && Fits(vals[1..], layout[1..]) by {
        assert forall i | 1 <= i < |vals| :: vals[i] == vals[1..][i - 1] && layout[i] == layout[1..][i - 1];
      }
    }
  }

  lemma OneFieldOrder(x: string, y: string, sep: char, x': string, y': string)
    requires |x| == |y|
    ensures Before(x + [sep] + x', y + [sep] + y') <==> Before(x, y) || (x == y && Before(x', y'))
  {
    BeforeAfterCommonLength([sep], [sep], x', y');
    BeforeIsIrreflexive([sep]);
    BeforeAfterCommonLength(x, y, [sep] + x', [sep] + y');
    assert x + [sep] + x' == x + ([sep] + x') && y + [sep] + y' == y + ([sep] + y');
  }

  lemma {:induction false} RenderOrder(a: seq<nat>, b: seq<nat>, layout: Layout)
    requires |a| == |b| == |layout| && Fits(a, layout) && Fits(b, layout)
    ensures Before(Render(a, layout), Render(b, layout)) <==> FieldsBefore(a, b)
  {
    assert !Before("", "");
    hide Padded, Before, Pow10;
    if layout != [] {
      var (w, sep) := layout[0];
      RenderOrder(a[1..], b[1..], layout[1..]);
      PaddedIsDecimal(a[0], w);
      PaddedIsDecimal(b[0], w);
      PaddedOrder(a[0], b[0], w);
      OneFieldOrder(Padded(a[0], w), Padded(b[0], w), sep, Render(a[1..], layout[1..]), Render(b[1..], layout[1..]));
    }
  }

  lemma FirstRead(first: string, sep: char, others: string, layout: Layout, vals: seq<nat>, rest: string)
    requires layout != [] && layout[0] == (|first|, sep) && AllDigits(first)
    requires ReadFields(others, layout[1..]) == Some((vals, rest))
    ensures ReadFields(first + [sep] + others, layout) == Some(([NumberOf(first)] + vals, rest))
  {
    var s := first + [sep] + others;
    assert s[..|first|] == first && s[|first|] == sep && s[|first| + 1..] == others;
  }

  /** Reading what was rendered gives the fields back. */
  lemma {:induction false} ReadOfRender(vals: seq<nat>, layout: Layout, rest: string)
    requires |vals| == |layout| && Fits(vals, layout)
    ensures ReadFields(Render(vals, layout) + rest, layout) == Some((vals, rest))
  {
    if layout == [] {
      assert Render(vals, layout) + rest == rest;
    } else {
      var (w, sep) := layout[0];
      var first, others := Padded(vals[0], w), Render(vals[1..], layout[1..]) + rest;
      assert |first| == w && AllDigits(first) && NumberOf(first) == vals[0] by {
        PaddedIsDecimal(vals[0], w);
      }
      assert ReadFields(others, layout[1..]) == Some((vals[1..], rest)) by {
        ReadOfRender(vals[1..], layout[1..], rest);
      }
      var s := first + [sep] + others;
      assert Render(vals, layout) + rest == s;
      FirstRead(first, sep, others, layout, vals[1..], rest);
      assert [vals[0]] + vals[1..] == vals;
    }
  }

  lemma FirstField(v: nat, vals: seq<nat>, w: nat, sep: char, layout: Layout)
    requires |vals| == |layout|
    ensures Render([v] + vals, [(w, sep)] + layout) == Padded(v, w) + [sep] + Render(vals, layout)
  {
    var all, lay := [v] + vals, [(w, sep)] + layout;
    assert all[1..] == vals && lay[1..] == layout && all[0] == v && lay[0] == (w, sep);
  }

  lemma FirstFieldFits(v: nat, vals: seq<nat>, w: nat, sep: char, layout: Layout)
    requires |vals| == |layout| && v < Pow10(w) && Fits(vals, layout)
    ensures Fits([v] + vals, [(w, sep)] + layout)
  {
    var all, lay := [v] + vals, [(w, sep)] + layout;
    forall i | 0 <= i < |all| ensures all[i] < Pow10(lay[i].0) {
      if i > 0 {
        assert all[i] == vals[i - 1] && lay[i] == layout[i - 1];
      }
    }
  }

  /** Whatever is read was rendered so. */
  lemma {:induction false} RenderOfRead(s: string, layout: Layout)
    requires ReadFields(s, layout).Some?
    ensures var (vals, rest) := ReadFields(s, layout).value;
      |vals| == |layout| && Fits(vals, layout) && s == Render(vals, layout) + rest
  {
    if layout != [] {
      var (w, sep) := layout[0];
      var tail := s[w + 1..];
      var v := NumberOf(s[..w]);
      RenderOfRead(tail, layout[1..]);
      var (vals, rest) := ReadFields(tail, layout[1..]).value;
      assert ReadFields(s, layout) == Some(([v] + vals, rest));
      assert Fits([v] + vals, layout) && Render([v] + vals, layout) == s[..w] + [sep] + Render(vals, layout[1..]) by {
        assert v < Pow10(w) && Padded(v, w) == s[..w] by {
          DigitsArePadded(s[..w]);
        }
        FirstField(v, vals, w, sep, layout[1..]);
        FirstFieldFits(v, vals, w, sep, layout[1..]);
        assert layout == [(w, sep)] + layout[1..];
      }
      CutAt(s, w, Render(vals, layout[1..]), rest);
    }
  }

  lemma CutAt(s: string, w: nat, middle: string, rest: string)
    requires w < |s| && s[w + 1..] == middle + rest
    ensures s == s[..w] + [s[w]] + middle + rest
  {
    assert s == s[..w] + [s[w]] + s[w + 1..];
  }

  lemma {:induction false} RenderOfSum(a: seq<nat>, b: seq<nat>, la: Layout, lb: Layout)
    requires |a| == |la| && |b| == |lb|
    ensures Render(a + b, la + lb) == Render(a, la) + Render(b, lb)
  {
    hide Padded;
    if la == [] {
      assert a + b == b && la + lb == lb;
    } else {
      RenderOfSum(a[1..], b, la[1..], lb);
      FirstField(a[0], a[1..] + b, la[0].0, la[0].1, la[1..] + lb);
      FirstField(a[0], a[1..], la[0].0, la[0].1, la[1..]);
      assert a == [a[0]] + a[1..] && la == [la[0]] + la[1..];
      assert a + b == [a[0]] + (a[1..] + b) && la + lb == [la[0]] + (la[1..] + lb);
    }
  }

  lemma WidthFrom(layout: Layout, i: nat)
    requires i < |layout|
    ensures Width(layout[i..]) == layout[i].0 + 1 + Width(layout[i + 1..])
  {
    assert layout[i..][1..] == layout[i + 1..];
  }

  lemma MinutesWidths()
    ensures Width(MINUTES) == 17 && Width(ONE_DIGIT_HOUR) == 16
  {
    forall layout: Layout, i: nat | layout in {MINUTES, ONE_DIGIT_HOUR} && i < |layout|
      ensures Width(layout[i..]) == layout[i].0 + 1 + Width(layout[i + 1..])
    {
      WidthFrom(layout, i);
    }
    assert MINUTES[0..] == MINUTES && MINUTES[5..] == [] && ONE_DIGIT_HOUR[0..] == ONE_DIGIT_HOUR && ONE_DIGIT_HOUR[5..] == [];
    assert Width(MINUTES[3..]) == 6 && Width(ONE_DIGIT_HOUR[3..]) == 5;
    assert Width(MINUTES[1..]) == 12 && Width(ONE_DIGIT_HOUR[1..]) == 11;
  }

  lemma {:induction false} WidthOfSum(a: Layout, b: Layout)
    ensures Width(a + b) == Width(a) + Width(b)
  {
    if a == [] {
      assert a + b == b;
    } else {
      WidthOfSum(a[1..], b);
      assert (a + b)[1..] == a[1..] + b;
    }
  }

  lemma WidthOfOne(w: nat, sep: char)
    ensures Width([(w, sep)]) == w + 1
  {
    assert [(w, sep)][1..] == [];
  }

  lemma LayoutWidths()
    ensures Width(FULL) == 30 && Width(WHOLE) == 20 && Width(DOTTED) == 20
  {
    MinutesWidths();
    WidthOfSum(MINUTES, [(2, 'Z')]);
    WidthOfSum(MINUTES, [(2, '.')]);
    WidthOfSum(DOTTED, [(9, 'Z')]);
    WidthOfOne(2, 'Z');
    WidthOfOne(2, '.');
    WidthOfOne(9, 'Z');
  }

  // ----- Writing -----

  function Abs(y: int): nat {
    if y < 0 then -y else y
  }

  /** Year, month, day, hour, minute, second. */
  function Seconds(t: Instant): seq<nat> {
    var d, c := DateOf(t), ClockOf(t);
    [Abs(d.year), d.month, d.day, c[0], c[1], c[2]]
  }

  function Nanos(t: Instant): nat {
    ClockOf(t)[3]
  }

  function FormatTime(t: Instant): string {
    (if DateOf(t).year < 0 then "-" else "") + Render(Seconds(t) + [Nanos(t)], FULL)
  }

  /** The years four digits can name. */
  predicate InYears(t: Instant) {
    0 <= DateOf(t).year <= 9999
  }

  lemma PowersOfTen()
    ensures Pow10(2) == 100 && Pow10(4) == 10_000 && Pow10(9) == NANOS
  {
    assert Pow10(3) == 1000 && Pow10(6) == 1000_000 && Pow10(8) == 100_000_000;
  }

  lemma FieldsFit(t: Instant)
    ensures Fits(Seconds(t) + [Nanos(t)], FULL) <==> Abs(DateOf(t).year) <= 9999
    ensures Abs(DateOf(t).year) <= 9999 ==> Fits(Seconds(t), WHOLE) && Fits(Seconds(t), DOTTED)
  {
    PowersOfTen();
    FieldsOfInstant(t);
    FullFits(Seconds(t), Nanos(t));
    SecondsFit(Seconds(t));
  }

  lemma FullFits(vals: seq<nat>, nanos: nat)
    requires |vals| == 6 && (forall i | 1 <= i < 6 :: vals[i] < 100) && nanos < NANOS
    ensures Fits(vals + [nanos], FULL) <==> vals[0] <= 9999
  {
    PowersOfTen();
    var all := vals + [nanos];
    assert FULL[0].0 == 4 && FULL[6].0 == 9 && all[0] == vals[0] && all[6] == nanos;
    assert forall i | 1 <= i < 6 :: all[i] == vals[i] && FULL[i].0 == 2;
  }

  lemma SecondsFit(vals: seq<nat>)
    requires |vals| == 6 && forall i | 1 <= i < 6 :: vals[i] < 100
    ensures vals[0] <= 9999 ==> Fits(vals, WHOLE) && Fits(vals, DOTTED)
  {
    PowersOfTen();
    assert WHOLE[0].0 == 4 && DOTTED[0].0 == 4;
    assert forall i | 1 <= i < 6 :: WHOLE[i].0 == 2 && DOTTED[i].0 == 2;
  }

  /** The text is 30 characters long exactly in the years 0000 to 9999, and longer otherwise. */
  lemma FixedWidth(t: Instant)
    ensures |FormatTime(t)| == 30 <==> InYears(t)
    ensures |FormatTime(t)| >= 30
  {
    LayoutWidths();
    FieldsFit(t);
    RenderWidth(Seconds(t) + [Nanos(t)], FULL);
  }

  lemma {:induction false} FieldsBeforeOfSum(a: seq<nat>, b: seq<nat>, a': seq<nat>, b': seq<nat>)
    requires |a| == |b| && |a'| == |b'|
    ensures FieldsBefore(a + a', b + b') <==> FieldsBefore(a, b) || (a == b && FieldsBefore(a', b'))
  {
    if a == [] {
      assert a + a' == a' && b + b' == b';
    } else {
      assert (a + a')[1..] == a[1..] + a' && (b + b')[1..] == b[1..] + b';
      FieldsBeforeOfSum(a[1..], b[1..], a', b');
      assert a == b <==> a[0] == b[0] && a[1..] == b[1..];
    }
  }

  lemma ThreeFields(a: seq<nat>, b: seq<nat>)
    requires |a| == |b| == 3
    ensures FieldsBefore(a, b) <==> a[0] < b[0] || (a[0] == b[0] && (a[1] < b[1] || (a[1] == b[1] && a[2] < b[2])))
  {
    assert a[1..][1..][1..] == [];
    assert FieldsBefore(a[1..][1..], b[1..][1..]) <==> a[2] < b[2];
    assert FieldsBefore(a[1..], b[1..]) <==> a[1] < b[1] || (a[1] == b[1] && a[2] < b[2]);
  }

  lemma ClockOrder(a: seq<nat>, b: seq<nat>)
    requires ValidClock(a) && ValidClock(b)
    ensures FieldsBefore(a, b) <==> (a[0] * 3600 + a[1] * 60 + a[2]) * NANOS + a[3] < (b[0] * 3600 + b[1] * 60 + b[2]) * NANOS + b[3]
  {
    ThreeFields(a[..3], b[..3]);
    FieldsBeforeOfSum(a[..3], b[..3], [a[3]], [b[3]]);
    assert a == a[..3] + [a[3]] && b == b[..3] + [b[3]];
    assert FieldsBefore([a[3]], [b[3]]) <==> a[3] < b[3];
    var x, y := a[0] * 3600 + a[1] * 60 + a[2], b[0] * 3600 + b[1] * 60 + b[2];
    assert FieldsBefore(a[..3], b[..3]) <==> x < y;
    assert a[..3] == b[..3] <==> x == y;
  }

  /** In those years the order of the texts is the order of the instants. */
  lemma StringOrderIsTimeOrder(s: Instant, t: Instant)
    requires InYears(s) && InYears(t)
    ensures Before(FormatTime(s), FormatTime(t)) <==> s < t
    ensures FormatTime(s) == FormatTime(t) <==> s == t
  {
    FieldsFit(s);
    FieldsFit(t);
    RenderOrder(Seconds(s) + [Nanos(s)], Seconds(t) + [Nanos(t)], FULL);
    RenderOrder(Seconds(t) + [Nanos(t)], Seconds(s) + [Nanos(s)], FULL);
    InstantOrder(s, t);
    InstantOrder(t, s);
    BeforeIsIrreflexive(FormatTime(s));
    assert "" + Render(Seconds(s) + [Nanos(s)], FULL) == Render(Seconds(s) + [Nanos(s)], FULL);
    assert "" + Render(Seconds(t) + [Nanos(t)], FULL) == Render(Seconds(t) + [Nanos(t)], FULL);
  }

  lemma InstantOrder(s: Instant, t: Instant)
    requires InYears(s) && InYears(t)
    ensures FieldsBefore(Seconds(s) + [Nanos(s)], Seconds(t) + [Nanos(t)]) <==> s < t
  {
    var a, b := DateOf(s), DateOf(t);
    var da, db := [Abs(a.year), a.month, a.day], [Abs(b.year), b.month, b.day];
    assert Seconds(s) + [Nanos(s)] == da + ClockOf(s);
    assert Seconds(t) + [Nanos(t)] == db + ClockOf(t);
    FieldsOfInstant(s);
    FieldsOfInstant(t);
    FieldsBeforeOfSum(da, db, ClockOf(s), ClockOf(t));
    ThreeFields(da, db);
    CivilOrder(s / NANOS / 86400, t / NANOS / 86400);
    assert da == db <==> a == b by {
      assert da == db ==> da[0] == db[0] && da[1] == db[1] && da[2] == db[2];
    }
    ClockOrder(ClockOf(s), ClockOf(t));
  }

  // ----- Reading -----

  function FromFields(vals: seq<nat>, nanos: nat): Option<Instant>
    requires |vals| == 6
  {
    var d, c := Date(vals[0], vals[1], vals[2]), [vals[3], vals[4], vals[5], nanos];
    if Valid(d) && ValidClock(c) then Some(InstantAt(d, c)) else None
  }

  /** Nanoseconds named by a fraction of any length; digits past the ninth are ignored. */
  function Fraction(digits: string): nat
    requires AllDigits(digits)
  {
    if |digits| <= 9 then NumberOf(digits) * Pow10(9 - |digits|) else NumberOf(digits[..9])
  }

  /** The hour may be one digit only; every other field has its width. */
  const ONE_DIGIT_HOUR: Layout := [(4, '-'), (2, '-'), (2, 'T'), (1, ':'), (2, ':')]

  /** Year to minute, and what follows. */
  function ReadMinutes(s: string): (r: Option<(seq<nat>, string)>)
    ensures r.Some? ==> |r.value.0| == 5
  {
    match ReadFields(s, MINUTES)
    case Some(r) => Some(r)
    case None => ReadFields(s, ONE_DIGIT_HOUR)
  }

  /** The length of the fraction at the front of the text, its dot or comma included; 0 when there is none. */
  function FractionLength(s: string): (n: nat)
    ensures n == 0 || (2 <= n <= |s| && (s[0] == '.' || s[0] == ',') && AllDigits(s[1..n]) && (n < |s| ==> !IsDigit(s[n])))
  {
    if |s| >= 2 && (s[0] == '.' || s[0] == ',') && IsDigit(s[1]) then
      var n := DigitRun(s[1..]);
      assert s[1..][..n] == s[1..1 + n];
      1 + n
    else 0
  }

  /** Seconds east of UTC: Z, or a sign, hours and minutes. */
  function ReadZone(s: string): Option<int> {
    if s == "Z" then Some(0)
    else if |s| == 6 && (s[0] == '+' || s[0] == '-') && AllDigits(s[1..3]) && s[3] == ':' && AllDigits(s[4..]) then
      var h, m := NumberOf(s[1..3]), NumberOf(s[4..]);
      if h > 24 || m > 60 then None else Some(if s[0] == '-' then 0 - h * 3600 - m * 60 else h * 3600 + m * 60)
    else None
  }

  /** The instant of clock fields shown `east` seconds ahead of UTC. */
  function At(vals: seq<nat>, nanos: nat, east: int): Option<Instant>
    requires |vals| == 6
  {
    match FromFields(vals, nanos)
    case None => None
    case Some(t) => Some(t - east * NANOS)
  }

  /** An optional fraction, then the zone. */
  function ReadTail(vals: seq<nat>, tail: string): Option<Instant>
    requires |vals| == 6
  {
    var n := FractionLength(tail);
    match ReadZone(tail[n..])
    case None => None
    case Some(east) => At(vals, if n == 0 then 0 else Fraction(tail[1..n]), east)
  }

  /** The second, of two digits, then the tail. */
  function ReadSecond(vals: seq<nat>, rest: string): Option<Instant>
    requires |vals| == 5
  {
    if |rest| < 2 || !AllDigits(rest[..2]) then None else ReadTail(vals + [NumberOf(rest[..2])], rest[2..])
  }

  /** time.Parse with RFC3339Nano: a date-time of section 5.6 of RFC 3339, and some texts beside. */
  function ParseTime(s: string): Option<Instant> {
    match ReadMinutes(s)
    case None => None
    case Some((vals, rest)) => ReadSecond(vals, rest)
  }

  lemma FromFieldsOfInstant(t: Instant)
    requires InYears(t)
    ensures FromFields(Seconds(t), Nanos(t)) == Some(t)
  {
    FieldsOfInstant(t);
    var v := Seconds(t);
    assert Date(v[0], v[1], v[2]) == DateOf(t) && [v[3], v[4], v[5], Nanos(t)] == ClockOf(t);
  }

  lemma FieldsOfFromFields(vals: seq<nat>, nanos: nat)
    requires |vals| == 6 && FromFields(vals, nanos).Some?
    ensures var t := FromFields(vals, nanos).value;
      Seconds(t) == vals && Nanos(t) == nanos && DateOf(t).year == vals[0]
  {
    InstantOfFields(Date(vals[0], vals[1], vals[2]), [vals[3], vals[4], vals[5], nanos]);
  }

  lemma SecondsThenSeparator(vals: seq<nat>, sep: char)
    requires |vals| == 6
    ensures Render(vals, MINUTES + [(2, sep)]) == Render(vals[..5], MINUTES) + Padded(vals[5], 2) + [sep]
  {
    RenderOfSum(vals[..5], vals[5..], MINUTES, [(2, sep)]);
    assert vals == vals[..5] + vals[5..] && vals[5..] == [vals[5]];
    assert Render([vals[5]], [(2, sep)]) == Padded(vals[5], 2) + [sep] + Render([], []);
  }

  lemma FractionOfDigits(sep: char, digits: string, zone: string)
    requires sep == '.' || sep == ','
    requires digits != "" && AllDigits(digits) && (zone == "" || !IsDigit(zone[0]))
    ensures var tail := [sep] + digits + zone;
      FractionLength(tail) == 1 + |digits| && tail[1..1 + |digits|] == digits && tail[1 + |digits|..] == zone
  {
    var tail := [sep] + digits + zone;
    assert tail[1..] == digits + zone && tail[1] == digits[0];
    DigitRunOfSum(digits, zone);
  }

  lemma TailOfFraction(vals: seq<nat>, sep: char, digits: string, zone: string)
    requires |vals| == 6 && (sep == '.' || sep == ',') && digits != "" && AllDigits(digits) && ReadZone(zone).Some?
    ensures ReadTail(vals, [sep] + digits + zone) == At(vals, Fraction(digits), ReadZone(zone).value)
  {
    FractionOfDigits(sep, digits, zone);
  }

  lemma TailOfWhole(vals: seq<nat>, zone: string)
    requires |vals| == 6 && ReadZone(zone).Some?
    ensures ReadTail(vals, zone) == At(vals, 0, ReadZone(zone).value)
  {
    assert FractionLength(zone) == 0 && zone[0..] == zone;
  }

  lemma ReadSecondOf(five: seq<nat>, second: nat, tail: string)
    requires |five| == 5 && second < 100
    ensures ReadSecond(five, Padded(second, 2) + tail) == ReadTail(five + [second], tail)
  {
    PowersOfTen();
    PaddedIsDecimal(second, 2);
    var rest := Padded(second, 2) + tail;
    assert rest[..2] == Padded(second, 2) && rest[2..] == tail;
  }

  /** Clock fields, to the second, and the tail. */
  function TextOf(vals: seq<nat>, tail: string): string
    requires |vals| == 6
  {
    Render(vals[..5], MINUTES) + (Padded(vals[5], 2) + tail)
  }

  lemma ReadText(vals: seq<nat>, tail: string)
    requires |vals| == 6 && Fits(vals, WHOLE)
    ensures ParseTime(TextOf(vals, tail)) == ReadTail(vals, tail)
  {
    var five := vals[..5];
    assert vals[5] < 100 by {
      PowersOfTen();
      assert vals[5] < Pow10(WHOLE[5].0);
    }
    MinutesFit(vals);
    ReadOfRender(five, MINUTES, Padded(vals[5], 2) + tail);
    assert ReadMinutes(TextOf(vals, tail)) == Some((five, Padded(vals[5], 2) + tail));
    ReadSecondOf(five, vals[5], tail);
    assert five + [vals[5]] == vals;
  }

  lemma MinutesFit(vals: seq<nat>)
    requires |vals| == 6 && Fits(vals, WHOLE)
    ensures Fits(vals[..5], MINUTES)
  {
    assert forall i | 0 <= i < 5 :: vals[..5][i] == vals[i] && MINUTES[i] == WHOLE[i];
  }

  lemma Regroup(head: string, second: string, dot: string, digits: string, z: string)
    ensures head + second + dot + (digits + z) == head + (second + (dot + digits + z))
  {
  }

  lemma DotAndNanos(vals: seq<nat>, nanos: nat)
    requires |vals| == 6
    ensures Render(vals + [nanos], FULL) == Render(vals, DOTTED) + (Padded(nanos, 9) + "Z")
  {
    RenderOfSum(vals, [nanos], DOTTED, [(9, 'Z')]);
    assert Render([nanos], [(9, 'Z')]) == Padded(nanos, 9) + ['Z'] + Render([], []);
  }

  lemma FullParts(vals: seq<nat>, nanos: nat)
    requires |vals| == 6
    ensures Render(vals + [nanos], FULL) == TextOf(vals, ['.'] + Padded(nanos, 9) + "Z")
  {
    DotAndNanos(vals, nanos);
    SecondsThenSeparator(vals, '.');
    Regroup(Render(vals[..5], MINUTES), Padded(vals[5], 2), ['.'], Padded(nanos, 9), "Z");
  }

  /** A formatted instant, in parts. */
  lemma FormatParts(t: Instant)
    requires InYears(t)
    ensures FormatTime(t) == TextOf(Seconds(t), ['.'] + Padded(Nanos(t), 9) + "Z")
  {
    var vals, nanos := Seconds(t), Nanos(t);
    FullParts(vals, nanos);
    assert "" + Render(vals + [nanos], FULL) == Render(vals + [nanos], FULL);
  }

  lemma NanosDigits(t: Instant)
    ensures var digits := Padded(Nanos(t), 9);
      |digits| == 9 && AllDigits(digits) && NumberOf(digits) == Nanos(t) && Fraction(digits) == Nanos(t)
  {
    FieldsOfInstant(t);
    PowersOfTen();
    PaddedIsDecimal(Nanos(t), 9);
    assert Pow10(0) == 1;
  }

  /** Of the fields of an instant: they fit their widths and name that instant. */
  lemma FieldsName(t: Instant)
    requires InYears(t)
    ensures Fits(Seconds(t), WHOLE) && FromFields(Seconds(t), Nanos(t)) == Some(t)
  {
    FieldsFit(t);
    FromFieldsOfInstant(t);
  }

  lemma ReadBack(vals: seq<nat>, t: Instant, sep: char, digits: string, zone: string)
    requires |vals| == 6 && Fits(vals, WHOLE) && (sep == '.' || sep == ',') && ReadZone(zone).Some?
    requires digits != "" && AllDigits(digits) && FromFields(vals, Fraction(digits)) == Some(t)
    ensures ParseTime(TextOf(vals, [sep] + digits + zone)) == Some(t - ReadZone(zone).value * NANOS)
  {
    hide ParseTime, TextOf, ReadTail, FromFields, Fits;
    ReadText(vals, [sep] + digits + zone);
    TailOfFraction(vals, sep, digits, zone);
  }

  lemma WholeReadBack(vals: seq<nat>, t: Instant, zone: string)
    requires |vals| == 6 && Fits(vals, WHOLE) && ReadZone(zone).Some? && FromFields(vals, 0) == Some(t)
    ensures ParseTime(TextOf(vals, zone)) == Some(t - ReadZone(zone).value * NANOS)
  {
    hide ParseTime, TextOf, ReadTail, FromFields, Fits;
    ReadText(vals, zone);
    TailOfWhole(vals, zone);
  }

  /** What a host in another zone may have written for its clock's fields: a dot or a comma, and the offset. */
  function FormatLocal(local: Instant, sep: char, zone: string): string {
    TextOf(Seconds(local), [sep] + Padded(Nanos(local), 9) + zone)
  }

  /** Whatever zone a text was written in, it is read as the instant it names. */
  lemma ParseOfLocal(local: Instant, sep: char, zone: string)
    requires (sep == '.' || sep == ',') && ReadZone(zone).Some? && InYears(local)
    ensures ParseTime(FormatLocal(local, sep, zone)) == Some(local - ReadZone(zone).value * NANOS)
  {
    NanosDigits(local);
    FieldsName(local);
    ReadBack(Seconds(local), local, sep, Padded(Nanos(local), 9), zone);
  }

  /** Reading back what was written gives the same instant. */
  lemma ParseOfFormat(t: Instant)
    requires InYears(t)
    ensures ParseTime(FormatTime(t)) == Some(t)
  {
    hide ParseTime, FormatTime, TextOf, InYears;
    FormatParts(t);
    ParseOfLocal(t, '.', "Z");
  }

  // ----- Which readable texts are the ones written -----

  /** Where the rest begins: after 17 characters, or after 16 when the hour is one digit. */
  lemma ReadMinutesSplits(s: string)
    requires ReadMinutes(s).Some?
    ensures var (vals, rest) := ReadMinutes(s).value;
      && |s| >= |rest| && rest == s[|s| - |rest|..]
      && (|s| - |rest| == if ReadFields(s, MINUTES).Some? then 17 else 16)
      && (ReadFields(s, MINUTES).Some? ==> Fits(vals, MINUTES) && s == Render(vals, MINUTES) + rest)
  {
    MinutesWidths();
    var layout := if ReadFields(s, MINUTES).Some? then MINUTES else ONE_DIGIT_HOUR;
    var (vals, rest) := ReadMinutes(s).value;
    RenderOfRead(s, layout);
    RenderWidth(vals, layout);
  }

  /** Only a Z ends in Z. */
  lemma ZoneEnd(zone: string)
    requires ReadZone(zone).Some?
    ensures zone != "" && (zone == "Z" <==> zone[|zone| - 1] == 'Z') && (|zone| == 1 || |zone| == 6)
    ensures !IsDigit(zone[0]) && zone[0] != '.' && zone[0] != ','
  {
    if zone != "Z" {
      assert AllDigits(zone[4..]) && zone[4..][1] == zone[5];
    }
  }

  /** A readable text of 30 characters with its dot and its Z where they belong: nine digits lie between. */
  lemma WrittenShape(s: string)
    requires |s| == 30 && ParseTime(s).Some? && s[19] == '.' && s[29] == 'Z'
    ensures ReadFields(s, MINUTES).Some?
    ensures var rest := ReadMinutes(s).value.1;
      && |rest| == 13 && AllDigits(rest[..2])
      && rest == rest[..2] + (['.'] + rest[3..12] + "Z")
      && AllDigits(rest[3..12])
  {
    ReadMinutesSplits(s);
    var rest := ReadMinutes(s).value.1;
    var tail := rest[2..];
    var n := FractionLength(tail);
    var zone := tail[n..];
    ZoneEnd(zone);
    assert zone[|zone| - 1] == s[29];
    assert zone == "Z" && n + 1 == |tail|;
    assert AllDigits(tail[1..n]) && tail[1..n][0] == tail[1];
    assert ReadFields(s, MINUTES).Some?;
    assert rest[3..12] == tail[1..n];
  }

  /** The fields and nanoseconds such a text names. */
  lemma WrittenFields(s: string) returns (vals: seq<nat>, nanos: nat)
    requires |s| == 30 && ParseTime(s).Some? && s[19] == '.' && s[29] == 'Z'
    ensures |vals| == 6 && vals[0] <= 9999
    ensures s == TextOf(vals, ['.'] + Padded(nanos, 9) + "Z")
    ensures ParseTime(s) == At(vals, nanos, 0)
  {
    WrittenShape(s);
    ReadMinutesSplits(s);
    var (five, rest) := ReadMinutes(s).value;
    var second, digits := NumberOf(rest[..2]), rest[3..12];
    vals, nanos := five + [second], NumberOf(digits);
    assert Padded(second, 2) == rest[..2] && Padded(nanos, 9) == digits by {
      DigitsArePadded(rest[..2]);
      DigitsArePadded(digits);
    }
    assert rest[2..] == ['.'] + digits + "Z" && vals[..5] == five;
    assert ReadSecond(five, rest) == At(vals, nanos, 0) by {
      TailOfFraction(vals, '.', digits, "Z");
      assert Fraction(digits) == nanos by {
        assert Pow10(0) == 1;
      }
    }
    assert vals[0] <= 9999 by {
      PowersOfTen();
      assert vals[0] == five[0] < Pow10(MINUTES[0].0);
    }
  }

  lemma FormatOfFields(vals: seq<nat>, nanos: nat)
    requires |vals| == 6 && vals[0] <= 9999 && FromFields(vals, nanos).Some?
    ensures var t := FromFields(vals, nanos).value;
      InYears(t) && FormatTime(t) == TextOf(vals, ['.'] + Padded(nanos, 9) + "Z")
  {
    hide FormatTime, TextOf, FromFields;
    FieldsOfFromFields(vals, nanos);
    FormatParts(FromFields(vals, nanos).value);
  }

  lemma WrittenIsReproduced(s: string)
    requires |s| == 30 && ParseTime(s).Some? && s[19] == '.' && s[29] == 'Z'
    ensures InYears(ParseTime(s).value) && FormatTime(ParseTime(s).value) == s
  {
    hide ParseTime, FormatTime, TextOf, FromFields, InYears;
    var vals, nanos := WrittenFields(s);
    FormatOfFields(vals, nanos);
  }

  /** Outside the years four digits can name, what is written is not readable at all. */
  lemma OtherYearsAreUnreadable(t: Instant)
    requires !InYears(t)
    ensures ParseTime(FormatTime(t)).None?
  {
    var s := FormatTime(t);
    FixedWidth(t);
    if DateOf(t).year < 0 {
      assert s[0] == '-' && s[..4][0] == '-';
    } else {
      var y := Seconds(t)[0];
      PowersOfTen();
      PaddedIsDecimal(y, 4);
      FirstField(y, (Seconds(t) + [Nanos(t)])[1..], 4, '-', FULL[1..]);
      assert [y] + (Seconds(t) + [Nanos(t)])[1..] == Seconds(t) + [Nanos(t)] && [(4, '-')] + FULL[1..] == FULL;
      assert s[4] == Padded(y, 4)[4];
    }
  }

  /** Of the texts that can be read, FormatTime writes exactly those of 30 characters with a dot and a Z in their places. */
  lemma FormatOfParse(s: string)
    requires ParseTime(s).Some?
    ensures FormatTime(ParseTime(s).value) == s <==> |s| == 30 && s[19] == '.' && s[29] == 'Z'
  {
    var t := ParseTime(s).value;
    if FormatTime(t) == s {
      if !InYears(t) {
        OtherYearsAreUnreadable(t);
        assert false;
      }
      FixedWidth(t);
      FormatParts(t);
      NanosDigits(t);
    } else if |s| == 30 && s[19] == '.' && s[29] == 'Z' {
      WrittenIsReproduced(s);
      assert false;
    }
  }

  // ----- time.RFC3339Nano, which trims zeros -----

  function TrimZeros(s: string): string {
    if s != "" && s[|s| - 1] == '0' then TrimZeros(s[..|s| - 1]) else s
  }

  function FormatNano(t: Instant): string {
    (if DateOf(t).year < 0 then "-" else "") +
    if Nanos(t) == 0 then Render(Seconds(t), WHOLE)
    else Render(Seconds(t), DOTTED) + (TrimZeros(Padded(Nanos(t), 9)) + "Z")
  }

  lemma TenTimes(n: nat, p: nat)
    ensures n * (10 * p) == 10 * (n * p)
  {
  }

  lemma {:induction false} TrimmingScales(s: string)
    requires AllDigits(s)
    ensures AllDigits(TrimZeros(s)) && |TrimZeros(s)| <= |s|
    ensures NumberOf(TrimZeros(s)) * Pow10(|s| - |TrimZeros(s)|) == NumberOf(s)
  {
    if s != "" && s[|s| - 1] == '0' {
      TrimmingScales(s[..|s| - 1]);
      var t := TrimZeros(s);
      assert Pow10(|s| - |t|) == 10 * Pow10(|s| - 1 - |t|);
      TenTimes(NumberOf(t), Pow10(|s| - 1 - |t|));
    }
  }

  lemma TrimmedParts(vals: seq<nat>, digits: string)
    requires |vals| == 6
    ensures Render(vals, WHOLE) == TextOf(vals, "Z")
    ensures Render(vals, DOTTED) + (digits + "Z") == TextOf(vals, ['.'] + digits + "Z")
  {
    SecondsThenSeparator(vals, 'Z');
    SecondsThenSeparator(vals, '.');
    Regroup(Render(vals[..5], MINUTES), Padded(vals[5], 2), ['.'], digits, "Z");
    assert Render(vals[..5], MINUTES) + Padded(vals[5], 2) + ['Z'] == Render(vals[..5], MINUTES) + (Padded(vals[5], 2) + "Z");
  }

  /** The trimmed form, in parts. */
  lemma NanoParts(t: Instant)
    requires InYears(t)
    ensures FormatNano(t) == TextOf(Seconds(t), if Nanos(t) == 0 then "Z" else ['.'] + TrimZeros(Padded(Nanos(t), 9)) + "Z")
  {
    TrimmedParts(Seconds(t), TrimZeros(Padded(Nanos(t), 9)));
    var text := TextOf(Seconds(t), if Nanos(t) == 0 then "Z" else ['.'] + TrimZeros(Padded(Nanos(t), 9)) + "Z");
    assert "" + text == text;
  }

  lemma TrimmedNanos(t: Instant)
    requires Nanos(t) > 0
    ensures var digits := TrimZeros(Padded(Nanos(t), 9));
      digits != "" && AllDigits(digits) && Fraction(digits) == Nanos(t)
  {
    NanosDigits(t);
    TrimmingScales(Padded(Nanos(t), 9));
  }

  /** The trimmed form is read as the same instant too. */
  lemma ParseOfTrimmed(t: Instant)
    requires InYears(t)
    ensures ParseTime(FormatNano(t)) == Some(t)
  {
    hide ParseTime, FormatNano, TextOf, FromFields, Fits, InYears;
    NanoParts(t);
    FieldsName(t);
    if Nanos(t) == 0 {
      WholeReadBack(Seconds(t), t, "Z");
    } else {
      TrimmedNanos(t);
      ReadBack(Seconds(t), t, '.', TrimZeros(Padded(Nanos(t), 9)), "Z");
    }
  }

  lemma SameSecond(s: Instant, t: Instant)
    requires InYears(s) && InYears(t) && Seconds(s) == Seconds(t) && Nanos(s) < Nanos(t)
    ensures s < t
  {
    InstantOrder(s, t);
    FieldsBeforeOfSum(Seconds(s), Seconds(t), [Nanos(s)], [Nanos(t)]);
    FieldsBeforeIsIrreflexive(Seconds(s));
  }

  lemma {:induction false} FieldsBeforeIsIrreflexive(a: seq<nat>)
    ensures !FieldsBefore(a, a)
  {
    if a != [] {
      FieldsBeforeIsIrreflexive(a[1..]);
    }
  }

  lemma FractionSortsFirst(vals: seq<nat>, digits: string)
    requires |vals| == 6
    ensures Before(TextOf(vals, ['.'] + digits + "Z"), TextOf(vals, "Z"))
  {
    var head, fraction := Render(vals[..5], MINUTES) + Padded(vals[5], 2), ['.'] + digits + "Z";
    assert TextOf(vals, fraction) == head + fraction && TextOf(vals, "Z") == head + "Z";
    assert fraction[0] == '.' && Before(fraction, "Z");
    BeforeAfterCommonLength(head, head, fraction, "Z");
  }

  /** ... but it is not ordered as the instants are: a whole second sorts after every later fraction of it. */
  lemma TrimmedOrderIsNotTimeOrder(s: Instant, t: Instant)
    requires InYears(s) && InYears(t)
    requires Nanos(s) == 0 && Nanos(t) > 0 && Seconds(s) == Seconds(t)
    ensures s < t && Before(FormatNano(t), FormatNano(s))
  {
    hide InYears, FormatNano, TextOf, Before;
    SameSecond(s, t);
    NanoParts(s);
    NanoParts(t);
    FractionSortsFirst(Seconds(t), TrimZeros(Padded(Nanos(t), 9)));
  }

  // ----- The clock and the text as they are told -----

  /** One nanosecond on, as an odometer of nanoseconds, seconds, minutes, hours and days turns. */
  function Ticked(d: Date, c: seq<nat>): (Date, seq<nat>)
    requires |c| == 4
  {
    if c[3] < 999_999_999 then (d, [c[0], c[1], c[2], c[3] + 1])
    else if c[2] < 59 then (d, [c[0], c[1], c[2] + 1, 0])
    else if c[1] < 59 then (d, [c[0], c[1] + 1, 0, 0])
    else if c[0] < 23 then (d, [c[0] + 1, 0, 0, 0])
    else (DayAfter(d), [0, 0, 0, 0])
  }

  /** The zero instant is midnight of 1 January of year 1, and every instant's fields are the ticked fields of the one before. */
  lemma FieldsTick(t: Instant)
    ensures DateOf(0) == Date(1, 1, 1) && ClockOf(0) == [0, 0, 0, 0]
    ensures (DateOf(t + 1), ClockOf(t + 1)) == Ticked(DateOf(t), ClockOf(t))
  {
    hide DayAfter, ClockOf, DateOf;
    var (d, c) := (DateOf(t), ClockOf(t));
    FieldsOfInstant(t);
    TickedIsNext(d, c);
    InstantOfFields(Ticked(d, c).0, Ticked(d, c).1);
    TickedIsNext(Date(1, 1, 1), [0, 0, 0, 0]);
    InstantOfFields(Date(1, 1, 1), [0, 0, 0, 0]);
    FirstDay();
  }

  lemma TickedIsNext(d: Date, c: seq<nat>)
    requires Valid(d) && ValidClock(c)
    ensures var (d', c') := Ticked(d, c); Valid(d') && ValidClock(c') && InstantAt(d', c') == InstantAt(d, c) + 1
    ensures InstantAt(Date(1, 1, 1), [0, 0, 0, 0]) == 0
  {
    hide DayAfter, DayNumber, Valid;
    FirstDay();
    DayAfterIsNext(d);
    ClockTicks(c);
  }

  lemma ClockTicks(c: seq<nat>)
    requires ValidClock(c)
    ensures var after := Ticked(Date(1, 1, 1), c).1;
      && ValidClock(after)
      && (after[0] * 3600 + after[1] * 60 + after[2]) * NANOS + after[3]
         == (c[0] * 3600 + c[1] * 60 + c[2]) * NANOS + c[3] + 1 - if after == [0, 0, 0, 0] then 86400 * NANOS else 0
  {
  }

  /** The text of an instant, piece by piece. */
  lemma TextIs(t: Instant)
    requires InYears(t)
    ensures var (d, c) := (DateOf(t), ClockOf(t));
      FormatTime(t) == Padded(d.year, 4) + ("-" + (Padded(d.month, 2) + ("-" + (Padded(d.day, 2) + ("T" + (Padded(c[0], 2) + (":"
        + (Padded(c[1], 2) + (":" + (Padded(c[2], 2) + ("." + (Padded(c[3], 9) + "Z"))))))))))))
  {
    var vals := Seconds(t) + [Nanos(t)];
    PiecesOf(vals);
    assert "" + Render(vals, FULL) == Render(vals, FULL);
  }

  lemma PiecesOf(v: seq<nat>)
    requires |v| == 7
    ensures Render(v, FULL) == Padded(v[0], 4) + ("-" + (Padded(v[1], 2) + ("-" + (Padded(v[2], 2) + ("T" + (Padded(v[3], 2) + (":"
      + (Padded(v[4], 2) + (":" + (Padded(v[5], 2) + ("." + (Padded(v[6], 9) + "Z"))))))))))))
  {
    hide Padded;
    RenderedFrom(v, 0);
    RenderedFrom(v, 1);
    RenderedFrom(v, 2);
    RenderedFrom(v, 3);
    RenderedFrom(v, 4);
    RenderedFrom(v, 5);
    RenderedFrom(v, 6);
    assert v[0..] == v && FULL[0..] == FULL && v[7..] == [] && FULL[7..] == [];
    assert ['Z'] + "" == "Z";
  }

  lemma RenderedFrom(v: seq<nat>, i: nat)
    requires |v| == 7 && i < 7
    ensures Render(v[i..], FULL[i..]) == Padded(v[i], FULL[i].0) + ([FULL[i].1] + Render(v[i + 1..], FULL[i + 1..]))
  {
    assert v[i..][1..] == v[i + 1..] && FULL[i..][1..] == FULL[i + 1..];
  }

  /** An offset is hours and minutes east of UTC, or west of it. */
  lemma OffsetIs(h: nat, m: nat)
    requires h <= 24 && m <= 60
    ensures ReadZone("+" + Padded(h, 2) + ":" + Padded(m, 2)) == Some(h * 3600 + m * 60)
    ensures ReadZone("-" + Padded(h, 2) + ":" + Padded(m, 2)) == Some(-(h * 3600 + m * 60))
    ensures ReadZone("Z") == Some(0)
  {
    hide ReadZone;
    assert |Padded(h, 2)| == |Padded(m, 2)| == 2 by {
      PowersOfTen();
      PaddedIsDecimal(h, 2);
      PaddedIsDecimal(m, 2);
    }
    SignedOffset("+", h, m);
    SignedOffset("-", h, m);
    ZuluIsZero();
  }

  lemma ZuluIsZero()
    ensures ReadZone("Z") == Some(0)
  {
  }

  lemma SignedOffset(sign: string, h: nat, m: nat)
    requires (sign == "+" || sign == "-") && h <= 24 && m <= 60 && |Padded(h, 2)| == |Padded(m, 2)| == 2
    ensures ReadZone(sign + Padded(h, 2) + ":" + Padded(m, 2)) == Some(if sign == "-" then -(h * 3600 + m * 60) else h * 3600 + m * 60)
  {
    hide Padded;
    PaddedIsDecimal(h, 2);
    PaddedIsDecimal(m, 2);
    var zone := sign + Padded(h, 2) + ":" + Padded(m, 2);
    assert |zone| == 6 && zone[0] == sign[0] && zone[1..3] == Padded(h, 2) && zone[3] == ':' && zone[4..] == Padded(m, 2);
  }

  /** A fraction of a second, cut off at the nanosecond: the largest count of them that is not more. */
  lemma FractionIs(digits: string)
    requires AllDigits(digits)
    ensures Fraction(digits) * Pow10(|digits|) <= NumberOf(digits) * Pow10(9) < (Fraction(digits) + 1) * Pow10(|digits|)
  {
    if |digits| <= 9 {
      ShortFraction(digits);
    } else {
      LongFraction(digits);
    }
  }

  lemma ShortFraction(digits: string)
    requires AllDigits(digits) && |digits| <= 9
    ensures Fraction(digits) * Pow10(|digits|) <= NumberOf(digits) * Pow10(9) < (Fraction(digits) + 1) * Pow10(|digits|)
  {
    hide NumberOf, Pow10;
    PowersAdd(9 - |digits|, |digits|);
    PositivePower(|digits|);
    Regrouped(NumberOf(digits), Pow10(9 - |digits|), Pow10(|digits|));
  }

  lemma LongFraction(digits: string)
    requires AllDigits(digits) && |digits| > 9
    ensures Fraction(digits) * Pow10(|digits|) <= NumberOf(digits) * Pow10(9) < (Fraction(digits) + 1) * Pow10(|digits|)
  {
    hide NumberOf, Pow10;
    var front, back := digits[..9], digits[9..];
    assert digits == front + back;
    NumberOfSum(front, back);
    DigitsArePadded(back);
    PowersAdd(|back|, 9);
    PositivePower(9);
    CutOff(NumberOf(front), NumberOf(back), Pow10(|back|), Pow10(9));
  }

  lemma Regrouped(n: nat, p: nat, q: nat)
    requires q > 0
    ensures n * p * q == n * (p * q) < (n * p + 1) * q
  {
  }

  lemma CutOff(n: nat, rest: nat, p: nat, q: nat)
    requires rest < p && q > 0
    ensures n * (p * q) <= (n * p + rest) * q < (n + 1) * (p * q)
  {
    assert (n * p + rest) * q == n * p * q + rest * q;
    assert n * p * q == n * (p * q);
    assert rest * q < p * q;
    assert (n + 1) * (p * q) == n * (p * q) + p * q;
  }

  lemma {:induction false} PowersAdd(a: nat, b: nat)
    ensures Pow10(a) * Pow10(b) == Pow10(a + b) && Pow10(a) > 0
  {
    if a > 0 {
      PowersAdd(a - 1, b);
      assert Pow10(a) * Pow10(b) == 10 * (Pow10(a - 1) * Pow10(b));
    } else {
      PositivePower(b);
    }
  }

  lemma {:induction false} PositivePower(a: nat)
    ensures Pow10(a) > 0
  {
    if a > 0 {
      PositivePower(a - 1);
    }
  }

  lemma {:induction false} NumberOfSum(a: string, b: string)
    requires AllDigits(a) && AllDigits(b)
    ensures AllDigits(a + b) && NumberOf(a + b) == NumberOf(a) * Pow10(|b|) + NumberOf(b)
  {
    if b == "" {
      assert a + b == a;
    } else {
      var front := b[..|b| - 1];
      NumberOfSum(a, front);
      assert (a + b)[..|a + b| - 1] == a + front;
      TenTimes(NumberOf(a), Pow10(|front|));
    }
  }

  // ----- Nullable columns -----

  /** What a driver may hand to Scan. */
  datatype Source = Null | Text(text: string) | Bytes(bytes: string) | Time(time: Instant) | Other

  /** The column written for an optional timestamp: nil and the zero instant are NULL. */
  function FormatTimePtr(t: Option<Instant>): Source {
    if t.None? || t.value == 0 then Null else Text(FormatTime(t.value))
  }

  class ScanTime {
    var time: Instant
    var valid: bool

    constructor ()
      ensures !valid && time == 0
    {
      time, valid := 0, false;
    }

    method Scan(src: Source) returns (ok: bool)
      modifies this
      ensures ok <==> src.Null? || src.Time? || (src.Text? && ParseTime(src.text).Some?) || (src.Bytes? && ParseTime(src.bytes).Some?)
      ensures !ok ==> time == old(time) && valid == old(valid)
      ensures ok ==> Ptr() == if src.Null? then None else if src.Time? then Some(src.time)
                              else ParseTime(if src.Text? then src.text else src.bytes)
    {
      var raw;
      match src {
        case Null =>
          time, valid := 0, false;
          return true;
        case Text(s) => raw := s;
        case Bytes(b) => raw := b;
        case Time(v) =>
          time, valid := v, true;
          return true;
        case Other =>
          return false;
      }
      var t := ParseTime(raw);
      if t.None? {
        return false;
      }
      time, valid := t.value, true;
      return true;
    }

    function Ptr(): Option<Instant>
      reads this
    {
      if valid then Some(time) else None
    }
  }

  /** What reading a column gives, for the columns FormatTimePtr writes. */
  function ReadColumn(src: Source): Option<Instant>
    requires src.Null? || src.Text?
  {
    if src.Null? then None else ParseTime(src.text)
  }

  /** An optional timestamp survives the column exactly when it is not the zero instant. */
  lemma OptionalRoundTrip(t: Option<Instant>)
    requires t.Some? ==> InYears(t.value)
    ensures ReadColumn(FormatTimePtr(t)) == t <==> t != Some(0)
  {
    if t.Some? && t.value != 0 {
      ParseOfFormat(t.value);
    }
  }
}
