/** Which texts a timestamp column can be read from, spelled out character by character. */
module Spellings {
  import opened Wrappers
  import opened Text
  import opened Calendar
  import opened Timestamps

  // ----- The text -----

  function DateText(year: nat, month: nat, day: nat): string {
    Padded(year, 4) + "-" + Padded(month, 2) + "-" + Padded(day, 2) + "T"
  }

  function HourMinute(hour: string, minute: nat): string {
    hour + ":" + Padded(minute, 2) + ":"
  }

  /** Nothing for a whole second, else a dot or a comma and digits; those past the ninth are ignored. */
  ghost predicate SpellsFraction(fraction: string, nanos: nat) {
    if fraction == "" then nanos == 0
    else (fraction[0] == '.' || fraction[0] == ',') && |fraction| > 1 && AllDigits(fraction[1..]) && Fraction(fraction[1..]) == nanos
  }

  ghost predicate ShowsOffset(zone: string, h: nat, m: nat, east: int) {
    && h <= 24 && m <= 60
    && ((zone == "+" + Padded(h, 2) + ":" + Padded(m, 2) && east == h * 3600 + m * 60)
        || (zone == "-" + Padded(h, 2) + ":" + Padded(m, 2) && east == -(h * 3600 + m * 60)))
  }

  /** Z, or hours up to 24 and minutes up to 60 east or west of UTC, in two digits each. */
  ghost predicate SpellsZone(zone: string, east: int) {
    (zone == "Z" && east == 0) || exists h: nat, m: nat :: ShowsOffset(zone, h, m, east)
  }

  /** The text shows a date and a clock in some zone, the hour in one digit or two, and they name the instant. */
  ghost predicate Spells(s: string, t: Instant, d: Date, c: seq<nat>, hourWidth: nat, fraction: string, zone: string, east: int) {
    && Valid(d) && 0 <= d.year <= 9999 && ValidClock(c)
    && (hourWidth == 2 || (hourWidth == 1 && c[0] < 10))
    && SpellsFraction(fraction, c[3]) && SpellsZone(zone, east)
    && s == DateText(d.year, d.month, d.day) + HourMinute(Padded(c[0], hourWidth), c[1]) + (Padded(c[2], 2) + (fraction + zone))
    && t == InstantAt(d, c) - east * NANOS
  }

  // ----- Zones -----

  lemma ZoneSpelled(zone: string, east: int)
    requires ReadZone(zone) == Some(east)
    ensures SpellsZone(zone, east)
  {
    if zone != "Z" {
      hide Padded, NumberOf;
      var h, m := NumberOf(zone[1..3]), NumberOf(zone[4..]);
      DigitsArePadded(zone[1..3]);
      DigitsArePadded(zone[4..]);
      assert zone == [zone[0]] + zone[1..3] + ":" + zone[4..];
      assert ShowsOffset(zone, h, m, east);
    }
  }

  lemma ZoneIs(zone: string, east: int)
    ensures ReadZone(zone) == Some(east) <==> SpellsZone(zone, east)
  {
    ZuluIsZero();
    if ReadZone(zone) == Some(east) {
      ZoneSpelled(zone, east);
    } else if SpellsZone(zone, east) {
      hide ReadZone, ShowsOffset;
      var h: nat, m: nat :| ShowsOffset(zone, h, m, east);
      OffsetRead(zone, h, m, east);
      assert false;
    }
  }

  lemma OffsetRead(zone: string, h: nat, m: nat, east: int)
    requires ShowsOffset(zone, h, m, east)
    ensures ReadZone(zone) == Some(east)
  {
    hide ReadZone, Padded;
    OffsetIs(h, m);
  }

  // ----- Year to minute -----

  function Minutes(w: nat): Layout {
    [(4, '-'), (2, '-'), (2, 'T'), (w, ':'), (2, ':')]
  }

  lemma RenderStep(v: seq<nat>, layout: Layout, i: nat)
    requires |v| == |layout| && i < |v|
    ensures Render(v[i..], layout[i..]) == Padded(v[i], layout[i].0) + [layout[i].1] + Render(v[i + 1..], layout[i + 1..])
  {
    assert v[i..][1..] == v[i + 1..] && layout[i..][1..] == layout[i + 1..];
  }

  lemma MinutesText(v: seq<nat>, w: nat)
    requires |v| == 5
    ensures Render(v, Minutes(w)) == DateText(v[0], v[1], v[2]) + HourMinute(Padded(v[3], w), v[4])
  {
    hide Padded, Render;
    RenderStep(v, Minutes(w), 0);
    RenderStep(v, Minutes(w), 1);
    RenderStep(v, Minutes(w), 2);
    RenderStep(v, Minutes(w), 3);
    RenderStep(v, Minutes(w), 4);
    assert v[0..] == v && Minutes(w)[0..] == Minutes(w) && v[5..] == [] && Minutes(w)[5..] == [];
    NothingRendered();
  }

  lemma NothingRendered()
    ensures Render([], []) == ""
  {
  }

  lemma MinutesFitting(v: seq<nat>, w: nat)
    requires |v| == 5
    ensures Fits(v, Minutes(w)) <==> v[0] <= 9999 && v[1] < 100 && v[2] < 100 && v[3] < Pow10(w) && v[4] < 100
  {
    PowersOfTen();
  }

  /** The thirteenth character tells a one-digit hour from a two-digit one. */
  lemma HourDigits(v: seq<nat>, w: nat, rest: string)
    requires |v| == 5 && 1 <= w <= 2 && Fits(v, Minutes(w))
    ensures var s := Render(v, Minutes(w)) + rest; |s| > 12 && (IsDigit(s[12]) <==> w == 2)
  {
    PowersOfTen();
    MinutesText(v, w);
    MinutesFitting(v, w);
    PaddedIsDecimal(v[3], w);
    DateWidth(v[0], v[1], v[2]);
    hide Padded, Render, AllDigits, DateText, Pow10, NumberOf, Fits;
    Thirteenth(DateText(v[0], v[1], v[2]), Padded(v[3], w), Padded(v[4], 2) + ":", rest);
    assert HourMinute(Padded(v[3], w), v[4]) == Padded(v[3], w) + ":" + (Padded(v[4], 2) + ":");
  }

  lemma DateWidth(year: nat, month: nat, day: nat)
    requires year <= 9999 && month < 100 && day < 100
    ensures |DateText(year, month, day)| == 11
  {
    PowersOfTen();
    PaddedIsDecimal(year, 4);
    PaddedIsDecimal(month, 2);
    PaddedIsDecimal(day, 2);
  }

  lemma Thirteenth(date: string, hour: string, minute: string, rest: string)
    requires |date| == 11 && 1 <= |hour| <= 2 && AllDigits(hour)
    ensures var s := date + (hour + ":" + minute) + rest; |s| > 12 && (IsDigit(s[12]) <==> |hour| == 2)
  {
    var s := date + (hour + ":" + minute) + rest;
    assert s[12] == (hour + ":" + minute)[1];
  }

  /** Year to minute are read from either spelling, and from nothing else. */
  lemma MinutesRead(v: seq<nat>, w: nat, rest: string)
    requires |v| == 5 && 1 <= w <= 2 && Fits(v, Minutes(w))
    ensures ReadMinutes(Render(v, Minutes(w)) + rest) == Some((v, rest))
  {
    var s := Render(v, Minutes(w)) + rest;
    ReadOfRender(v, Minutes(w), rest);
    if w == 1 && ReadFields(s, MINUTES).Some? {
      var (vals, more) := ReadFields(s, MINUTES).value;
      RenderOfRead(s, MINUTES);
      HourDigits(v, 1, rest);
      HourDigits(vals, 2, more);
      assert false;
    }
  }

  // ----- The tail -----

  lemma TailRead(vals: seq<nat>, fraction: string, nanos: nat, zone: string, east: int)
    requires |vals| == 6 && SpellsFraction(fraction, nanos) && ReadZone(zone) == Some(east)
    ensures ReadTail(vals, fraction + zone) == At(vals, nanos, east)
  {
    if fraction == "" {
      TailOfWhole(vals, zone);
      assert fraction + zone == zone;
    } else {
      TailOfFraction(vals, fraction[0], fraction[1..], zone);
      assert [fraction[0]] + fraction[1..] == fraction;
    }
  }

  lemma TailSpelled(vals: seq<nat>, tail: string) returns (fraction: string, nanos: nat, zone: string, east: int)
    requires |vals| == 6 && ReadTail(vals, tail).Some?
    ensures tail == fraction + zone && SpellsFraction(fraction, nanos) && ReadZone(zone) == Some(east)
    ensures ReadTail(vals, tail) == At(vals, nanos, east)
  {
    var n := FractionLength(tail);
    fraction, zone := tail[..n], tail[n..];
    nanos := if n == 0 then 0 else Fraction(tail[1..n]);
    east := ReadZone(zone).value;
    if n > 0 {
      assert fraction[1..] == tail[1..n];
    }
  }

  // ----- The texts that can be read -----

  /** Six fields and a tail are read, the hour in one digit or two. */
  lemma FieldsRead(five: seq<nat>, w: nat, second: nat, tail: string)
    requires |five| == 5 && 1 <= w <= 2 && Fits(five, Minutes(w)) && second < 100
    ensures ParseTime(Render(five, Minutes(w)) + (Padded(second, 2) + tail)) == ReadTail(five + [second], tail)
  {
    hide Padded, Render, Fits, ReadTail, ReadMinutes, ReadSecond;
    MinutesRead(five, w, Padded(second, 2) + tail);
    ReadSecondOf(five, second, tail);
  }

  lemma FieldsSpelled(s: string) returns (five: seq<nat>, w: nat, second: nat, tail: string)
    requires ParseTime(s).Some?
    ensures |five| == 5 && 1 <= w <= 2 && Fits(five, Minutes(w)) && s == Render(five, Minutes(w)) + (Padded(second, 2) + tail)
    ensures ReadTail(five + [second], tail) == ParseTime(s)
  {
    hide Padded, Render, Fits, ReadTail, NumberOf, ReadFields;
    w := if ReadFields(s, MINUTES).Some? then 2 else 1;
    RenderOfRead(s, Minutes(w));
    var rest := ReadMinutes(s).value.1;
    five, second, tail := ReadMinutes(s).value.0, NumberOf(rest[..2]), rest[2..];
    DigitsArePadded(rest[..2]);
    assert rest == rest[..2] + tail;
  }

  lemma FieldsOf(d: Date, c: seq<nat>, w: nat)
    requires Valid(d) && 0 <= d.year && ValidClock(c) && 1 <= w <= 2
    ensures var five := [d.year, d.month, d.day, c[0], c[1]];
      && Render(five, Minutes(w)) == DateText(d.year, d.month, d.day) + HourMinute(Padded(c[0], w), c[1])
      && (Fits(five, Minutes(w)) <==> d.year <= 9999 && (w == 2 || c[0] < 10))
      && FromFields(five + [c[2]], c[3]) == Some(InstantAt(d, c))
  {
    hide Padded, Render, InstantAt, Fits;
    var five := [d.year, d.month, d.day, c[0], c[1]];
    PowersOfTen();
    assert Pow10(1) == 10;
    MinutesText(five, w);
    MinutesFitting(five, w);
    assert [c[0], c[1], c[2], c[3]] == c;
  }

  lemma SpelledIsRead(s: string, t: Instant, d: Date, c: seq<nat>, w: nat, fraction: string, zone: string, east: int)
    requires Spells(s, t, d, c, w, fraction, zone, east)
    ensures ParseTime(s) == Some(t)
  {
    hide Padded, Render, InstantAt, Fits, ParseTime, ReadTail, FromFields, DateText, HourMinute, SpellsZone, SpellsFraction;
    var five := [d.year, d.month, d.day, c[0], c[1]];
    FieldsOf(d, c, w);
    FieldsRead(five, w, c[2], fraction + zone);
    ZoneIs(zone, east);
    TailRead(five + [c[2]], fraction, c[3], zone, east);
  }

  lemma ReadIsSpelled(s: string) returns (d: Date, c: seq<nat>, w: nat, fraction: string, zone: string, east: int)
    requires ParseTime(s).Some?
    ensures Spells(s, ParseTime(s).value, d, c, w, fraction, zone, east)
  {
    hide Padded, Render, InstantAt, Fits, ParseTime, ReadTail, DateText, HourMinute, SpellsZone, SpellsFraction;
    var five, second, nanos, tail;
    five, w, second, tail := FieldsSpelled(s);
    fraction, nanos, zone, east := TailSpelled(five + [second], tail);
    ZoneIs(zone, east);
    d, c := Date(five[0], five[1], five[2]), [five[3], five[4], second, nanos];
    assert FromFields(five + [second], nanos) == Some(InstantAt(d, c));
    assert five == [d.year, d.month, d.day, c[0], c[1]];
    FieldsOf(d, c, w);
  }

  /** A text reads as an instant exactly when it spells a date and a clock that name the instant in some zone. */
  lemma ReadableIff(s: string, t: Instant)
    ensures ParseTime(s) == Some(t) <==> exists d, c, w, fraction, zone, east :: Spells(s, t, d, c, w, fraction, zone, east)
  {
    hide ParseTime, Spells;
    if ParseTime(s) == Some(t) {
      var d, c, w, fraction, zone, east := ReadIsSpelled(s);
    } else if exists d, c, w, fraction, zone, east :: Spells(s, t, d, c, w, fraction, zone, east) {
      var d, c, w, fraction, zone, east :| Spells(s, t, d, c, w, fraction, zone, east);
      SpelledIsRead(s, t, d, c, w, fraction, zone, east);
      assert false;
    }
  }
}
