/**
 UTC datetimes, the text both databases store for them, and how the order of that text
 relates to the order of time.
 */
module Timestamps {
  import opened Numerals
  import opened Text

  datatype Fields = Fields(year: nat, month: nat, day: nat, hour: nat, minute: nat, second: nat, micro: nat)

  predicate IsLeap(year: nat) {
    year % 4 == 0 && (year % 100 != 0 || year % 400 == 0)
  }

  function DaysIn(year: nat, month: nat): nat {
    if month == 2 then (if IsLeap(year) then 29 else 28)
    else if month in {4, 6, 9, 11} then 30
    else 31
  }

  predicate IsDateTime(t: Fields) {
    && 1 <= t.year <= 9999 && 1 <= t.month <= 12 && 1 <= t.day <= DaysIn(t.year, t.month)
    && t.hour < 24 && t.minute < 60 && t.second < 60 && t.micro < 1_000_000
  }

  /** A Python `datetime` in UTC. */
  type Utc = t: Fields | IsDateTime(t) witness Fields(1970, 1, 1, 0, 0, 0, 0)

  // ---- printing and parsing ---------------------------------------------------------------

  /** Date and time to the second, followed by `tail`. */
  function Stamp(t: Utc, tail: string): string {
    Pad(t.year, 4) + ("-" + (Pad(t.month, 2) + ("-" + (Pad(t.day, 2) + ("T" + (Pad(t.hour, 2)
    + (":" + (Pad(t.minute, 2) + (":" + (Pad(t.second, 2) + tail))))))))))
  }

  /** `isoformat()` prints no fraction at all when the microseconds are zero. */
  function Fraction(t: Utc): string {
    if t.micro == 0 then "" else "." + Pad(t.micro, 6)
  }

  function Isoformat(t: Utc): string {
    Stamp(t, Fraction(t) + "+00:00")
  }

  function FormatTimestamp(t: Utc): string {
    Replace(Isoformat(t), "+00:00", "Z")
  }

  datatype Parsed = Parsed(time: Utc) | Malformed

  function Assemble(t: Fields, ok: bool): Parsed {
    if ok && IsDateTime(t) then Parsed(t) else Malformed
  }

  function AsNat(n: int): nat {
    if n < 0 then 0 else n
  }

  /** Microseconds of a fraction part, `-1` when it is not one `isoformat` prints. */
  function ReadFraction(s: string): int {
    if s == "" then 0
    else if |s| == 7 && s[0] == '.' then ReadDigits(s[1..])
    else -1
  }

  /** The forms `isoformat()` prints for a UTC datetime. */
  function FromIsoformat(s: string): Parsed {
    if |s| < 25 || s[|s| - 6..] != "+00:00" then Malformed
    else
      var year, month, day := ReadDigits(s[..4]), ReadDigits(s[5..7]), ReadDigits(s[8..10]);
      var hour, minute, second := ReadDigits(s[11..13]), ReadDigits(s[14..16]), ReadDigits(s[17..19]);
      var micro := ReadFraction(s[19..|s| - 6]);
      Assemble(
        Fields(AsNat(year), AsNat(month), AsNat(day), AsNat(hour), AsNat(minute), AsNat(second), AsNat(micro)),
        && s[4] == '-' && s[7] == '-' && s[10] == 'T' && s[13] == ':' && s[16] == ':'
        && year >= 0 && month >= 0 && day >= 0 && hour >= 0 && minute >= 0 && second >= 0 && micro >= 0)
  }

  function ParseTimestamp(s: string): Parsed {
    FromIsoformat(Replace(s, "Z", "+00:00"))
  }

  lemma StampLayout(t: Utc, tail: string)
    ensures var s := Stamp(t, tail);
            && |s| == 19 + |tail|
            && s[..4] == Pad(t.year, 4) && s[4] == '-'
            && s[5..7] == Pad(t.month, 2) && s[7] == '-'
            && s[8..10] == Pad(t.day, 2) && s[10] == 'T'
            && s[11..13] == Pad(t.hour, 2) && s[13] == ':'
            && s[14..16] == Pad(t.minute, 2) && s[16] == ':'
            && s[17..19] == Pad(t.second, 2)
            && s[19..] == tail
  {
    hide Pad;
    var s := Stamp(t, tail);
    var second := Pad(t.second, 2) + tail;
    var minute := Pad(t.minute, 2) + (":" + second);
    var hour := Pad(t.hour, 2) + (":" + minute);
    var day := Pad(t.day, 2) + ("T" + hour);
    var month := Pad(t.month, 2) + ("-" + day);
    Peel(s, 0, Pad(t.year, 4), "-", month);
    Peel(s, 5, Pad(t.month, 2), "-", day);
    Peel(s, 8, Pad(t.day, 2), "T", hour);
    Peel(s, 11, Pad(t.hour, 2), ":", minute);
    Peel(s, 14, Pad(t.minute, 2), ":", second);
    assert s[17..19] == s[17..][..2] && s[19..] == s[17..][2..];
  }

  /** One field and its separator, read off at position `i`. */
  lemma Peel(s: string, i: nat, field: string, separator: string, rest: string)
    requires i <= |s| && s[i..] == field + (separator + rest) && |separator| == 1
    ensures |s| == i + |field| + 1 + |rest|
    ensures s[i..i + |field|] == field && s[i + |field|] == separator[0] && s[i + |field| + 1..] == rest
  {
  }

  lemma StampPrefix(t: Utc, tail: string)
    ensures Stamp(t, tail) == Stamp(t, "") + tail
    ensures '+' !in Stamp(t, "") && 'Z' !in Stamp(t, "")
  {
    StampLayout(t, tail);
    StampLayout(t, "");
    var s, p := Stamp(t, tail), Stamp(t, "");
    assert s[..19] == p by { StampHead(t, tail, ""); }
    assert s == s[..19] + s[19..];
    forall i | 0 <= i < |p| ensures p[i] != '+' && p[i] != 'Z' {
      StampCharacter(t, i);
    }
  }

  lemma StampHead(t: Utc, x: string, y: string)
    ensures |Stamp(t, x)| >= 19 && |Stamp(t, y)| >= 19 && Stamp(t, x)[..19] == Stamp(t, y)[..19]
  {
  }

  lemma StampCharacter(t: Utc, i: nat)
    requires i < |Stamp(t, "")|
    ensures IsDigit(Stamp(t, "")[i]) || Stamp(t, "")[i] in "-T:"
  {
  }

  /** The stored text: the stamp, a fraction only when there are microseconds, and `Z`. */
  lemma FormatShape(t: Utc)
    ensures FormatTimestamp(t) == Stamp(t, Fraction(t) + "Z")
  {
    var p := Stamp(t, "") + Fraction(t);
    StampPrefix(t, Fraction(t) + "+00:00");
    StampPrefix(t, Fraction(t) + "Z");
    assert Isoformat(t) == p + "+00:00";
    assert '+' !in p;
    ReplaceSkips(p, "+00:00", "+00:00", "Z");
    assert Replace("+00:00", "+00:00", "Z") == "Z" + Replace("", "+00:00", "Z");
    assert p + "Z" == Stamp(t, "") + (Fraction(t) + "Z");
  }

  /** The same, read back field by field. */
  lemma FormatFields(t: Utc)
    ensures var s := FormatTimestamp(t);
            && |s| == (if t.micro == 0 then 20 else 27) && s[|s| - 1] == 'Z'
            && s[4] == '-' && s[7] == '-' && s[10] == 'T' && s[13] == ':' && s[16] == ':'
            && ReadDigits(s[..4]) == t.year && ReadDigits(s[5..7]) == t.month && ReadDigits(s[8..10]) == t.day
            && ReadDigits(s[11..13]) == t.hour && ReadDigits(s[14..16]) == t.minute && ReadDigits(s[17..19]) == t.second
            && (t.micro != 0 ==> s[19] == '.' && ReadDigits(s[20..26]) == t.micro)
  {
    FormatShape(t);
    StampLayout(t, Fraction(t) + "Z");
    PadsRead(t);
    hide Stamp, Pad, ReadDigits, Pow10;
    var s := FormatTimestamp(t);
    if t.micro != 0 {
      assert s[20..26] == s[19..][1..7] == Pad(t.micro, 6);
    }
  }

  lemma PadsRead(t: Utc)
    ensures ReadDigits(Pad(t.year, 4)) == t.year && ReadDigits(Pad(t.month, 2)) == t.month && ReadDigits(Pad(t.day, 2)) == t.day
    ensures ReadDigits(Pad(t.hour, 2)) == t.hour && ReadDigits(Pad(t.minute, 2)) == t.minute
    ensures ReadDigits(Pad(t.second, 2)) == t.second && ReadDigits(Pad(t.micro, 6)) == t.micro
  {
    assert Pow10(2) == 100 && Pow10(4) == 10_000 && Pow10(6) == 1_000_000;
    ReadPad(t.year, 4);
    ReadPad(t.month, 2);
    ReadPad(t.day, 2);
    ReadPad(t.hour, 2);
    ReadPad(t.minute, 2);
    ReadPad(t.second, 2);
    ReadPad(t.micro, 6);
  }

  lemma ParseIsoformat(t: Utc)
    ensures FromIsoformat(Isoformat(t)) == Parsed(t)
  {
    var tail := Fraction(t) + "+00:00";
    var s := Isoformat(t);
    StampLayout(t, tail);
    hide Pad, ReadDigits, Stamp;
    Parts(s, 19, Fraction(t), "+00:00");
    PadsRead(t);
    if t.micro > 0 {
      assert Fraction(t)[1..] == Pad(t.micro, 6);
    }
  }

  lemma SplitHead(s: string)
    requires |s| >= 19
    ensures s[..19] == s[..4] + [s[4]] + s[5..7] + [s[7]] + s[8..10] + [s[10]] + s[11..13] + [s[13]]
                       + s[14..16] + [s[16]] + s[17..19]
  {
  }

  /** A stamp is put together again from its fields. */
  lemma StampFrom(s: string, t: Utc)
    requires |s| >= 19
    requires s[4] == '-' && s[7] == '-' && s[10] == 'T' && s[13] == ':' && s[16] == ':'
    requires ReadDigits(s[..4]) == t.year && ReadDigits(s[5..7]) == t.month && ReadDigits(s[8..10]) == t.day
    requires ReadDigits(s[11..13]) == t.hour && ReadDigits(s[14..16]) == t.minute && ReadDigits(s[17..19]) == t.second
    ensures s == Stamp(t, s[19..])
  {
    PadRead(s[..4]);
    PadRead(s[5..7]);
    PadRead(s[8..10]);
    PadRead(s[11..13]);
    PadRead(s[14..16]);
    PadRead(s[17..19]);
    hide Pad, ReadDigits, Pow10;
    var u := Stamp(t, s[19..]);
    StampLayout(t, s[19..]);
    SplitHead(s);
    SplitHead(u);
    assert s == s[..19] + s[19..] && u == u[..19] + u[19..];
  }

  /** Six zeros, which `isoformat` never prints. */
  const ZeroFraction := "." + Pad(0, 6)

  /** The parser takes what `isoformat` prints, a written-out zero fraction, and nothing else. */
  lemma ParsesExactly(s: string, t: Utc)
    ensures ParseTimestamp(s) == Parsed(t) <==>
            var iso := Replace(s, "Z", "+00:00");
            iso == Isoformat(t) || (t.micro == 0 && iso == Stamp(t, ZeroFraction + "+00:00"))
  {
    var iso := Replace(s, "Z", "+00:00");
    if FromIsoformat(iso) == Parsed(t) {
      ParsedText(iso, t);
    }
    if iso == Isoformat(t) {
      ParseIsoformat(t);
    }
    if t.micro == 0 && iso == Stamp(t, ZeroFraction + "+00:00") {
      ParseZeroFraction(t);
    }
  }

  lemma ParsedText(iso: string, t: Utc)
    requires FromIsoformat(iso) == Parsed(t)
    ensures iso == Isoformat(t) || (t.micro == 0 && iso == Stamp(t, ZeroFraction + "+00:00"))
  {
    ParsedFields(iso, t);
    hide FromIsoformat, ReadDigits, Stamp, ReadFraction;
    StampFrom(iso, t);
    FractionText(iso[19..|iso| - 6], t);
    CutSuffix(iso, 19, "+00:00");
  }

  lemma CutSuffix(s: string, i: nat, suffix: string)
    requires i + |suffix| <= |s| && s[|s| - |suffix|..] == suffix
    ensures s[i..] == s[i..|s| - |suffix|] + suffix
  {
  }

  lemma ParsedFields(s: string, t: Utc)
    requires FromIsoformat(s) == Parsed(t)
    ensures |s| >= 25 && s[|s| - 6..] == "+00:00" && ReadFraction(s[19..|s| - 6]) == t.micro
    ensures s[4] == '-' && s[7] == '-' && s[10] == 'T' && s[13] == ':' && s[16] == ':'
    ensures ReadDigits(s[..4]) == t.year && ReadDigits(s[5..7]) == t.month && ReadDigits(s[8..10]) == t.day
    ensures ReadDigits(s[11..13]) == t.hour && ReadDigits(s[14..16]) == t.minute && ReadDigits(s[17..19]) == t.second
  {
    hide ReadDigits, ReadFraction;
  }

  lemma FractionText(fraction: string, t: Utc)
    requires ReadFraction(fraction) == t.micro
    ensures fraction == Fraction(t) || (t.micro == 0 && fraction == ZeroFraction)
  {
    if fraction != "" {
      PadRead(fraction[1..]);
      hide Pad, ReadDigits;
      assert fraction == [fraction[0]] + fraction[1..];
    }
  }

  lemma ParseZeroFraction(t: Utc)
    requires t.micro == 0
    ensures FromIsoformat(Stamp(t, ZeroFraction + "+00:00")) == Parsed(t)
  {
    var tail := ZeroFraction + "+00:00";
    var s := Stamp(t, tail);
    StampLayout(t, tail);
    PadsRead(t);
    ReadPad(0, 6);
    hide Pad, ReadDigits, Stamp;
    Parts(s, 19, ZeroFraction, "+00:00");
    assert ZeroFraction[1..] == Pad(0, 6);
  }

  lemma Parts(s: string, i: nat, middle: string, suffix: string)
    requires i <= |s| && s[i..] == middle + suffix
    ensures |s| == i + |middle| + |suffix|
    ensures s[|s| - |suffix|..] == suffix && s[i..|s| - |suffix|] == middle
  {
    assert s[i..][|middle|..] == suffix && s[i..][..|middle|] == middle;
  }

  /** What is stored or sent is read back as the same instant. */
  lemma TimestampRoundTrip(t: Utc)
    ensures ParseTimestamp(FormatTimestamp(t)) == Parsed(t)
  {
    var p := Stamp(t, "") + Fraction(t);
    FormatShape(t);
    StampPrefix(t, Fraction(t) + "Z");
    StampPrefix(t, Fraction(t) + "+00:00");
    assert FormatTimestamp(t) == p + "Z";
    assert 'Z' !in p;
    ReplaceSkips(p, "Z", "Z", "+00:00");
    assert Replace("Z", "Z", "+00:00") == "+00:00" + Replace("", "Z", "+00:00");
    assert p + "+00:00" == Isoformat(t);
    ParseIsoformat(t);
  }

  lemma FormatInjective(t: Utc, u: Utc)
    ensures FormatTimestamp(t) == FormatTimestamp(u) <==> t == u
  {
    TimestampRoundTrip(t);
    TimestampRoundTrip(u);
  }

  // ---- the calendar -----------------------------------------------------------------------

  /** Days before the first of January of `year`, by the rule of the Gregorian calendar. */
  function DaysBeforeYear(year: nat): int
    requires year >= 1
  {
    (year - 1) * 365 + (year - 1) / 4 - (year - 1) / 100 + (year - 1) / 400
  }

  function DaysBeforeMonth(year: nat, month: nat): nat
    requires month >= 1
  {
    if month == 1 then 0 else DaysBeforeMonth(year, month - 1) + DaysIn(year, month - 1)
  }

  /** The day as a number, counting on from the first of January of the year 1. */
  function DayNumber(t: Utc): int {
    DaysBeforeYear(t.year) + DaysBeforeMonth(t.year, t.month) + t.day
  }

  /** Microseconds since the calendar began. */
  function Instant(t: Utc): int {
    (((DayNumber(t) * 24 + t.hour) * 60 + t.minute) * 60 + t.second) * 1_000_000 + t.micro
  }

  /** The months fill the year, leap years included, and alternate as they should. */
  lemma CalendarLaw(year: nat, month: nat)
    requires year >= 1 && 1 <= month <= 12
    ensures DaysBeforeYear(year) + DaysBeforeMonth(year, 13) == DaysBeforeYear(year + 1)
    ensures month != 2 ==> DaysIn(year, month) == 30 + (month + month / 8) % 2
  {
    LeapCount(year);
    MonthsFill(year);
    hide IsLeap, DaysBeforeMonth;
  }

  lemma LeapCount(year: nat)
    requires year >= 1
    ensures year / 4 - year / 100 + year / 400 - ((year - 1) / 4 - (year - 1) / 100 + (year - 1) / 400)
            == if IsLeap(year) then 1 else 0
  {
    FloorSteps(year);
    CenturiesAreFours(year);
  }

  lemma FloorSteps(n: nat)
    requires n >= 1
    ensures n / 4 == (n - 1) / 4 + if n % 4 == 0 then 1 else 0
    ensures n / 100 == (n - 1) / 100 + if n % 100 == 0 then 1 else 0
    ensures n / 400 == (n - 1) / 400 + if n % 400 == 0 then 1 else 0
  {
  }

  lemma CenturiesAreFours(n: nat)
    ensures n % 100 == 0 ==> n % 4 == 0
    ensures n % 400 == 0 ==> n % 100 == 0
  {
    var c, k := n / 100, n / 400;
    assert n == 4 * (25 * c) + n % 100;
    assert n == 100 * (4 * k) + n % 400;
    if n % 100 == 0 {
      TimesFour(25 * c);
    }
    if n % 400 == 0 {
      TimesHundred(4 * k);
    }
  }

  lemma TimesFour(x: nat)
    ensures (4 * x) % 4 == 0
  {
  }

  lemma TimesHundred(x: nat)
    ensures (100 * x) % 100 == 0
  {
  }

  lemma MonthsFill(year: nat)
    ensures DaysBeforeMonth(year, 13) == 365 + if IsLeap(year) then 1 else 0
  {
    hide IsLeap;
    assert DaysBeforeMonth(year, 2) == 31;
    assert DaysBeforeMonth(year, 3) == 31 + DaysIn(year, 2);
    assert DaysBeforeMonth(year, 5) == DaysBeforeMonth(year, 4) + 30 == DaysBeforeMonth(year, 3) + 61;
    assert DaysBeforeMonth(year, 7) == DaysBeforeMonth(year, 6) + 30 == DaysBeforeMonth(year, 5) + 61;
    assert DaysBeforeMonth(year, 9) == DaysBeforeMonth(year, 8) + 31 == DaysBeforeMonth(year, 7) + 62;
    assert DaysBeforeMonth(year, 11) == DaysBeforeMonth(year, 10) + 31 == DaysBeforeMonth(year, 9) + 61;
    assert DaysBeforeMonth(year, 13) == DaysBeforeMonth(year, 12) + 31 == DaysBeforeMonth(year, 11) + 61;
  }

  lemma {:induction false} YearsAdvance(y: nat, z: nat)
    requires 1 <= y < z
    ensures DaysBeforeYear(y + 1) <= DaysBeforeYear(z)
    decreases z
  {
    if y + 1 < z {
      YearsAdvance(y, z - 1);
      CalendarLaw(z - 1, 1);
    }
  }

  lemma {:induction false} MonthsAdvance(year: nat, m: nat, n: nat)
    requires 1 <= m < n
    ensures DaysBeforeMonth(year, m) + DaysIn(year, m) <= DaysBeforeMonth(year, n)
    decreases n
  {
    if m + 1 < n {
      MonthsAdvance(year, m, n - 1);
    }
  }

  predicate EarlierDay(t: Utc, u: Utc) {
    t.year < u.year || (t.year == u.year && (t.month < u.month || (t.month == u.month && t.day < u.day)))
  }

  lemma DaysAdvance(t: Utc, u: Utc)
    requires EarlierDay(t, u)
    ensures DayNumber(t) < DayNumber(u)
  {
    if t.year < u.year {
      MonthsAdvance(t.year, t.month, 13);
      CalendarLaw(t.year, 1);
      YearsAdvance(t.year, u.year);
    } else if t.month < u.month {
      MonthsAdvance(t.year, t.month, u.month);
    }
  }

  /** A clock's digits in front of `x`, which counts the units below. */
  predicate Below(a: int, b: int, x: nat, y: nat) {
    a < b || (a == b && x < y)
  }

  lemma ClockOrder(a: int, b: int, x: nat, y: nat)
    ensures x < 24 && y < 24 ==> (a * 24 + x < b * 24 + y <==> Below(a, b, x, y))
    ensures x < 60 && y < 60 ==> (a * 60 + x < b * 60 + y <==> Below(a, b, x, y))
    ensures x < 1_000_000 && y < 1_000_000 ==> (a * 1_000_000 + x < b * 1_000_000 + y <==> Below(a, b, x, y))
  {
  }

  // ---- the order of the text and the order of time ----------------------------------------

  /** The same whole second. */
  predicate SameSecond(t: Utc, u: Utc) {
    t.(micro := 0) == u.(micro := 0)
  }

  /** An earlier whole second. */
  predicate EarlierSecond(t: Utc, u: Utc) {
    t.year < u.year || (t.year == u.year && (
    t.month < u.month || (t.month == u.month && (
    t.day < u.day || (t.day == u.day && (
    t.hour < u.hour || (t.hour == u.hour && (
    t.minute < u.minute || (t.minute == u.minute &&
    t.second < u.second)))))))))
  }

  /** Python's `<` on datetimes of one timezone. */
  predicate Earlier(t: Utc, u: Utc) {
    EarlierSecond(t, u) || (SameSecond(t, u) && t.micro < u.micro)
  }

  /** Earlier fields mean fewer microseconds since the calendar began. */
  lemma EarlierIsFewerMicroseconds(t: Utc, u: Utc)
    ensures Earlier(t, u) <==> Instant(t) < Instant(u)
  {
    DaysDecide(t, u);
    hide DayNumber, EarlierDay;
    var hour, otherHour := DayNumber(t) * 24 + t.hour, DayNumber(u) * 24 + u.hour;
    ClockOrder(DayNumber(t), DayNumber(u), t.hour, u.hour);
    var minute, otherMinute := hour * 60 + t.minute, otherHour * 60 + u.minute;
    ClockOrder(hour, otherHour, t.minute, u.minute);
    var second, otherSecond := minute * 60 + t.second, otherMinute * 60 + u.second;
    ClockOrder(minute, otherMinute, t.second, u.second);
    ClockOrder(second, otherSecond, t.micro, u.micro);
  }

  lemma DaysDecide(t: Utc, u: Utc)
    ensures DayNumber(t) < DayNumber(u) <==>
            t.year < u.year || (t.year == u.year && (t.month < u.month || (t.month == u.month && t.day < u.day)))
    ensures DayNumber(t) == DayNumber(u) <==> t.year == u.year && t.month == u.month && t.day == u.day
  {
    if EarlierDay(t, u) {
      DaysAdvance(t, u);
    } else if EarlierDay(u, t) {
      DaysAdvance(u, t);
    }
    hide DayNumber;
  }

  /** Lexicographic order on (whole second, has no fraction, microsecond). */
  predicate TextBefore(t: Utc, u: Utc) {
    || EarlierSecond(t, u)
    || (SameSecond(t, u) && t.micro != 0 && (u.micro == 0 || t.micro < u.micro))
  }

  lemma StampOrder(t: Utc, u: Utc, x: string, y: string)
    ensures Less(Stamp(t, x), Stamp(u, y)) <==> EarlierSecond(t, u) || (SameSecond(t, u) && Less(x, y))
  {
    assert Pow10(2) == 100 && Pow10(4) == 10_000;
    var x5, y5 := Pad(t.second, 2) + x, Pad(u.second, 2) + y;
    var x4, y4 := Pad(t.minute, 2) + (":" + x5), Pad(u.minute, 2) + (":" + y5);
    var x3, y3 := Pad(t.hour, 2) + (":" + x4), Pad(u.hour, 2) + (":" + y4);
    var x2, y2 := Pad(t.day, 2) + ("T" + x3), Pad(u.day, 2) + ("T" + y3);
    var x1, y1 := Pad(t.month, 2) + ("-" + x2), Pad(u.month, 2) + ("-" + y2);
    FieldOrder(t.second, u.second, 2, x, y);
    SeparatorOrder(':', x5, y5);
    FieldOrder(t.minute, u.minute, 2, ":" + x5, ":" + y5);
    SeparatorOrder(':', x4, y4);
    FieldOrder(t.hour, u.hour, 2, ":" + x4, ":" + y4);
    SeparatorOrder('T', x3, y3);
    FieldOrder(t.day, u.day, 2, "T" + x3, "T" + y3);
    SeparatorOrder('-', x2, y2);
    FieldOrder(t.month, u.month, 2, "-" + x2, "-" + y2);
    SeparatorOrder('-', x1, y1);
    FieldOrder(t.year, u.year, 4, "-" + x1, "-" + y1);
  }

  lemma FractionOrder(t: Utc, u: Utc)
    ensures Less(Fraction(t) + "Z", Fraction(u) + "Z") <==>
            t.micro != 0 && (u.micro == 0 || t.micro < u.micro)
  {
    if t.micro != 0 && u.micro != 0 {
      assert Pow10(6) == 1_000_000;
      assert Fraction(t) + "Z" == "." + (Pad(t.micro, 6) + "Z");
      assert Fraction(u) + "Z" == "." + (Pad(u.micro, 6) + "Z");
      SeparatorOrder('.', Pad(t.micro, 6) + "Z", Pad(u.micro, 6) + "Z");
      LessIrreflexive("Z");
      FieldOrder(t.micro, u.micro, 6, "Z", "Z");
    } else if t.micro == 0 && u.micro == 0 {
      LessIrreflexive("Z");
    }
  }

  /** The stored text sorts by whole second, then fractional values before the whole second they share. */
  lemma TextOrder(t: Utc, u: Utc)
    ensures Less(FormatTimestamp(t), FormatTimestamp(u)) <==> TextBefore(t, u)
  {
    FormatShape(t);
    FormatShape(u);
    StampOrder(t, u, Fraction(t) + "Z", Fraction(u) + "Z");
    FractionOrder(t, u);
  }

  /** Text order is time order except within one second when exactly one value has a fraction. */
  lemma TextOrderIsTimeOrderIff(t: Utc, u: Utc)
    ensures (Less(FormatTimestamp(t), FormatTimestamp(u)) <==> Earlier(t, u))
            <==> !(SameSecond(t, u) && (t.micro == 0) != (u.micro == 0))
  {
    TextOrder(t, u);
  }

  /** Half past a second is stored before the second itself. */
  lemma FractionSortsBeforeItsSecond()
    ensures var whole: Utc := Fields(2026, 5, 15, 14, 2, 11, 0);
            var half: Utc := Fields(2026, 5, 15, 14, 2, 11, 500_000);
            Earlier(whole, half) && Less(FormatTimestamp(half), FormatTimestamp(whole))
  {
    TextOrder(Fields(2026, 5, 15, 14, 2, 11, 500_000), Fields(2026, 5, 15, 14, 2, 11, 0));
  }
}
