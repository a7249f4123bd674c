/**
 * Python's `datetime.strptime(s, "%d.%m.%Y %H:%M")`, the German timestamp
 * format of the monitoring exports ("31.12.2024 00:00"), together with its
 * zero-padded rendering and the proleptic Gregorian day count behind
 * `toordinal()`, which orders and subtracts parsed timestamps.
 */
module DateFormat {
  import opened Strings

  datatype DateTime = DateTime(year: int, month: int, day: int, hour: int, minute: int)

  predicate IsLeap(y: int)
  {
    y % 4 == 0 && (y % 100 != 0 || y % 400 == 0)
  }

  function DaysIn(y: int, m: int): int
    requires 1 <= m <= 12
  {
    if m == 2 then (if IsLeap(y) then 29 else 28)
    else if m == 4 || m == 6 || m == 9 || m == 11 then 30
    else 31
  }

  /** What `datetime(year, month, day, hour, minute)` accepts. */
  predicate Valid(dt: DateTime)
  {
    1 <= dt.year <= 9999 && 1 <= dt.month <= 12 && 1 <= dt.day <= DaysIn(dt.year, dt.month) &&
    0 <= dt.hour < 24 && 0 <= dt.minute < 60
  }

  // ---------------------------------------------------------------------
  // The fields of the pattern, as the regular expressions `strptime`
  // builds for %d, %m, %Y, %H and %M accept them. Their `\d` matches any
  // Unicode decimal digit and `int()` reads it; the bracketed classes are
  // ASCII ranges.
  // ---------------------------------------------------------------------

  function DigitValue(c: char): int
  {
    DecimalValue(c)
  }

  /** The value `int()` gives a run of decimal digits. */
  function Number(t: string): (n: int)
    ensures n >= 0
  {
    if t == [] then 0 else Number(t[..|t| - 1]) * 10 + DigitValue(t[|t| - 1])
  }

  /** Every character is a decimal digit (`\d` on a `str` pattern). */
  predicate AllDigits(t: string)
  {
    forall i :: 0 <= i < |t| ==> IsDecimal(t[i])
  }

  /** `3[0-1]|[1-2]\d|0[1-9]|[1-9]| [1-9]` */
  predicate DayText(t: string)
  {
    (|t| == 1 && '1' <= t[0] <= '9') ||
    (|t| == 2 && t[0] == ' ' && '1' <= t[1] <= '9') ||
    (|t| == 2 && t[0] == '3' && (t[1] == '0' || t[1] == '1')) ||
    (|t| == 2 && (t[0] == '1' || t[0] == '2') && IsDecimal(t[1])) ||
    (|t| == 2 && t[0] == '0' && '1' <= t[1] <= '9')
  }

  /** `1[0-2]|0[1-9]|[1-9]` */
  predicate MonthText(t: string)
  {
    (|t| == 1 && '1' <= t[0] <= '9') ||
    (|t| == 2 && ((t[0] == '1' && '0' <= t[1] <= '2') || (t[0] == '0' && '1' <= t[1] <= '9')))
  }

  /** `\d\d\d\d`: four decimal digits, of any script. */
  predicate YearText(t: string)
  {
    |t| == 4 && AllDigits(t)
  }

  /** `2[0-3]|[0-1]\d|\d` */
  predicate HourText(t: string)
  {
    (|t| == 1 && IsDecimal(t[0])) ||
    (|t| == 2 && t[0] == '2' && '0' <= t[1] <= '3') ||
    (|t| == 2 && (t[0] == '0' || t[0] == '1') && IsDecimal(t[1]))
  }

  /** `[0-5]\d|\d`, which must also reach the end of the string. */
  predicate MinuteText(t: string)
  {
    (|t| == 1 && IsDecimal(t[0])) ||
    (|t| == 2 && '0' <= t[0] <= '5' && IsDecimal(t[1]))
  }

  /** The value of a day field; the form with a leading blank counts its one digit. */
  function DayValue(t: string): int
  {
    if |t| == 2 && t[0] == ' ' then Number(t[1..]) else Number(t)
  }

  /** Length of the leading whitespace run (the `\s+` the blank in the format becomes). */
  function Blanks(s: string): (n: nat)
    ensures n <= |s|
    ensures forall i :: 0 <= i < n ==> IsSpace(s[i])
    ensures n < |s| ==> !IsSpace(s[n])
  {
    if s == [] || !IsSpace(s[0]) then 0 else 1 + Blanks(s[1..])
  }

  /**
   * The time part after the year: blanks, hour, ':', minute, and nothing
   * after the minute (`strptime` rejects unconverted data).
   */
  function ParseTime(s: string): Option<(int, int)>
  {
    var w := Blanks(s);
    if w == 0 then None
    else
      var rest := s[w..];
      match IndexOf(rest, ":")
      case None => None
      case Some(c) =>
        var h, mi := rest[..c], rest[c + 1..];
        if HourText(h) && MinuteText(mi) then Some((Number(h), Number(mi))) else None
  }

  /** The text before the first '.', the text between it and the second '.', and the rest. */
  function DateFields(s: string): Option<(string, string, string)>
  {
    match IndexOf(s, ".")
    case None => None
    case Some(i) =>
      var s1 := s[i + 1..];
      match IndexOf(s1, ".")
      case None => None
      case Some(j) => Some((s[..i], s1[..j], s1[j + 1..]))
  }

  /** The date fields accepted, the year's four digits, and the time part after them. */
  function FromFields(d: string, m: string, tail: string): (r: Option<DateTime>)
    ensures r.Some? ==> Valid(r.value)
  {
    if |tail| < 4 || !DayText(d) || !MonthText(m) || !YearText(tail[..4]) then None
    else
      match ParseTime(tail[4..])
      case None => None
      case Some(hm) =>
        var dt := DateTime(Number(tail[..4]), Number(m), DayValue(d), hm.0, hm.1);
        if Valid(dt) then Some(dt) else None
  }

  /**
   * `datetime.strptime(s, "%d.%m.%Y %H:%M")`, with `None` for the
   * `ValueError` cases: text the pattern does not match, text left over,
   * and a date the calendar does not have (31.04., 29.02. outside a leap
   * year, year 0000). A day or month field cannot hold a '.', so the
   * fields end at the first two dots.
   */
  function Parse(s: string): (r: Option<DateTime>)
    ensures r.Some? ==> Valid(r.value)
  {
    match DateFields(s)
    case None => None
    case Some(f) => FromFields(f.0, f.1, f.2)
  }

  // ---------------------------------------------------------------------
  // Rendering and the round trip
  // ---------------------------------------------------------------------

  function Digit(n: int): char
    requires 0 <= n < 10
  {
    ('0' as int + n) as char
  }

  /** `n` as exactly `w` decimal digits, zero-padded (`%02d`, `%04d`). */
  function Padded(n: nat, w: nat): (t: string)
    ensures |t| == w
    ensures AllDigits(t)
  {
    if w == 0 then [] else Padded(n / 10, w - 1) + [Digit(n % 10)]
  }

  lemma {:induction false} PaddedValue(n: nat, w: nat, p: nat)
    requires p > 0 && n < p
    requires w == 0 ==> p == 1
    requires w > 0 ==> p <= Power10(w)
    ensures Number(Padded(n, w)) == n
    decreases w
  {
    if w > 0 {
      var t := Padded(n, w);
      assert t[..w - 1] == Padded(n / 10, w - 1);
      if w == 1 {
        assert n / 10 == 0;
        assert Number(Padded(0, 0)) == 0;
      } else {
        assert n / 10 < Power10(w - 1) by {
          assert Power10(w) == 10 * Power10(w - 1);
        }
        PaddedValue(n / 10, w - 1, Power10(w - 1));
      }
      assert Number(t) == Number(Padded(n / 10, w - 1)) * 10 + n % 10;
    }
  }

  function Power10(w: nat): (p: nat)
    ensures p >= 1
  {
    if w == 0 then 1 else 10 * Power10(w - 1)
  }

  /** `dt.strftime("%d.%m.%Y %H:%M")`. */
  function Format(dt: DateTime): (s: string)
    requires Valid(dt)
    ensures |s| == 16
  {
    Padded(dt.day, 2) + "." + Padded(dt.month, 2) + "." + (Padded(dt.year, 4) + (" " + Padded(dt.hour, 2) + ":" + Padded(dt.minute, 2)))
  }

  /** A string without the character at its first `k` positions has its first occurrence, if any, at `k` or later. */
  lemma FirstAt(s: string, c: char, k: nat)
    requires k < |s| && s[k] == c
    requires forall i :: 0 <= i < k ==> s[i] != c
    ensures IndexOf(s, [c]) == Some(k)
  {
    assert OccursAt(s, [c], k);
    match IndexOf(s, [c])
    case None =>
    case Some(r) =>
      assert OccursAt(s, [c], r);
      assert s[r] == c;
  }

  lemma BlanksOf(w: string, t: string)
    requires forall i :: 0 <= i < |w| ==> IsSpace(w[i])
    requires t == [] || !IsSpace(t[0])
    ensures Blanks(w + t) == |w|
  {
    var s := w + t;
    assert forall i :: 0 <= i < |w| ==> s[i] == w[i];
    assert t != [] ==> s[|w|] == t[0];
  }

  /** The time part: blanks, an hour field, ':' and a minute field. */
  lemma ParseTimeOf(w: string, h: string, mi: string)
    requires |w| > 0 && forall i :: 0 <= i < |w| ==> IsSpace(w[i])
    requires HourText(h) && MinuteText(mi)
    ensures ParseTime(w + h + ":" + mi) == Some((Number(h), Number(mi)))
  {
    var s := w + h + ":" + mi;
    assert s == w + (h + ":" + mi);
    DecimalIsNoSpace(h[0]);
    BlanksOf(w, h + ":" + mi);
    assert s[|w|..] == h + ":" + mi;
    SplitAtColon(h, mi);
  }

  /** An hour field and a minute field joined by ':' split back at that ':'. */
  lemma SplitAtColon(h: string, mi: string)
    requires HourText(h) && MinuteText(mi)
    ensures IndexOf(h + ":" + mi, ":") == Some(|h|)
    ensures (h + ":" + mi)[..|h|] == h && (h + ":" + mi)[|h| + 1..] == mi
  {
    var rest := h + ":" + mi;
    assert rest[|h|] == ':';
    HourHasNoColon(h);
    assert forall i :: 0 <= i < |h| ==> rest[i] == h[i];
    FirstAt(rest, ':', |h|);
    assert rest[..|h|] == h && rest[|h| + 1..] == mi;
  }

  /** An hour field is made of digits only. */
  lemma HourHasNoColon(h: string)
    requires HourText(h)
    ensures forall i :: 0 <= i < |h| ==> h[i] != ':'
  {
    assert forall i :: 0 <= i < |h| ==> IsDecimal(h[i]);
  }

  /** Fields free of '.' joined by the pattern's two dots are split back at those dots. */
  lemma DateFieldsOf(d: string, m: string, tail: string)
    requires '.' !in d && '.' !in m
    ensures DateFields(d + "." + m + "." + tail) == Some((d, m, tail))
  {
    var s := d + "." + m + "." + tail;
    assert s[|d|] == '.' && forall i :: 0 <= i < |d| ==> s[i] == d[i];
    FirstAt(s, '.', |d|);
    assert s[..|d|] == d;
    var s1 := s[|d| + 1..];
    assert s1 == m + "." + tail;
    assert s1[|m|] == '.' && forall i :: 0 <= i < |m| ==> s1[i] == m[i];
    FirstAt(s1, '.', |m|);
    assert s1[..|m|] == m;
    assert s1[|m| + 1..] == tail;
  }

  lemma PaddedTwo(n: nat)
    requires n < 100
    ensures Padded(n, 2) == [Digit(n / 10), Digit(n % 10)]
    ensures Number(Padded(n, 2)) == n
  {
    var tens := n / 10;
    assert tens < 10 && tens % 10 == tens && tens / 10 == 0;
    assert Padded(tens, 1) == Padded(0, 0) + [Digit(tens)];
    assert Padded(n, 2) == Padded(tens, 1) + [Digit(n % 10)];
    PaddedValue(n, 2, 100);
  }

  lemma DayPadded(n: nat)
    requires 1 <= n <= 31
    ensures DayText(Padded(n, 2)) && DayValue(Padded(n, 2)) == n
  {
    PaddedTwo(n);
    var t := Padded(n, 2);
    assert t[0] != ' ';
    if n < 10 {
      assert t[0] == '0' && '1' <= t[1] <= '9';
    } else if n < 30 {
      assert t[0] == '1' || t[0] == '2';
    } else {
      assert t[0] == '3' && (t[1] == '0' || t[1] == '1');
    }
  }

  lemma MonthPadded(n: nat)
    requires 1 <= n <= 12
    ensures MonthText(Padded(n, 2)) && Number(Padded(n, 2)) == n
  {
    PaddedTwo(n);
  }

  lemma HourPadded(n: nat)
    requires n < 24
    ensures HourText(Padded(n, 2)) && Number(Padded(n, 2)) == n
  {
    PaddedTwo(n);
  }

  lemma MinutePadded(n: nat)
    requires n < 60
    ensures MinuteText(Padded(n, 2)) && Number(Padded(n, 2)) == n
  {
    PaddedTwo(n);
  }

  lemma FromFieldsOf(d: string, m: string, y: string, rest: string, h: int, mi: int)
    requires DayText(d) && MonthText(m) && YearText(y)
    requires ParseTime(rest) == Some((h, mi))
    ensures FromFields(d, m, y + rest) ==
      if Valid(DateTime(Number(y), Number(m), DayValue(d), h, mi)) then Some(DateTime(Number(y), Number(m), DayValue(d), h, mi)) else None
  {
    assert (y + rest)[..4] == y && (y + rest)[4..] == rest;
  }

  lemma NoDotInField(t: string)
    requires DayText(t) || MonthText(t)
    ensures '.' !in t
  {
    assert |t| == 1 || |t| == 2;
    assert t[0] != '.';
    if |t| == 2 {
      assert t[1] != '.';
      assert t == [t[0], t[1]];
    } else {
      assert t == [t[0]];
    }
  }

  lemma JoinedFromFields(dd: string, mm: string, yy: string, hh: string, mi: string, dt: DateTime)
    requires DayText(dd) && MonthText(mm) && YearText(yy) && HourText(hh) && MinuteText(mi)
    requires dt == DateTime(Number(yy), Number(mm), DayValue(dd), Number(hh), Number(mi)) && Valid(dt)
    ensures FromFields(dd, mm, yy + (" " + hh + ":" + mi)) == Some(dt)
  {
    ParseTimeOf(" ", hh, mi);
    FromFieldsOf(dd, mm, yy, " " + hh + ":" + mi, dt.hour, dt.minute);
  }

  lemma JoinedDateFields(dd: string, mm: string, tail: string)
    requires DayText(dd) && MonthText(mm)
    ensures DateFields(dd + "." + mm + "." + tail) == Some((dd, mm, tail))
  {
    NoDotInField(dd);
    NoDotInField(mm);
    DateFieldsOf(dd, mm, tail);
  }

  /** Five accepted fields joined by the pattern's separators parse to their values. */
  lemma ParseJoined(dd: string, mm: string, yy: string, hh: string, mi: string, dt: DateTime)
    requires DayText(dd) && MonthText(mm) && YearText(yy) && HourText(hh) && MinuteText(mi)
    requires dt == DateTime(Number(yy), Number(mm), DayValue(dd), Number(hh), Number(mi)) && Valid(dt)
    ensures Parse(dd + "." + mm + "." + (yy + (" " + hh + ":" + mi))) == Some(dt)
  {
    JoinedFromFields(dd, mm, yy, hh, mi, dt);
    JoinedDateFields(dd, mm, yy + (" " + hh + ":" + mi));
  }

  /** Formatting a valid timestamp and parsing it back gives the same timestamp. */
  lemma ParseFormat(dt: DateTime)
    requires Valid(dt)
    ensures Parse(Format(dt)) == Some(dt)
  {
    DayPadded(dt.day);
    MonthPadded(dt.month);
    HourPadded(dt.hour);
    MinutePadded(dt.minute);
    PaddedValue(dt.year, 4, 10000);
    ParseJoined(Padded(dt.day, 2), Padded(dt.month, 2), Padded(dt.year, 4), Padded(dt.hour, 2), Padded(dt.minute, 2), dt);
  }

  /**
   * `\d` and `int()` read every Unicode decimal digit: an Arabic-Indic year
   * parses like its ASCII spelling.
   */
  lemma ArabicIndicYearParses()
    ensures Parse("01.01.\U{662}\U{660}\U{662}\U{664} 00:00") == Some(DateTime(2024, 1, 1, 0, 0))
  {
    var yy := "\U{662}\U{660}\U{662}\U{664}";
    assert DecimalZero('\U{662}') == 0x660 && DecimalZero('\U{660}') == 0x660 && DecimalZero('\U{664}') == 0x660;
    assert YearText(yy);
    assert Number(yy[..1]) == 2;
    assert yy[..2][..1] == yy[..1];
    assert Number(yy[..2]) == 20;
    assert yy[..3][..2] == yy[..2];
    assert Number(yy[..3]) == 202;
    assert yy[..3] == yy[..|yy| - 1];
    assert Number(yy) == 2024;
    assert Number("01") == 1 && Number("00") == 0;
    assert "01.01.\U{662}\U{660}\U{662}\U{664} 00:00" == "01" + "." + "01" + "." + (yy + (" " + "00" + ":" + "00"));
    ParseJoined("01", "01", yy, "00", "00", DateTime(2024, 1, 1, 0, 0));
  }

  /**
   * The minute's first position is the ASCII class `[0-5]`, so a minute
   * starting with an Arabic-Indic four is rejected.
   */
  lemma NonAsciiTensOfMinuteRejected()
    ensures !MinuteText("\U{664}5")
    ensures MinuteText("\U{664}") && Number("\U{664}") == 4
  {
  }

  // ---------------------------------------------------------------------
  // Day numbers and seconds
  // ---------------------------------------------------------------------

  function YearDays(y: int): int
  {
    if IsLeap(y) then 366 else 365
  }

  /** Days in the years before `y` since 1 January of year 1. */
  function DaysBeforeYear(y: int): int
    decreases if y < 1 then 0 else y
  {
    if y <= 1 then 0 else DaysBeforeYear(y - 1) + YearDays(y - 1)
  }

  /** Days in the months of year `y` before month `m`. */
  function DaysBeforeMonth(y: int, m: int): (n: int)
    requires 1 <= m <= 12
    ensures n >= 0
    ensures m < 12 ==> DaysBeforeMonth(y, m + 1) == n + DaysIn(y, m)
    ensures m == 12 ==> n + DaysIn(y, m) == YearDays(y)
    decreases 12 - m
  {
    var leap := if IsLeap(y) then 1 else 0;
    if m == 1 then 0 else if m == 2 then 31 else if m == 3 then 59 + leap
    else if m == 4 then 90 + leap else if m == 5 then 120 + leap else if m == 6 then 151 + leap
    else if m == 7 then 181 + leap else if m == 8 then 212 + leap else if m == 9 then 243 + leap
    else if m == 10 then 273 + leap else if m == 11 then 304 + leap else 334 + leap
  }

  /** `dt.toordinal()`: 1 January of year 1 is day 1. */
  function Ordinal(dt: DateTime): int
    requires Valid(dt)
  {
    DaysBeforeYear(dt.year) + DaysBeforeMonth(dt.year, dt.month) + dt.day
  }

  /** Seconds since midnight of day 0, the scale on which timestamps are subtracted. */
  function Seconds(dt: DateTime): int
    requires Valid(dt)
  {
    Ordinal(dt) * 86400 + dt.hour * 3600 + dt.minute * 60
  }

  /** Python's comparison of datetimes: field by field, from the year down. */
  predicate Before(a: DateTime, b: DateTime)
  {
    if a.year != b.year then a.year < b.year
    else if a.month != b.month then a.month < b.month
    else if a.day != b.day then a.day < b.day
    else if a.hour != b.hour then a.hour < b.hour
    else a.minute < b.minute
  }

  lemma {:induction false} DaysBeforeYearGrows(y: int, z: int)
    requires 1 <= y <= z
    ensures DaysBeforeYear(y) + (z - y) * 365 <= DaysBeforeYear(z)
    decreases z - y
  {
    if y < z {
      DaysBeforeYearGrows(y, z - 1);
    }
  }

  lemma {:induction false} MonthsGrow(y: int, m: int, n: int)
    requires 1 <= m < n <= 12
    ensures DaysBeforeMonth(y, m) + DaysIn(y, m) <= DaysBeforeMonth(y, n)
    decreases n - m
  {
    if m + 1 < n {
      MonthsGrow(y, m + 1, n);
    }
  }

  /** Ordinal(dt) lies within dt's year. */
  lemma WithinYear(dt: DateTime)
    requires Valid(dt)
    ensures DaysBeforeYear(dt.year) < Ordinal(dt) <= DaysBeforeYear(dt.year + 1)
  {
    if dt.month < 12 {
      MonthsGrow(dt.year, dt.month, 12);
    }
    assert DaysBeforeMonth(dt.year, 12) + DaysIn(dt.year, 12) == YearDays(dt.year);
  }

  /** The seconds scale orders valid timestamps as Python compares them. */
  lemma SecondsOrdered(a: DateTime, b: DateTime)
    requires Valid(a) && Valid(b)
    ensures Before(a, b) <==> Seconds(a) < Seconds(b)
    ensures a == b <==> Seconds(a) == Seconds(b)
  {
    if a.year != b.year {
      var (x, y) := if a.year < b.year then (a, b) else (b, a);
      WithinYear(x);
      WithinYear(y);
      DaysBeforeYearGrows(x.year + 1, y.year);
      assert Ordinal(x) < Ordinal(y);
    } else if a.month != b.month {
      var (x, y) := if a.month < b.month then (a, b) else (b, a);
      MonthsGrow(x.year, x.month, y.month);
      assert Ordinal(x) < Ordinal(y);
    }
  }
}
