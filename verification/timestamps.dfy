/**
 * The contest start-time format "DD Mon YYYY HH:MM:SS" read by
 * `parse_time_difference` (strptime with "%d %b %Y %H:%M:%S"), the naive
 * datetime it yields, and the seconds count that datetime subtraction uses
 * (Python's proleptic Gregorian ordinal, 0001-01-01 being day 1).
 */
module Timestamps {
  import opened Wrappers
  import opened Text

  /** A naive calendar datetime, as Python's `datetime` without microseconds. */
  datatype DateTime = DateTime(year: int, month: int, day: int, hour: int, minute: int, second: int)

  /** `datetime.now()`: a calendar datetime plus its microsecond field. */
  datatype Moment = Moment(clock: DateTime, micros: int)

  /** English month abbreviations, as `%b` writes them in the C locale. */
  const MonthNames: seq<string> :=
    ["Jan", "Feb", "Mar", "Apr", "May", "Jun", "Jul", "Aug", "Sep", "Oct", "Nov", "Dec"]

  /** The same names lower-cased: `%b` matches a month name without regard to case. */
  const MonthKeys: seq<string> :=
    ["jan", "feb", "mar", "apr", "may", "jun", "jul", "aug", "sep", "oct", "nov", "dec"]

  const DaysBeforeMonthTable: seq<int> := [0, 31, 59, 90, 120, 151, 181, 212, 243, 273, 304, 334]

  const DaysInMonthTable: seq<int> := [31, 28, 31, 30, 31, 30, 31, 31, 30, 31, 30, 31]

  predicate IsLeapYear(y: int) {
    y % 4 == 0 && (y % 100 != 0 || y % 400 == 0)
  }

  function DaysInMonth(y: int, m: int): (n: int)
    requires 1 <= m <= 12
    ensures 28 <= n <= 31
  {
    if m == 2 && IsLeapYear(y) then 29 else DaysInMonthTable[m - 1]
  }

  /** The ranges the `datetime` constructor accepts; anything else raises ValueError. */
  predicate Valid(dt: DateTime) {
    && 1 <= dt.year <= 9999
    && 1 <= dt.month <= 12
    && 1 <= dt.day <= DaysInMonth(dt.year, dt.month)
    && 0 <= dt.hour < 24
    && 0 <= dt.minute < 60
    && 0 <= dt.second < 60
  }

  predicate ValidMoment(now: Moment) {
    Valid(now.clock) && 0 <= now.micros < 1_000_000
  }

  // ---- rendering ----

  function Pad2(n: nat): (s: string)
    requires n < 100
    ensures |s| == 2 && AllDigits(s)
  {
    [DigitChar(n / 10), DigitChar(n % 10)]
  }

  function Pad4(n: nat): (s: string)
    requires n < 10000
    ensures |s| == 4 && AllDigits(s)
  {
    Pad2(n / 100) + Pad2(n % 100)
  }

  /** Value of two digits. */
  lemma ParseTwo(d: string)
    requires |d| == 2 && AllDigits(d)
    ensures ParseNat(d) == 10 * DigitValue(d[0]) + DigitValue(d[1])
  {
    assert d[..1][..0] == [];
    assert ParseNat(d[..1]) == DigitValue(d[0]);
  }

  /** Value of four digits. */
  lemma ParseFour(d: string)
    requires |d| == 4 && AllDigits(d)
    ensures ParseNat(d) == 100 * ParseNat(d[..2]) + ParseNat(d[2..])
  {
    assert d[..3][..2] == d[..2];
    ParseTwo(d[2..]);
  }

  lemma Pad2RoundTrip(n: nat)
    requires n < 100
    ensures ParseNat(Pad2(n)) == n
  {
    ParseTwo(Pad2(n));
  }

  lemma Pad4RoundTrip(n: nat)
    requires n < 10000
    ensures ParseNat(Pad4(n)) == n
  {
    var s, hi, lo := Pad4(n), n / 100, n % 100;
    ParseFour(s);
    assert s[..2] == Pad2(hi) && s[2..] == Pad2(lo);
    Pad2RoundTrip(hi);
    Pad2RoundTrip(lo);
  }

  /** The canonical text of a valid datetime: "DD Mon YYYY HH:MM:SS". */
  function Render(dt: DateTime): (s: string)
    requires Valid(dt)
    ensures |s| == 20
  {
    Pad2(dt.day) + " " + MonthNames[dt.month - 1] + " " + Pad4(dt.year) + " " +
    Pad2(dt.hour) + ":" + Pad2(dt.minute) + ":" + Pad2(dt.second)
  }

  // ---- parsing ----

  /** The month number (1..12) whose abbreviation equals `name` ignoring ASCII case. */
  function MonthNumber(name: string): (r: Option<int>)
    ensures r.Some? ==> 1 <= r.value <= 12 && Lower(name) == MonthKeys[r.value - 1]
    ensures r.None? ==> forall k :: 0 <= k < 12 ==> Lower(name) != MonthKeys[k]
  {
    var key := Lower(name);
    if key == "jan" then Some(1) else if key == "feb" then Some(2)
    else if key == "mar" then Some(3) else if key == "apr" then Some(4)
    else if key == "may" then Some(5) else if key == "jun" then Some(6)
    else if key == "jul" then Some(7) else if key == "aug" then Some(8)
    else if key == "sep" then Some(9) else if key == "oct" then Some(10)
    else if key == "nov" then Some(11) else if key == "dec" then Some(12)
    else None
  }

  lemma MonthNamesLower(k: int)
    requires 0 <= k < 12
    ensures Lower(MonthNames[k]) == MonthKeys[k]
  {
    var n, l := MonthNames[k], Lower(MonthNames[k]);
    assert l[0] == LowerChar(n[0]) && l[1] == n[1] && l[2] == n[2];
  }

  /** Reads a stripped string of exactly "DD Mon YYYY HH:MM:SS"; None when it does not match or names no real datetime. */
  function ParseFields(t: string): (r: Option<DateTime>)
    ensures r.Some? ==> Valid(r.value)
  {
    if |t| != 20 || t[2] != ' ' || t[6] != ' ' || t[11] != ' ' || t[14] != ':' || t[17] != ':' then None
    else if !(AllDigits(t[0..2]) && AllDigits(t[7..11]) && AllDigits(t[12..14])
              && AllDigits(t[15..17]) && AllDigits(t[18..20])) then None
    else
      match MonthNumber(t[3..6])
      case None => None
      case Some(m) =>
        var dt := DateTime(ParseNat(t[7..11]), m, ParseNat(t[0..2]),
                           ParseNat(t[12..14]), ParseNat(t[15..17]), ParseNat(t[18..20]));
        if Valid(dt) then Some(dt) else None
  }

  /** `datetime.strptime(s.strip(), "%d %b %Y %H:%M:%S")`, None standing for the ValueError. */
  function Parse(s: string): Option<DateTime> {
    ParseFields(Strip(s))
  }

  /** Where each field of the rendered text sits. */
  lemma RenderFields(dt: DateTime)
    requires Valid(dt)
    ensures var t := Render(dt);
      && t[0..2] == Pad2(dt.day) && t[3..6] == MonthNames[dt.month - 1] && t[7..11] == Pad4(dt.year)
      && t[12..14] == Pad2(dt.hour) && t[15..17] == Pad2(dt.minute) && t[18..20] == Pad2(dt.second)
      && t[2] == ' ' && t[6] == ' ' && t[11] == ' ' && t[14] == ':' && t[17] == ':'
  {
    var d, mo, y, h, mi, se := Pad2(dt.day), MonthNames[dt.month - 1], Pad4(dt.year),
      Pad2(dt.hour), Pad2(dt.minute), Pad2(dt.second);
    var t := Render(dt);
    var a := d + " " + mo + " " + y + " ";
    var b := h + ":" + mi + ":" + se;
    assert |d| == 2 && |mo| == 3 && |y| == 4 && |a| == 12 && |b| == 8;
    assert t == a + b;
    assert t[..12] == a && t[12..] == b;
    assert a[0..2] == d && a[3..6] == mo && a[7..11] == y;
    assert b[0..2] == h && b[3..5] == mi && b[6..8] == se;
  }

  lemma MonthNumberOfName(m: int)
    requires 1 <= m <= 12
    ensures MonthNumber(MonthNames[m - 1]) == Some(m)
  {
    MonthNamesLower(m - 1);
    var key := MonthKeys[m - 1];
    if m == 1 { assert key == "jan"; }
    else if m == 2 { assert key == "feb"; }
    else if m == 3 { assert key == "mar"; }
    else if m == 4 { assert key == "apr"; }
    else if m == 5 { assert key == "may"; }
    else if m == 6 { assert key == "jun"; }
    else if m == 7 { assert key == "jul"; }
    else if m == 8 { assert key == "aug"; }
    else if m == 9 { assert key == "sep"; }
    else if m == 10 { assert key == "oct"; }
    else if m == 11 { assert key == "nov"; }
    else { assert key == "dec"; }
  }

  /** Every valid datetime is read back from its own text. */
  lemma ParseFieldsRender(dt: DateTime)
    requires Valid(dt)
    ensures ParseFields(Render(dt)) == Some(dt)
  {
    var t := Render(dt);
    RenderFields(dt);
    Pad2RoundTrip(dt.day);
    Pad4RoundTrip(dt.year);
    Pad2RoundTrip(dt.hour);
    Pad2RoundTrip(dt.minute);
    Pad2RoundTrip(dt.second);
    MonthNumberOfName(dt.month);
  }

  /** ... whatever whitespace surrounds it. */
  lemma ParseRender(dt: DateTime, pre: string, post: string)
    requires Valid(dt) && AllSpace(pre) && AllSpace(post)
    ensures Parse(pre + Render(dt) + post) == Some(dt)
  {
    var t := Render(dt);
    RenderFields(dt);
    assert t[0] == t[0..2][0] && t[19] == t[18..20][1];
    PrintableNotSpace(t[0]);
    PrintableNotSpace(t[19]);
    StripPadded(pre, t, post);
    ParseFieldsRender(dt);
  }

  /** What a successful ParseFields saw in each field. */
  lemma ParseFieldsSaw(t: string)
    requires ParseFields(t).Some?
    ensures var dt := ParseFields(t).value;
      && |t| == 20 && t[2] == ' ' && t[6] == ' ' && t[11] == ' ' && t[14] == ':' && t[17] == ':'
      && AllDigits(t[0..2]) && AllDigits(t[7..11]) && AllDigits(t[12..14])
      && AllDigits(t[15..17]) && AllDigits(t[18..20])
      && dt.day == ParseNat(t[0..2]) && dt.year == ParseNat(t[7..11]) && dt.hour == ParseNat(t[12..14])
      && dt.minute == ParseNat(t[15..17]) && dt.second == ParseNat(t[18..20])
      && Lower(t[3..6]) == MonthKeys[dt.month - 1]
  {
  }

  lemma SameSlice(t: string, u: string, lo: int, hi: int)
    requires 0 <= lo <= hi <= |t| == |u| && t[lo..hi] == u[lo..hi]
    ensures forall i :: lo <= i < hi ==> t[i] == u[i]
  {
    forall i | lo <= i < hi ensures t[i] == u[i] {
      assert t[lo..hi][i - lo] == u[lo..hi][i - lo];
    }
  }

  /** Two 20-character timestamps that agree field by field, the month up to case, agree up to case. */
  lemma LowerByFields(t: string, u: string)
    requires |t| == 20 && |u| == 20
    requires t[0..2] == u[0..2] && t[7..11] == u[7..11] && t[12..14] == u[12..14]
    requires t[15..17] == u[15..17] && t[18..20] == u[18..20]
    requires t[2] == u[2] && t[6] == u[6] && t[11] == u[11] && t[14] == u[14] && t[17] == u[17]
    requires Lower(t[3..6]) == Lower(u[3..6])
    ensures Lower(t) == Lower(u)
  {
    SameSlice(t, u, 0, 2);
    SameSlice(t, u, 7, 11);
    SameSlice(t, u, 12, 14);
    SameSlice(t, u, 15, 17);
    SameSlice(t, u, 18, 20);
    forall i | 0 <= i < 20 ensures LowerChar(t[i]) == LowerChar(u[i]) {
      if 3 <= i < 6 {
        assert Lower(t[3..6])[i - 3] == Lower(u[3..6])[i - 3];
      }
    }
  }

  /** Conversely, whatever parses is the text of the datetime it yields, up to the case of the month. */
  lemma ParseFieldsIsRender(t: string)
    requires ParseFields(t).Some?
    ensures Lower(t) == Lower(Render(ParseFields(t).value))
  {
    var dt := ParseFields(t).value;
    var u := Render(dt);
    ParseFieldsSaw(t);
    RenderFields(dt);
    Pad2Reads(t[0..2]);
    Pad4Reads(t[7..11]);
    Pad2Reads(t[12..14]);
    Pad2Reads(t[15..17]);
    Pad2Reads(t[18..20]);
    MonthNamesLower(dt.month - 1);
    LowerByFields(t, u);
  }

  /** ... so the stripped input is the canonical text of what `Parse` returns, up to the case of the month. */
  lemma ParseIsRender(s: string)
    requires Parse(s).Some?
    ensures Lower(Strip(s)) == Lower(Render(Parse(s).value))
  {
    ParseFieldsIsRender(Strip(s));
  }

  /** Two digits are the zero-padded text of the number they spell. */
  lemma Pad2Reads(d: string)
    requires |d| == 2 && AllDigits(d)
    ensures ParseNat(d) < 100 && Pad2(ParseNat(d)) == d
  {
    ParseTwo(d);
    var n := ParseNat(d);
    assert n / 10 == DigitValue(d[0]) && n % 10 == DigitValue(d[1]);
  }

  lemma Pad4Reads(d: string)
    requires |d| == 4 && AllDigits(d)
    ensures ParseNat(d) < 10000 && Pad4(ParseNat(d)) == d
  {
    ParseFour(d);
    Pad2Reads(d[..2]);
    Pad2Reads(d[2..]);
    var h, l, n := ParseNat(d[..2]), ParseNat(d[2..]), ParseNat(d);
    assert n / 100 == h && n % 100 == l;
    assert d == d[..2] + d[2..];
  }

  // ---- instants ----

  /** Days in the years before `y` (Python's `_days_before_year`). */
  function DaysBeforeYear(y: int): int
    requires y >= 1
  {
    var p := y - 1;
    p * 365 + p / 4 - p / 100 + p / 400
  }

  /** Days in the months of `y` before `m` (Python's `_days_before_month`). */
  function DaysBeforeMonth(y: int, m: int): int
    requires 1 <= m <= 12
  {
    DaysBeforeMonthTable[m - 1] + (if m > 2 && IsLeapYear(y) then 1 else 0)
  }

  /** Seconds since 0001-01-01 00:00:00; the difference of two of these is what datetime subtraction yields. */
  function Seconds(dt: DateTime): int
    requires Valid(dt)
  {
    (DaysBeforeYear(dt.year) + DaysBeforeMonth(dt.year, dt.month) + dt.day - 1) * 86400
      + dt.hour * 3600 + dt.minute * 60 + dt.second
  }

  /** A parsed datetime has no fractional second. */
  function Micros(dt: DateTime): int
    requires Valid(dt)
  {
    Seconds(dt) * 1_000_000
  }

  function NowMicros(now: Moment): int
    requires ValidMoment(now)
  {
    Seconds(now.clock) * 1_000_000 + now.micros
  }

  /** Calendar order: year, then month, day, hour, minute, second. */
  predicate Before(a: DateTime, b: DateTime) {
    if a.year != b.year then a.year < b.year
    else if a.month != b.month then a.month < b.month
    else if a.day != b.day then a.day < b.day
    else if a.hour != b.hour then a.hour < b.hour
    else if a.minute != b.minute then a.minute < b.minute
    else a.second < b.second
  }

  lemma YearLength(y: int)
    requires y >= 1
    ensures DaysBeforeYear(y + 1) == DaysBeforeYear(y) + DaysBeforeMonth(y, 12) + 31
  {
    LeapDays(y);
    assert DaysBeforeMonth(y, 12) == 334 + (if IsLeapYear(y) then 1 else 0);
  }

  /** Going from year `y - 1` to `y`, the leap-day count grows by one exactly when `y` is a leap year. */
  lemma LeapDays(y: int)
    requires y >= 1
    ensures y / 4 - y / 100 + y / 400 == (y - 1) / 4 - (y - 1) / 100 + (y - 1) / 400 + (if IsLeapYear(y) then 1 else 0)
  {
    StepBy4(y);
    StepBy100(y);
    StepBy400(y);
    Multiple400(y);
    Multiple100(y);
  }

  lemma StepBy4(y: int)
    ensures y / 4 == (y - 1) / 4 + (if y % 4 == 0 then 1 else 0)
  {
  }

  lemma StepBy100(y: int)
    ensures y / 100 == (y - 1) / 100 + (if y % 100 == 0 then 1 else 0)
  {
  }

  lemma StepBy400(y: int)
    ensures y / 400 == (y - 1) / 400 + (if y % 400 == 0 then 1 else 0)
  {
  }

  lemma Multiple400(y: int)
    ensures y % 400 == 0 ==> y % 100 == 0
  {
    if y % 400 == 0 {
      assert y == 100 * (4 * (y / 400));
    }
  }

  lemma Multiple100(y: int)
    ensures y % 100 == 0 ==> y % 4 == 0
  {
    if y % 100 == 0 {
      assert y == 4 * (25 * (y / 100));
    }
  }

  /** Day number within the calendar: months and years follow each other without gaps or overlap. */
  function DayNumber(dt: DateTime): int
    requires Valid(dt)
  {
    DaysBeforeYear(dt.year) + DaysBeforeMonth(dt.year, dt.month) + dt.day
  }

  lemma {:induction false} DaysBeforeYearMonotone(a: int, b: int)
    requires 1 <= a < b
    ensures DaysBeforeYear(a) + DaysBeforeMonth(a, 12) + 31 <= DaysBeforeYear(b)
    decreases b - a
  {
    YearLength(a);
    if a + 1 < b {
      DaysBeforeYearMonotone(a + 1, b);
      YearLength(a + 1);
    }
  }

  lemma DayNumberMonotone(a: DateTime, b: DateTime)
    requires Valid(a) && Valid(b)
    requires a.year < b.year || (a.year == b.year && (a.month < b.month || (a.month == b.month && a.day < b.day)))
    ensures DayNumber(a) < DayNumber(b)
  {
    if a.year < b.year {
      DaysBeforeYearMonotone(a.year, b.year);
      assert DaysBeforeMonth(a.year, a.month) + a.day <= DaysBeforeMonth(a.year, 12) + 31;
    } else if a.month < b.month {
      assert DaysBeforeMonth(a.year, a.month) + DaysInMonth(a.year, a.month) <= DaysBeforeMonth(a.year, b.month);
    }
  }

  /** The seconds count orders datetimes exactly as the calendar does. */
  lemma SecondsOrder(a: DateTime, b: DateTime)
    requires Valid(a) && Valid(b)
    ensures Seconds(a) < Seconds(b) <==> Before(a, b)
  {
    if a.year != b.year || a.month != b.month || a.day != b.day {
      if a.year < b.year || (a.year == b.year && (a.month < b.month || (a.month == b.month && a.day < b.day))) {
        DayNumberMonotone(a, b);
      } else {
        DayNumberMonotone(b, a);
      }
    }
  }
}
