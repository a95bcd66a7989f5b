/**
 Canonical UTC timestamps with milliseconds, `YYYY-MM-DDTHH:MM:SS.mmm+00:00`. Comparing the texts is
 comparing the instants, the ordering property of section 5.1 of RFC 3339, over the whole calendar.
 */
module Timestamps {
  import opened CanonicalJson

  datatype Civil = Civil(year: int, month: int, day: int, hour: int, minute: int, second: int, milli: int)

  // ---- The calendar ----

  predicate IsLeap(year: int) { year % 4 == 0 && (year % 100 != 0 || year % 400 == 0) }

  function YearLength(year: int): int { if IsLeap(year) then 366 else 365 }

  function MonthLength(year: int, month: int): int {
    if month == 2 then (if IsLeap(year) then 29 else 28)
    else if month == 4 || month == 6 || month == 9 || month == 11 then 30
    else 31
  }

  predicate IsCivil(c: Civil) {
    && 1 <= c.year <= 9999 && 1 <= c.month <= 12 && 1 <= c.day <= MonthLength(c.year, c.month)
    && 0 <= c.hour < 24 && 0 <= c.minute < 60 && 0 <= c.second < 60 && 0 <= c.milli < 1000
  }

  /** The days of the years before this one. */
  function DaysBeforeYear(year: int): int {
    var y := year - 1;
    y * 365 + y / 4 - y / 100 + y / 400
  }

  function DaysBeforeMonth(year: int, month: int): int
    requires 1 <= month <= 12
    decreases month
  {
    if month == 1 then 0 else DaysBeforeMonth(year, month - 1) + MonthLength(year, month - 1)
  }

  /** The number of the day, the first day of year 1 being day 1. */
  function Ordinal(c: Civil): int
    requires IsCivil(c)
  {
    DaysBeforeYear(c.year) + DaysBeforeMonth(c.year, c.month) + c.day
  }

  /** The instant, in milliseconds. */
  function Instant(c: Civil): int
    requires IsCivil(c)
  {
    (((Ordinal(c) * 24 + c.hour) * 60 + c.minute) * 60 + c.second) * 1000 + c.milli
  }

  // ---- The text ----

  function Padded(n: nat, width: nat): (s: string)
    ensures |s| == width
  {
    if width == 0 then "" else Padded(n / 10, width - 1) + [Digit(n % 10)]
  }

  datatype Field = Field(width: nat, after: string)

  function TextOf(values: seq<nat>, fields: seq<Field>): string
    requires |values| == |fields|
  {
    if values == [] then ""
    else Padded(values[0], fields[0].width) + (fields[0].after + TextOf(values[1..], fields[1..]))
  }

  const FIELDS := [Field(4, "-"), Field(2, "-"), Field(2, "T"), Field(2, ":"), Field(2, ":"), Field(2, "."), Field(3, "+00:00")]

  function Values(c: Civil): seq<nat>
    requires IsCivil(c)
  {
    [c.year, c.month, c.day, c.hour, c.minute, c.second, c.milli]
  }

  function Text(c: Civil): string
    requires IsCivil(c)
  {
    TextOf(Values(c), FIELDS)
  }

  // ---- Texts are ordered field by field ----

  function Power(width: nat): nat { if width == 0 then 1 else 10 * Power(width - 1) }

  /** The first difference decides. */
  predicate LexLess(a: seq<nat>, b: seq<nat>) {
    a != [] && b != [] && (a[0] < b[0] || (a[0] == b[0] && LexLess(a[1..], b[1..])))
  }

  lemma LessAfterPrefix(p: string, a: string, b: string)
    ensures Less(p + a, p + b) <==> Less(a, b)
  {
    if k: nat :| SmallerAt(a, b, k) {
      assert (p + a)[..|p| + k] == p + a[..k] && (p + b)[..|p| + k] == p + b[..k];
      assert SmallerAt(p + a, p + b, |p| + k);
    }
    if k: nat :| SmallerAt(p + a, p + b, k) {
      SmallerBeyondPrefix(p, a, b, k);
    }
  }

  lemma SmallerBeyondPrefix(p: string, a: string, b: string, k: nat)
    requires SmallerAt(p + a, p + b, k)
    ensures Less(a, b)
  {
    assert forall i | 0 <= i < |p| :: (p + a)[i] == (p + b)[i];
    assert k >= |p|;
    assert (p + a)[|p|..k] == a[..k - |p|] && (p + b)[|p|..k] == b[..k - |p|];
    assert (p + a)[..k][|p|..] == (p + a)[|p|..k] && (p + b)[..k][|p|..] == (p + b)[|p|..k];
    assert SmallerAt(a, b, k - |p|);
  }

  /** Different texts of one width decide, whatever follows. */
  lemma LessOfWidth(a: string, b: string, x: string, y: string)
    requires |a| == |b| && a != b
    ensures Less(a + x, b + y) <==> Less(a, b)
  {
    if k: nat :| SmallerAt(a, b, k) {
      assert k < |a|;
      assert (a + x)[..k] == a[..k] && (b + y)[..k] == b[..k];
      assert SmallerAt(a + x, b + y, k);
    }
    if k: nat :| SmallerAt(a + x, b + y, k) {
      forall i | 0 <= i < |a| && i < k ensures a[i] == b[i] {
        assert (a + x)[..k][i] == (b + y)[..k][i];
      }
      assert k < |a|;
      assert (a + x)[..k] == a[..k] && (b + y)[..k] == b[..k];
      assert SmallerAt(a, b, k);
    }
  }

  lemma {:induction false} PaddedIsInjective(n: nat, m: nat, width: nat)
    requires n < Power(width) && m < Power(width) && Padded(n, width) == Padded(m, width)
    ensures n == m
  {
    if width > 0 {
      var a, b := Padded(n / 10, width - 1), Padded(m / 10, width - 1);
      assert Padded(n, width)[..width - 1] == a && Padded(m, width)[..width - 1] == b;
      assert Padded(n, width)[width - 1] == Digit(n % 10) && Padded(m, width)[width - 1] == Digit(m % 10);
      PaddedIsInjective(n / 10, m / 10, width - 1);
    }
  }

  lemma PaddedDiffer(n: nat, m: nat, width: nat)
    requires n < Power(width) && m < Power(width) && n != m
    ensures Padded(n, width) != Padded(m, width)
  {
    if Padded(n, width) == Padded(m, width) {
      PaddedIsInjective(n, m, width);
    }
  }

  lemma {:induction false} PaddedKeepsOrder(n: nat, m: nat, width: nat)
    requires n < m < Power(width)
    ensures Less(Padded(n, width), Padded(m, width))
  {
    if width > 0 {
      var a, b := Padded(n / 10, width - 1), Padded(m / 10, width - 1);
      if n / 10 == m / 10 {
        LessAfterPrefix(a, [Digit(n % 10)], [Digit(m % 10)]);
        assert SmallerAt([Digit(n % 10)], [Digit(m % 10)], 0);
      } else {
        PaddedKeepsOrder(n / 10, m / 10, width - 1);
        PaddedDiffer(n / 10, m / 10, width - 1);
        LessOfWidth(a, b, [Digit(n % 10)], [Digit(m % 10)]);
      }
    }
  }

  ghost predicate Fits(values: seq<nat>, fields: seq<Field>) {
    |values| == |fields| && forall i | 0 <= i < |values| :: values[i] < Power(fields[i].width)
  }

  lemma LessIsAsymmetric(a: string, b: string)
    requires Less(a, b)
    ensures !Less(b, a)
  {
    if Less(b, a) {
      LessIsTransitive(a, b, a);
      LessIsIrreflexive(a);
    }
  }

  /** Fixed-width fields with the same separators compare like the sequences of their values. */
  lemma {:induction false} TextsCompareByField(a: seq<nat>, b: seq<nat>, fields: seq<Field>)
    requires Fits(a, fields) && Fits(b, fields)
    ensures Less(TextOf(a, fields), TextOf(b, fields)) <==> LexLess(a, b)
  {
    if a == [] {
      assert b == [] && TextOf(a, fields) == TextOf(b, fields);
      LessIsIrreflexive(TextOf(a, fields));
    } else {
      var w, sep := fields[0].width, fields[0].after;
      var x, y := TextOf(a[1..], fields[1..]), TextOf(b[1..], fields[1..]);
      if a[0] == b[0] {
        TextsCompareByField(a[1..], b[1..], fields[1..]);
        LessAfterPrefix(Padded(a[0], w), sep + x, sep + y);
        LessAfterPrefix(sep, x, y);
      } else {
        HeadsCompare(a[0], b[0], w, sep + x, sep + y);
      }
    }
  }

  lemma HeadsCompare(n: nat, m: nat, width: nat, x: string, y: string)
    requires n != m && n < Power(width) && m < Power(width)
    ensures Less(Padded(n, width) + x, Padded(m, width) + y) <==> n < m
  {
    var a, b := Padded(n, width), Padded(m, width);
    PaddedDiffer(n, m, width);
    LessOfWidth(a, b, x, y);
    if n < m {
      PaddedKeepsOrder(n, m, width);
    } else {
      PaddedKeepsOrder(m, n, width);
      LessIsAsymmetric(b, a);
    }
  }

  // ---- Instants are ordered field by field ----

  lemma FourYears(year: int)
    ensures year / 4 == (year - 1) / 4 + if year % 4 == 0 then 1 else 0
  {
  }

  lemma Century(year: int)
    ensures year / 100 == (year - 1) / 100 + if year % 100 == 0 then 1 else 0
    ensures year % 100 == 0 ==> year % 4 == 0
  {
    assert year == 100 * (year / 100) + year % 100;
  }

  lemma FourCenturies(year: int)
    ensures year / 400 == (year - 1) / 400 + if year % 400 == 0 then 1 else 0
    ensures year % 400 == 0 ==> year % 100 == 0
  {
    assert year == 400 * (year / 400) + year % 400;
  }

  lemma YearFollowsYear(year: int)
    ensures DaysBeforeYear(year + 1) == DaysBeforeYear(year) + YearLength(year)
  {
    FourYears(year);
    Century(year);
    FourCenturies(year);
    assert (year + 1) - 1 == year;
  }

  lemma {:induction false} YearsRise(a: int, b: int)
    requires a < b
    ensures DaysBeforeYear(a) + YearLength(a) <= DaysBeforeYear(b)
    decreases b - a
  {
    YearFollowsYear(b - 1);
    if a + 1 < b {
      YearsRise(a, b - 1);
    }
  }

  lemma {:induction false} MonthsRise(year: int, a: int, b: int)
    requires 1 <= a < b <= 12
    ensures DaysBeforeMonth(year, a) + MonthLength(year, a) <= DaysBeforeMonth(year, b)
    decreases b - a
  {
    if a + 1 < b {
      MonthsRise(year, a, b - 1);
    }
  }

  lemma MonthsFillYear(year: int, month: int)
    requires 1 <= month <= 12
    ensures 0 <= DaysBeforeMonth(year, month) && DaysBeforeMonth(year, month) + MonthLength(year, month) <= YearLength(year)
  {
    TwelveMonths(year);
    if month < 12 {
      MonthsRise(year, month, 12);
    }
    if month > 1 {
      MonthsRise(year, 1, month);
    }
  }

  lemma TwelveMonths(year: int)
    ensures DaysBeforeMonth(year, 12) + 31 == YearLength(year)
  {
    var feb := MonthLength(year, 2);
    assert DaysBeforeMonth(year, 3) == 31 + feb;
    assert DaysBeforeMonth(year, 5) == 31 + feb + 61;
    assert DaysBeforeMonth(year, 7) == 31 + feb + 122;
    assert DaysBeforeMonth(year, 9) == 31 + feb + 184;
    assert DaysBeforeMonth(year, 11) == 31 + feb + 245;
  }

  /** A later date has a higher number. */
  lemma DatesRise(a: Civil, b: Civil)
    requires IsCivil(a) && IsCivil(b)
    requires Before(a, b)
    ensures Ordinal(a) < Ordinal(b)
  {
    MonthsFillYear(a.year, a.month);
    MonthsFillYear(b.year, b.month);
    if a.year < b.year {
      YearsRise(a.year, b.year);
    } else if a.month < b.month {
      MonthsRise(a.year, a.month, b.month);
    }
  }

  lemma LexStep(x: nat, xs: seq<nat>, y: nat, ys: seq<nat>)
    ensures LexLess([x] + xs, [y] + ys) <==> x < y || (x == y && LexLess(xs, ys))
  {
    assert ([x] + xs)[1..] == xs && ([y] + ys)[1..] == ys;
  }

  lemma LexTwoSteps(x: nat, x2: nat, xs: seq<nat>, y: nat, y2: nat, ys: seq<nat>)
    ensures LexLess([x, x2] + xs, [y, y2] + ys) <==> x < y || (x == y && (x2 < y2 || (x2 == y2 && LexLess(xs, ys))))
  {
    assert [x, x2] + xs == [x] + ([x2] + xs) && [y, y2] + ys == [y] + ([y2] + ys);
    LexStep(x, [x2] + xs, y, [y2] + ys);
    LexStep(x2, xs, y2, ys);
  }

  /** The date comes first. */
  predicate Before(a: Civil, b: Civil) {
    a.year < b.year || (a.year == b.year && (a.month < b.month || (a.month == b.month && a.day < b.day)))
  }

  predicate SameDate(a: Civil, b: Civil) { a.year == b.year && a.month == b.month && a.day == b.day }

  function TimeValues(c: Civil): seq<nat> requires IsCivil(c) { [c.hour, c.minute, c.second, c.milli] }

  lemma DateDecides(a: Civil, b: Civil)
    requires IsCivil(a) && IsCivil(b)
    ensures LexLess(Values(a), Values(b)) <==> Before(a, b) || (SameDate(a, b) && LexLess(TimeValues(a), TimeValues(b)))
  {
    var ta, tb := TimeValues(a), TimeValues(b);
    assert Values(a) == [a.year, a.month] + ([a.day] + ta) && Values(b) == [b.year, b.month] + ([b.day] + tb);
    LexTwoSteps(a.year, a.month, [a.day] + ta, b.year, b.month, [b.day] + tb);
    LexStep(a.day, ta, b.day, tb);
  }

  function TimeOfDay(c: Civil): int { ((c.hour * 60 + c.minute) * 60 + c.second) * 1000 + c.milli }

  lemma TimeDecides(a: Civil, b: Civil)
    requires IsCivil(a) && IsCivil(b)
    ensures LexLess(TimeValues(a), TimeValues(b)) <==> TimeOfDay(a) < TimeOfDay(b)
    ensures TimeOfDay(a) == TimeOfDay(b) ==> TimeValues(a) == TimeValues(b)
  {
    assert TimeValues(a) == [a.hour, a.minute] + ([a.second, a.milli] + []) && TimeValues(b) == [b.hour, b.minute] + ([b.second, b.milli] + []);
    LexTwoSteps(a.hour, a.minute, [a.second, a.milli] + [], b.hour, b.minute, [b.second, b.milli] + []);
    LexTwoSteps(a.second, a.milli, [], b.second, b.milli, []);
  }

  lemma InstantSplits(c: Civil)
    requires IsCivil(c)
    ensures Instant(c) == Ordinal(c) * 86_400_000 + TimeOfDay(c) && 0 <= TimeOfDay(c) < 86_400_000
  {
  }

  lemma InstantsCompareByField(a: Civil, b: Civil)
    requires IsCivil(a) && IsCivil(b)
    ensures Instant(a) < Instant(b) <==> LexLess(Values(a), Values(b))
    ensures Instant(a) == Instant(b) <==> a == b
  {
    DateDecides(a, b);
    TimeDecides(a, b);
    InstantSplits(a);
    InstantSplits(b);
    if Before(a, b) {
      DatesRise(a, b);
    } else if Before(b, a) {
      DatesRise(b, a);
    } else {
      assert SameDate(a, b) && Ordinal(a) == Ordinal(b);
      assert TimeValues(a) == TimeValues(b) ==> a.hour == b.hour && a.minute == b.minute && a.second == b.second && a.milli == b.milli by {
        assert TimeValues(a)[0] == a.hour && TimeValues(a)[1] == a.minute && TimeValues(a)[2] == a.second && TimeValues(a)[3] == a.milli;
      }
    }
  }

  lemma CivilFits(c: Civil)
    requires IsCivil(c)
    ensures Fits(Values(c), FIELDS)
  {
    assert Power(2) == 100 && Power(3) == 1000 && Power(4) == 10000;
  }

  /** The order of the texts is the order of the instants. */
  lemma TextOrderIsInstantOrder(a: Civil, b: Civil)
    requires IsCivil(a) && IsCivil(b)
    ensures Less(Text(a), Text(b)) <==> Instant(a) < Instant(b)
    ensures Text(a) == Text(b) <==> Instant(a) == Instant(b)
    ensures Instant(a) == Instant(b) <==> a == b
  {
    CivilFits(a);
    CivilFits(b);
    TextsCompareByField(Values(a), Values(b), FIELDS);
    TextsCompareByField(Values(b), Values(a), FIELDS);
    InstantsCompareByField(a, b);
    InstantsCompareByField(b, a);
    LessIsIrreflexive(Text(a));
  }

  // ---- Every instant has a timestamp ----

  /** The Gregorian calendar: February apart, and century years that 400 does not divide. */
  lemma CalendarIsGregorian(year: int)
    ensures MonthLength(year, 1) == 31 && MonthLength(year, 3) == 31 && MonthLength(year, 4) == 30 && MonthLength(year, 5) == 31
    ensures MonthLength(year, 6) == 30 && MonthLength(year, 7) == 31 && MonthLength(year, 8) == 31 && MonthLength(year, 9) == 30
    ensures MonthLength(year, 10) == 31 && MonthLength(year, 11) == 30 && MonthLength(year, 12) == 31
    ensures MonthLength(2024, 2) == 29 && MonthLength(2000, 2) == 29 && MonthLength(1900, 2) == 28 && MonthLength(2023, 2) == 28
  {
  }

  /** The number of the last day of year 9999. */
  const LAST_DAY := 3_652_059

  /** The day after this one, until the last day. */
  lemma NextDay(c: Civil) returns (next: Civil)
    requires IsCivil(c) && Ordinal(c) < LAST_DAY
    ensures IsCivil(next) && Ordinal(next) == Ordinal(c) + 1
  {
    assert DaysBeforeYear(10000) == LAST_DAY;
    if c.day < MonthLength(c.year, c.month) {
      next := Civil(c.year, c.month, c.day + 1, 0, 0, 0, 0);
    } else if c.month < 12 {
      next := Civil(c.year, c.month + 1, 1, 0, 0, 0, 0);
    } else {
      TwelveMonths(c.year);
      YearFollowsYear(c.year);
      next := Civil(c.year + 1, 1, 1, 0, 0, 0, 0);
    }
  }

  lemma {:induction false} EveryDay(n: nat) returns (c: Civil)
    requires 1 <= n <= LAST_DAY
    ensures IsCivil(c) && Ordinal(c) == n
  {
    if n == 1 {
      c := Civil(1, 1, 1, 0, 0, 0, 0);
    } else {
      var before := EveryDay(n - 1);
      c := NextDay(before);
    }
  }

  const DAY := 86_400_000

  /** Every millisecond of the years 1 to 9999 has its timestamp, so the calendar has no gap. */
  lemma EveryInstant(t: int) returns (c: Civil)
    requires DAY <= t < (LAST_DAY + 1) * DAY
    ensures IsCivil(c) && Instant(c) == t
  {
    var day, rest := t / DAY, t % DAY;
    assert 1 <= day <= LAST_DAY && t == day * DAY + rest;
    var date := EveryDay(day);
    var seconds := rest / 1000;
    var minutes := seconds / 60;
    c := Civil(date.year, date.month, date.day, minutes / 60, minutes % 60, seconds % 60, rest % 1000);
    assert Ordinal(c) == day;
    InstantSplits(c);
  }
}
