/**
 * gmtime_r against the Gregorian calendar.
 */
module Calendar {
  import opened Arithmetic

  // ---------------------------------------------------------------- the calendar

  predicate IsLeap(y: int) { y % 4 == 0 && (y % 100 != 0 || y % 400 == 0) }

  function Leap(y: int): int { if IsLeap(y) then 1 else 0 }

  /** Days from 1 January 1970 to 1 January of year y, counted year by year. */
  function YearStart(y: int): int
    decreases if y >= 1970 then y - 1970 else 1970 - y
  {
    if y == 1970 then 0
    else if y > 1970 then YearStart(y - 1) + 365 + Leap(y - 1)
    else YearStart(y + 1) - 365 - Leap(y)
  }

  function DaysIn(y: int, m: int): int
    requires 0 <= m < 12
  {
    if m == 1 then 28 + Leap(y) else if m == 3 || m == 5 || m == 8 || m == 10 then 30 else 31
  }

  /** Days of the year before month m. */
  function MonthStart(y: int, m: int): int
    requires 0 <= m <= 12
  {
    if m == 0 then 0 else MonthStart(y, m - 1) + DaysIn(y, m - 1)
  }

  datatype Tm = Tm(sec: int, min: int, hour: int, mday: int, mon: int, year: int, wday: int, yday: int, isdst: int)

  const YEAR_BASE := 1900

  /** A date and time of the Gregorian calendar, with its weekday and day of the year. */
  predicate Proper(t: Tm) {
    && 0 <= t.sec < 60 && 0 <= t.min < 60 && 0 <= t.hour < 24
    && 0 <= t.mon < 12 && 1 <= t.mday <= DaysIn(t.year + YEAR_BASE, t.mon)
    && t.yday == MonthStart(t.year + YEAR_BASE, t.mon) + t.mday - 1
    && t.wday == (4 + Day(t)) % 7
    && t.isdst == 0
  }

  /** Days since 1 January 1970, a Thursday. */
  function Day(t: Tm): int {
    YearStart(t.year + YEAR_BASE) + t.yday
  }

  function Seconds(t: Tm): int {
    Day(t) * 86400 + t.hour * 3600 + t.min * 60 + t.sec
  }

  // ---------------------------------------------------------------- C arithmetic

  /** Division and remainder as in C: towards zero. */
  function CDiv(a: int, b: int): int
    requires b > 0
  {
    if a >= 0 then a / b else -((-a) / b)
  }

  function CMod(a: int, b: int): int
    requires b > 0
  {
    a - CDiv(a, b) * b
  }

  lemma CDivMod(a: int, b: int)
    requires b > 0
    ensures -b < CMod(a, b) < b && (a >= 0 ==> CMod(a, b) >= 0) && (a < 0 ==> CMod(a, b) <= 0)
    ensures CMod(a, b) < 0 ==> CDiv(a, b) - 1 == a / b && CMod(a, b) + b == a % b
    ensures CMod(a, b) >= 0 ==> CDiv(a, b) == a / b && CMod(a, b) == a % b
  {
    if a < 0 {
      var q, r := (-a) / b, (-a) % b;
      assert -a == q * b + r;
      assert CMod(a, b) == -r by { assert CDiv(a, b) * b == -(q * b); }
      if r == 0 {
        DivUnique(a, -q, b, 0);
      } else {
        assert (-q - 1) * b == -(q * b) - b;
        DivUnique(a, -q - 1, b, b - r);
      }
    } else {
      assert a == (a / b) * b + a % b;
    }
  }

  // ---------------------------------------------------------------- gmtime_r

  const SECSPERDAY := 86400
  const EPOCH_ADJUSTMENT_DAYS := 719468
  const DAYS_PER_ERA := 146097

  /** Days since 1 March of year 0, seconds of the day. */
  function SplitTime(time: int): (int, int) {
    var days := CDiv(time, SECSPERDAY) + EPOCH_ADJUSTMENT_DAYS;
    var rem := CMod(time, SECSPERDAY);
    if rem < 0 then (days - 1, rem + SECSPERDAY) else (days, rem)
  }

  function EraYear(eraday: int): int {
    (eraday - eraday / 1460 + eraday / 36524 - eraday / 146096) / 365
  }

  datatype Date = Date(year: int, mon: int, mday: int, yday: int)

  /** Year, month and days from the day of the era. */
  function DateOf(era: int, eraday: int): Date {
    var erayear := EraYear(eraday);
    var yearday := eraday - (365 * erayear + erayear / 4 - erayear / 100);
    var month0 := (5 * yearday + 2) / 153;
    var day := yearday - (153 * month0 + 2) / 5 + 1;
    var month := if month0 < 10 then month0 + 2 else month0 - 10;
    var year := erayear + era * 400 + (if month <= 1 then 1 else 0);
    var yday := if yearday >= 306 then yearday - 306 else yearday + 59 + Leap(erayear);
    Date(year - YEAR_BASE, month, day, yday)
  }

  function EraOf(days: int): int {
    CDiv(if days >= 0 then days else days - (DAYS_PER_ERA - 1), DAYS_PER_ERA)
  }

  function Weekday(days: int): int {
    var wday := CMod(3 + days, 7);
    if wday < 0 then wday + 7 else wday
  }

  function Gmtime(time: int): Tm {
    var (days, rem0) := SplitTime(time);
    var hour := rem0 / 3600;
    var rem := rem0 % 3600;
    var era := EraOf(days);
    var date := DateOf(era, days - era * DAYS_PER_ERA);
    Tm(rem % 60, rem / 60, hour, date.mday, date.mon, date.year, Weekday(days), date.yday, 0)
  }

  // ---------------------------------------------------------------- years

  /** Leap years up to y, counted from year 1. */
  function Leaps(y: int): int { y / 4 - y / 100 + y / 400 }

  lemma LeapsStep(y: int)
    ensures Leaps(y) - Leaps(y - 1) == Leap(y)
  {
    Quarter(y, 4);
    Quarter(y, 100);
    Quarter(y, 400);
    if y % 400 == 0 { assert y % 100 == 0; }
    if y % 100 == 0 { assert y % 4 == 0; }
  }

  lemma Quarter(y: int, n: int)
    requires n == 4 || n == 100 || n == 400
    ensures y / n - (y - 1) / n == if y % n == 0 then 1 else 0
  {}

  lemma {:induction false} YearStartIs(y: int)
    ensures YearStart(y) == 365 * (y - 1970) + Leaps(y - 1) - 477
    decreases if y >= 1970 then y - 1970 else 1970 - y
  {
    if y == 1970 {
    } else if y > 1970 {
      YearStartIs(y - 1);
      LeapsStep(y - 1);
    } else {
      YearStartIs(y + 1);
      LeapsStep(y);
    }
  }

  /** Days from 1 March of year 0 to 1 March of year y. */
  lemma MarchStart(y: int)
    ensures YearStart(y) + 59 + Leap(y) + EPOCH_ADJUSTMENT_DAYS == 365 * y + Leaps(y)
  {
    YearStartIs(y);
    LeapsStep(y);
  }

  lemma YearLength(y: int)
    ensures YearStart(y + 1) == YearStart(y) + 365 + Leap(y)
  {
    YearStartIs(y);
    YearStartIs(y + 1);
    LeapsStep(y);
  }

  // ---------------------------------------------------------------- the date of a day

  /** A day of an era as century, four-year cycle, year and day, the leap day last. */
  ghost predicate Parts(eraday: int, c: int, q: int, k: int, d: int) {
    && 0 <= c <= 3 && 0 <= q <= 24 && 0 <= k <= 3 && 0 <= d <= 365
    && eraday == 36524 * c + 1461 * q + 365 * k + d
    && (d == 365 ==> k == 3 && (q == 24 ==> c == 3))
  }

  lemma PartsOf(eraday: int) returns (c: int, q: int, k: int, d: int)
    requires 0 <= eraday < DAYS_PER_ERA
    ensures Parts(eraday, c, q, k, d)
  {
    c := if eraday / 36524 > 3 then 3 else eraday / 36524;
    var r := eraday - 36524 * c;
    q := r / 1461;
    var s := r % 1461;
    k := if s / 365 > 3 then 3 else s / 365;
    d := s - 365 * k;
  }

  /** The year of the era that gmtime_r computes is that of the parts. */
  lemma EraYearIs(eraday: int, c: int, q: int, k: int, d: int)
    requires Parts(eraday, c, q, k, d)
    ensures EraYear(eraday) == 100 * c + 4 * q + k && 0 <= EraYear(eraday) < 400
  {
    var x := 24 * c + q + 365 * k + d;
    var carry := if x >= 1460 then 1 else 0;
    assert eraday == 1460 * (25 * c + q) + x;
    assert eraday / 1460 == 25 * c + q + carry;
    var y := 1461 * q + 365 * k + d;
    var last := if y >= 36524 then 1 else 0;
    assert eraday / 36524 == c + last;
    assert eraday / 146096 == last;
    assert 0 <= d - carry <= 364;
  }

  lemma YearDayIs(eraday: int, c: int, q: int, k: int, d: int)
    requires Parts(eraday, c, q, k, d)
    ensures var y := 100 * c + 4 * q + k; y / 4 == 25 * c + q && y / 100 == c && eraday - (365 * y + y / 4 - y / 100) == d
    ensures d == 365 ==> IsLeap(100 * c + 4 * q + k + 1)
  {}

  /** Months counted from March. */
  lemma MonthIs(yearday: int, y: int)
    requires 0 <= yearday <= 365 && (yearday == 365 ==> IsLeap(y + 1))
    ensures var m := (5 * yearday + 2) / 153; var d := yearday - (153 * m + 2) / 5 + 1;
      && 0 <= m < 12
      && (m < 10 <==> yearday < 306)
      && (m < 10 ==> 1 <= d <= DaysIn(y, m + 2) && MonthStart(y, m + 2) + d - 1 == yearday + 59 + Leap(y))
      && (m >= 10 ==> 1 <= d <= DaysIn(y + 1, m - 10) && MonthStart(y + 1, m - 10) + d - 1 == yearday - 306)
  {
    MonthStarts(y);
    MonthStarts(y + 1);
    var m := (5 * yearday + 2) / 153;
    if m == 0 {} else if m == 1 {} else if m == 2 {} else if m == 3 {} else if m == 4 {} else if m == 5 {}
    else if m == 6 {} else if m == 7 {} else if m == 8 {} else if m == 9 {} else if m == 10 {} else {}
  }

  lemma MonthStarts(y: int)
    ensures MonthStart(y, 0) == 0 && MonthStart(y, 1) == 31 && MonthStart(y, 2) == 59 + Leap(y) && MonthStart(y, 3) == 90 + Leap(y)
    ensures MonthStart(y, 4) == 120 + Leap(y) && MonthStart(y, 5) == 151 + Leap(y) && MonthStart(y, 6) == 181 + Leap(y)
    ensures MonthStart(y, 7) == 212 + Leap(y) && MonthStart(y, 8) == 243 + Leap(y) && MonthStart(y, 9) == 273 + Leap(y)
    ensures MonthStart(y, 10) == 304 + Leap(y) && MonthStart(y, 11) == 334 + Leap(y) && MonthStart(y, 12) == 365 + Leap(y)
  {
    assert MonthStart(y, 3) == MonthStart(y, 2) + 31;
    assert MonthStart(y, 6) == MonthStart(y, 5) + 30;
    assert MonthStart(y, 9) == MonthStart(y, 8) + 30;
  }

  /** Leap years repeat with the era. */
  lemma EraLeap(e: int, y: int)
    ensures IsLeap(400 * e + y) == IsLeap(y) && Leaps(400 * e + y) == 97 * e + Leaps(y)
  {
    Cycle(e, y, 4, 100);
    Cycle(e, y, 100, 4);
    Cycle(e, y, 400, 1);
  }

  lemma Cycle(e: int, y: int, n: int, k: int)
    requires (n == 4 && k == 100) || (n == 100 && k == 4) || (n == 400 && k == 1)
    ensures (400 * e + y) % n == y % n && (400 * e + y) / n == k * e + y / n
  {
    DivUnique(400 * e + y, k * e + y / n, n, y % n);
  }

  lemma EraIs(days: int)
    ensures EraOf(days) == days / DAYS_PER_ERA && days - EraOf(days) * DAYS_PER_ERA == days % DAYS_PER_ERA
  {
    if days < 0 {
      var q, r := days / DAYS_PER_ERA, days % DAYS_PER_ERA;
      DivUnique(-(days - (DAYS_PER_ERA - 1)), -q, DAYS_PER_ERA, DAYS_PER_ERA - 1 - r);
    }
  }

  /** The day number of a date is the day it came from, and the date is one of the calendar. */
  lemma DateIs(era: int, eraday: int)
    requires 0 <= eraday < DAYS_PER_ERA
    ensures var t := DateOf(era, eraday); var y := t.year + YEAR_BASE;
      && 0 <= t.mon < 12 && 1 <= t.mday <= DaysIn(y, t.mon) && t.yday == MonthStart(y, t.mon) + t.mday - 1
      && YearStart(y) + t.yday == era * DAYS_PER_ERA + eraday - EPOCH_ADJUSTMENT_DAYS
  {
    hide YearStart, MonthStart, IsLeap, EraYear, Parts, Leaps;
    var c, q, k, d := PartsOf(eraday);
    var y := 100 * c + 4 * q + k;
    EraYearIs(eraday, c, q, k, d);
    YearDayIs(eraday, c, q, k, d);
    EraLeap(era, y);
    EraLeap(era, y + 1);
    PartsRange(eraday, c, q, k, d);
    MonthIs(d, 400 * era + y);
    MarchStart(400 * era + y);
    YearLength(400 * era + y);
    LeapsOf(y, c, q);
  }

  lemma PartsRange(eraday: int, c: int, q: int, k: int, d: int)
    requires Parts(eraday, c, q, k, d)
    ensures 0 <= d <= 365 && eraday == 36524 * c + 1461 * q + 365 * k + d && 0 <= 100 * c + 4 * q + k < 400
  {}

  lemma LeapsOf(y: int, c: int, q: int)
    requires 0 <= y < 400 && y / 4 == 25 * c + q && y / 100 == c
    ensures Leaps(y) == 24 * c + q
  {}

  lemma SplitIs(time: int)
    ensures SplitTime(time) == (time / SECSPERDAY + EPOCH_ADJUSTMENT_DAYS, time % SECSPERDAY)
  {
    CDivMod(time, SECSPERDAY);
  }

  /** The day of the week is counted from the epoch, a Thursday. */
  lemma WeekdayIs(days: int)
    ensures Weekday(days) == (4 + (days - EPOCH_ADJUSTMENT_DAYS)) % 7
  {
    CDivMod(3 + days, 7);
  }

  lemma ClockIs(rem: int)
    requires 0 <= rem < SECSPERDAY
    ensures var h := rem / 3600; var r := rem % 3600;
      0 <= h < 24 && 0 <= r / 60 < 60 && 0 <= r % 60 < 60 && h * 3600 + (r / 60) * 60 + r % 60 == rem
  {}

  /**
   * gmtime_r gives the date and time of the Gregorian calendar that lies this many seconds
   * from the epoch, for every time before or after it.
   */
  lemma GmtimeIsCalendar(time: int)
    ensures Proper(Gmtime(time)) && Seconds(Gmtime(time)) == time
  {
    hide YearStart, MonthStart, IsLeap, EraYear, DateOf, DaysIn, SplitTime, Weekday, EraOf;
    SplitIs(time);
    var days, rem := time / SECSPERDAY + EPOCH_ADJUSTMENT_DAYS, time % SECSPERDAY;
    var era := days / DAYS_PER_ERA;
    EraIs(days);
    DateIs(era, days % DAYS_PER_ERA);
    WeekdayIs(days);
    ClockIs(rem);
    assert era * DAYS_PER_ERA + days % DAYS_PER_ERA == days;
  }

  // ---------------------------------------------------------------- the only such date

  lemma {:induction false} YearsGrow(y: int, z: int)
    requires y < z
    ensures YearStart(y) + 365 + Leap(y) <= YearStart(z)
    decreases z - y
  {
    YearLength(y);
    if y + 1 < z { YearsGrow(y + 1, z); }
  }

  lemma {:induction false} MonthsGrow(y: int, m: int, n: int)
    requires 0 <= m < n <= 12
    ensures MonthStart(y, m) + DaysIn(y, m) <= MonthStart(y, n)
    decreases n - m
  {
    if m + 1 < n { MonthsGrow(y, m, n - 1); }
  }

  lemma DayInYear(t: Tm)
    requires Proper(t)
    ensures 0 <= t.yday < 365 + Leap(t.year + YEAR_BASE)
  {
    var y := t.year + YEAR_BASE;
    MonthStarts(y);
    MonthsGrow(y, t.mon, 12);
    if t.mon > 0 { MonthsGrow(y, 0, t.mon); }
  }

  lemma SameDay(t: Tm, u: Tm)
    requires Proper(t) && Proper(u) && Day(t) == Day(u)
    ensures t.year == u.year && t.yday == u.yday && t.mon == u.mon && t.mday == u.mday
  {
    hide YearStart, MonthStart, IsLeap, DaysIn;
    DayInYear(t);
    DayInYear(u);
    var y, z := t.year + YEAR_BASE, u.year + YEAR_BASE;
    if y < z { YearsGrow(y, z); }
    if z < y { YearsGrow(z, y); }
    if t.mon < u.mon { MonthsGrow(y, t.mon, u.mon); }
    if u.mon < t.mon { MonthsGrow(y, u.mon, t.mon); }
  }

  lemma SameTime(t: Tm, u: Tm)
    requires Proper(t) && Proper(u) && Seconds(t) == Seconds(u)
    ensures Day(t) == Day(u) && t.hour == u.hour && t.min == u.min && t.sec == u.sec
  {
    hide YearStart, MonthStart, IsLeap, DaysIn, Day;
    var a, b := t.hour * 3600 + t.min * 60 + t.sec, u.hour * 3600 + u.min * 60 + u.sec;
    assert 0 <= a < 86400 && 0 <= b < 86400;
  }

  /** Each proper date and time is the one gmtime_r gives for its seconds. */
  lemma CalendarIsGmtime(t: Tm)
    requires Proper(t)
    ensures Gmtime(Seconds(t)) == t
  {
    hide YearStart, MonthStart, IsLeap, DaysIn, Day, Gmtime, Seconds;
    var u := Gmtime(Seconds(t));
    GmtimeIsCalendar(Seconds(t));
    SameTime(t, u);
    SameDay(t, u);
  }

  /** Seconds since the epoch as in section 4.16 of IEEE Std 1003.1-2017 Base Definitions. */
  function PosixSeconds(t: Tm): int {
    t.sec + t.min * 60 + t.hour * 3600 + t.yday * 86400 + (t.year - 70) * 31536000
      + CDiv(t.year - 69, 4) * 86400 - CDiv(t.year - 1, 100) * 86400 + CDiv(t.year + 299, 400) * 86400
  }

  /** From 1970 on the formula gives back the time. */
  lemma PosixFormula(time: int)
    ensures Gmtime(time).year >= 70 ==> PosixSeconds(Gmtime(time)) == time
  {
    hide YearStart, MonthStart, IsLeap, DaysIn, Gmtime;
    GmtimeIsCalendar(time);
    var t := Gmtime(time);
    YearStartIs(t.year + YEAR_BASE);
    if t.year >= 70 { PosixLeaps(t.year); }
  }

  lemma PosixLeaps(year: int)
    requires year >= 70
    ensures Leaps(year + YEAR_BASE - 1) - 477 == (year - 69) / 4 - (year - 1) / 100 + (year + 299) / 400
  {
    var y := year + 1899;
    DivUnique(y, (year - 69) / 4 + 492, 4, (year - 69) % 4);
    DivUnique(y, (year - 1) / 100 + 19, 100, (year - 1) % 100);
    DivUnique(y, (year + 299) / 400 + 4, 400, (year + 299) % 400);
  }
}
