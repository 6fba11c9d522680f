/** The two calendars as rules one can check by hand: which years are leap years, how long each
    month is, and what the next day is.  Day numbers are defined by adding up year lengths one year
    at a time, in both directions from an epoch, so they make sense for every integer year.
    Nothing here uses the cycle arithmetic of jalali.py. */
module Calendars {
  datatype Date = Date(year: int, month: int, day: int) {
    /** Lexicographic order: an earlier year, or month, or day. */
    predicate Before(other: Date) {
      || year < other.year
      || (year == other.year && month < other.month)
      || (year == other.year && month == other.month && day < other.day)
    }
  }

  // ------------------------------------------------------------------ Gregorian

  predicate GLeap(y: int) {
    (y % 4 == 0 && y % 100 != 0) || y % 400 == 0
  }

  function GYearLength(y: int): int { if GLeap(y) then 366 else 365 }

  function GMonthLength(y: int, m: int): int
    requires 1 <= m <= 12
  {
    if m == 2 then (if GLeap(y) then 29 else 28)
    else if m == 4 || m == 6 || m == 9 || m == 11 then 30
    else 31
  }

  /** Days of year y before its month m; m == 13 gives the whole year. */
  function GMonthStart(y: int, m: int): int
    requires 1 <= m <= 13
  {
    if m == 1 then 0 else GMonthStart(y, m - 1) + GMonthLength(y, m - 1)
  }

  /** Days from 1 January 1600 to 1 January of year y, one year at a time. */
  function GYearStart(y: int): int
    decreases if y < 1600 then 1600 - y else y - 1600
  {
    if y == 1600 then 0
    else if y > 1600 then GYearStart(y - 1) + GYearLength(y - 1)
    else GYearStart(y + 1) - GYearLength(y)
  }

  predicate GValid(d: Date) {
    1 <= d.month <= 12 && 1 <= d.day <= GMonthLength(d.year, d.month)
  }

  /** Days from 1 January 1600. */
  function GDay(d: Date): int
    requires 1 <= d.month <= 12
  {
    GYearStart(d.year) + GMonthStart(d.year, d.month) + d.day - 1
  }

  // ------------------------------------------------------------------ Jalali

  /** The 33-year rule: 8 leap years in every 33, counted from year 979. */
  predicate JLeap(y: int) {
    var r := (y - 979) % 33;
    r % 4 == 0 && r != 32
  }

  function JYearLength(y: int): int { if JLeap(y) then 366 else 365 }

  function JMonthLength(y: int, m: int): int
    requires 1 <= m <= 12
  {
    if m <= 6 then 31 else if m <= 11 then 30 else if JLeap(y) then 30 else 29
  }

  /** Days of a Jalali year before month m; only the last month depends on the year. */
  function JMonthStart(m: int): int
    requires 1 <= m <= 12
  {
    if m == 1 then 0 else JMonthStart(m - 1) + (if m - 1 <= 6 then 31 else 30)
  }

  /** Days from 1 Farvardin 979 to 1 Farvardin of year y, one year at a time. */
  function JYearStart(y: int): int
    decreases if y < 979 then 979 - y else y - 979
  {
    if y == 979 then 0
    else if y > 979 then JYearStart(y - 1) + JYearLength(y - 1)
    else JYearStart(y + 1) - JYearLength(y)
  }

  predicate JValid(d: Date) {
    1 <= d.month <= 12 && 1 <= d.day <= JMonthLength(d.year, d.month)
  }

  /** Days from 1 Farvardin 979. */
  function JDay(d: Date): int
    requires 1 <= d.month <= 12
  {
    JYearStart(d.year) + JMonthStart(d.month) + d.day - 1
  }

  // ------------------------------------------------------------------ day by day

  function GNext(d: Date): Date
    requires GValid(d)
  {
    if d.day < GMonthLength(d.year, d.month) then d.(day := d.day + 1)
    else if d.month < 12 then Date(d.year, d.month + 1, 1)
    else Date(d.year + 1, 1, 1)
  }

  function GPrevious(d: Date): Date
    requires GValid(d)
  {
    if d.day > 1 then d.(day := d.day - 1)
    else if d.month > 1 then Date(d.year, d.month - 1, GMonthLength(d.year, d.month - 1))
    else Date(d.year - 1, 12, 31)
  }

  function JNext(d: Date): Date
    requires JValid(d)
  {
    if d.day < JMonthLength(d.year, d.month) then d.(day := d.day + 1)
    else if d.month < 12 then Date(d.year, d.month + 1, 1)
    else Date(d.year + 1, 1, 1)
  }

  function JPrevious(d: Date): Date
    requires JValid(d)
  {
    if d.day > 1 then d.(day := d.day - 1)
    else if d.month > 1 then Date(d.year, d.month - 1, JMonthLength(d.year, d.month - 1))
    else Date(d.year - 1, 12, JMonthLength(d.year - 1, 12))
  }

  lemma GMonthStarts(y: int)
    ensures var l := if GLeap(y) then 1 else 0;
            && GMonthStart(y, 1) == 0 && GMonthStart(y, 2) == 31 && GMonthStart(y, 3) == 59 + l
            && GMonthStart(y, 4) == 90 + l && GMonthStart(y, 5) == 120 + l && GMonthStart(y, 6) == 151 + l
            && GMonthStart(y, 7) == 181 + l && GMonthStart(y, 8) == 212 + l && GMonthStart(y, 9) == 243 + l
            && GMonthStart(y, 10) == 273 + l && GMonthStart(y, 11) == 304 + l && GMonthStart(y, 12) == 334 + l
            && GMonthStart(y, 13) == GYearLength(y)
  {
  }

  lemma JMonthStarts()
    ensures forall m | 1 <= m <= 12 :: JMonthStart(m) == if m <= 7 then 31 * (m - 1) else 30 * (m - 1) + 6
  {
    assert JMonthStart(3) == 62;
    assert JMonthStart(5) == 124;
    assert JMonthStart(7) == 186;
    assert JMonthStart(9) == 246;
    assert JMonthStart(11) == 306;
  }

  lemma GYearsAbut(y: int)
    ensures GYearStart(y + 1) == GYearStart(y) + GYearLength(y)
    ensures GMonthStart(y, 12) + 31 == GYearLength(y)
  {
    GMonthStarts(y);
  }

  lemma GNextDay(d: Date)
    requires GValid(d)
    ensures GValid(GNext(d)) && GDay(GNext(d)) == GDay(d) + 1
  {
    if d.month == 12 { GYearsAbut(d.year); }
  }

  lemma GPreviousDay(d: Date)
    requires GValid(d)
    ensures GValid(GPrevious(d)) && GDay(GPrevious(d)) == GDay(d) - 1
  {
    var p := GPrevious(d);
    assert d == GNext(p);
    GNextDay(p);
  }

  lemma JNextDay(d: Date)
    requires JValid(d)
    ensures JValid(JNext(d)) && JDay(JNext(d)) == JDay(d) + 1
  {
  }

  lemma JPreviousDay(d: Date)
    requires JValid(d)
    ensures JValid(JPrevious(d)) && JDay(JPrevious(d)) == JDay(d) - 1
  {
    var p := JPrevious(d);
    assert d == JNext(p);
    JNextDay(p);
  }

  /** The date n days after 1 January 1600 (before it when n is negative), reached one day at a time. */
  function GregorianOfDay(n: int): (d: Date)
    ensures GValid(d) && GDay(d) == n
    decreases if n < 0 then -n else n
  {
    if n == 0 then Date(1600, 1, 1)
    else if n > 0 then
      var p := GregorianOfDay(n - 1);
      GNextDay(p);
      GNext(p)
    else
      var p := GregorianOfDay(n + 1);
      GPreviousDay(p);
      GPrevious(p)
  }

  /** The date n days after 1 Farvardin 979, reached one day at a time. */
  function JalaliOfDay(n: int): (d: Date)
    ensures JValid(d) && JDay(d) == n
    decreases if n < 0 then -n else n
  {
    if n == 0 then Date(979, 1, 1)
    else if n > 0 then
      var p := JalaliOfDay(n - 1);
      JNextDay(p);
      JNext(p)
    else
      var p := JalaliOfDay(n + 1);
      JPreviousDay(p);
      JPrevious(p)
  }

  // ------------------------------------------------------------------ order

  lemma {:induction false} GYearsGrow(y: int, z: int)
    requires y < z
    ensures GYearStart(y) + GYearLength(y) <= GYearStart(z)
    decreases z - y
  {
    if y + 1 < z { GYearsGrow(y + 1, z); }
  }

  lemma {:induction false} JYearsGrow(y: int, z: int)
    requires y < z
    ensures JYearStart(y) + JYearLength(y) <= JYearStart(z)
    decreases z - y
  {
    if y + 1 < z { JYearsGrow(y + 1, z); }
  }

  lemma {:induction false} GMonthsGrow(y: int, m: int, n: int)
    requires 1 <= m < n <= 13
    ensures GMonthStart(y, m) + GMonthLength(y, m) <= GMonthStart(y, n)
    decreases n - m
  {
    if m + 1 < n { GMonthsGrow(y, m + 1, n); }
  }

  lemma {:induction false} JMonthsGrow(m: int, n: int)
    requires 1 <= m < n <= 12
    ensures JMonthStart(m) + (if m <= 6 then 31 else 30) <= JMonthStart(n)
    decreases n - m
  {
    if m + 1 < n { JMonthsGrow(m + 1, n); }
  }

  lemma GDayBefore(a: Date, b: Date)
    requires GValid(a) && GValid(b) && a.Before(b)
    ensures GDay(a) < GDay(b)
  {
    if a.year < b.year {
      GYearsGrow(a.year, b.year);
      GMonthsGrow(a.year, a.month, 13);
      GMonthStarts(a.year);
      if b.month > 1 { GMonthsGrow(b.year, 1, b.month); }
    } else if a.month < b.month {
      GMonthsGrow(a.year, a.month, b.month);
    }
  }

  lemma JDayBefore(a: Date, b: Date)
    requires JValid(a) && JValid(b) && a.Before(b)
    ensures JDay(a) < JDay(b)
  {
    JMonthStarts();
    if a.year < b.year {
      JYearsGrow(a.year, b.year);
    } else if a.month < b.month {
      JMonthsGrow(a.month, b.month);
    }
  }

  /** Later dates have larger day numbers, and only later dates do. */
  lemma GDayMonotone(a: Date, b: Date)
    requires GValid(a) && GValid(b)
    ensures a.Before(b) <==> GDay(a) < GDay(b)
    ensures a == b <==> GDay(a) == GDay(b)
  {
    if a.Before(b) { GDayBefore(a, b); }
    if b.Before(a) { GDayBefore(b, a); }
  }

  lemma JDayMonotone(a: Date, b: Date)
    requires JValid(a) && JValid(b)
    ensures a.Before(b) <==> JDay(a) < JDay(b)
    ensures a == b <==> JDay(a) == JDay(b)
  {
    if a.Before(b) { JDayBefore(a, b); }
    if b.Before(a) { JDayBefore(b, a); }
  }
}
