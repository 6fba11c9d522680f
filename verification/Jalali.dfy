/** jalali.py: the two conversions with their cycle arithmetic and month loops, proved to agree with
    the day-by-day calendars of module Calendars on every integer year.

    The Gregorian-to-Jalali conversion is modelled twice.  GregorianToJalali is the code as written:
    it fixes the day before the month loop runs, so every date in the last month (Esfand) comes out
    with its day of the year.  GregorianToJalaliRepaired takes the day after the loop. */
module Jalali {
  import opened Calendars

  const G_DAYS_IN_MONTH := [31, 28, 31, 30, 31, 30, 31, 31, 30, 31, 30, 31]
  const J_DAYS_IN_MONTH := [31, 31, 31, 31, 31, 31, 30, 30, 30, 30, 30, 29]

  /** Days from 1 January 1600 to 1 Farvardin 979. */
  const EPOCH_SHIFT := 79

  /** What the conversion is meant to return: the Jalali name of the same day.  As in the code, the day
      may run past the end of its month. */
  function ToJalali(g: Date): Date
    requires 1 <= g.month <= 12
  {
    JalaliOfDay(GDay(g) - EPOCH_SHIFT)
  }

  /** What the code returns: in month 12 the day of the year stands where the day should be. */
  function ToJalaliAsWritten(g: Date): Date
    requires 1 <= g.month <= 12
  {
    var j := ToJalali(g);
    if j.month < 12 then j else j.(day := JMonthStart(12) + j.day)
  }

  /** The Gregorian name of a Jalali day; the day may run past the end of its month. */
  function ToGregorian(j: Date): Date
    requires 1 <= j.month <= 12
  {
    GregorianOfDay(JDay(j) + EPOCH_SHIFT)
  }

  // ------------------------------------------------------------------ closed forms

  function GClosedForm(y: int): int {
    365 * y + (y + 3) / 4 - (y + 99) / 100 + (y + 399) / 400
  }

  function JClosedForm(y: int): int {
    365 * y + y / 33 * 8 + (y % 33 + 3) / 4
  }

  lemma Remainder(y: int, b: int, q: int, r: int)
    requires b == 4 || b == 100 || b == 400
    requires y == b * q + r && 0 <= r < b
    ensures y % b == r
  {
  }

  /** Rounding y up to a multiple of b moves on exactly when y is itself a multiple. */
  lemma CeilingSteps(y: int)
    ensures (y + 4) / 4 == (y + 3) / 4 + (if y % 4 == 0 then 1 else 0)
    ensures (y + 100) / 100 == (y + 99) / 100 + (if y % 100 == 0 then 1 else 0)
    ensures (y + 400) / 400 == (y + 399) / 400 + (if y % 400 == 0 then 1 else 0)
  {
    assert y == 4 * (y / 4) + y % 4;
    assert y == 100 * (y / 100) + y % 100;
    assert y == 400 * (y / 400) + y % 400;
  }

  /** Moving by 1600 years changes no year's leapness, and the three exceptions nest. */
  lemma GLeapDays(y: int)
    ensures GYearLength(y + 1600)
         == 365 + (if y % 4 == 0 then 1 else 0) - (if y % 100 == 0 then 1 else 0) + (if y % 400 == 0 then 1 else 0)
  {
  }

  lemma GClosedFormStep(y: int)
    ensures GClosedForm(y + 1) == GClosedForm(y) + GYearLength(y + 1600)
  {
    var a, b, c := (y + 3) / 4, (y + 99) / 100, (y + 399) / 400;
    var a', b', c' := (y + 4) / 4, (y + 100) / 100, (y + 400) / 400;
    CeilingSteps(y);
    GLeapDays(y);
    assert GClosedForm(y) == 365 * y + a - b + c;
    assert GClosedForm(y + 1) == 365 * (y + 1) + a' - b' + c' by {
      assert y + 1 + 3 == y + 4 && y + 1 + 99 == y + 100 && y + 1 + 399 == y + 400;
    }
  }

  /** The closed form counts every year before y once, with its leap day if it has one. */
  lemma {:induction false} GClosedFormIsYearStart(y: int)
    ensures GYearStart(y) == GClosedForm(y - 1600)
    decreases if y < 1600 then 1600 - y else y - 1600
  {
    if y > 1600 {
      GClosedFormIsYearStart(y - 1);
      GClosedFormStep(y - 1601);
    } else if y < 1600 {
      GClosedFormIsYearStart(y + 1);
      GClosedFormStep(y - 1600);
    }
  }

  lemma JClosedFormStep(y: int)
    ensures JClosedForm(y + 1) == JClosedForm(y) + JYearLength(y + 979)
  {
    if y % 33 == 32 {
      assert (y + 1) % 33 == 0 && (y + 1) / 33 == y / 33 + 1;
    } else {
      assert (y + 1) % 33 == y % 33 + 1 && (y + 1) / 33 == y / 33;
    }
  }

  lemma {:induction false} JClosedFormIsYearStart(y: int)
    ensures JYearStart(y) == JClosedForm(y - 979)
    decreases if y < 979 then 979 - y else y - 979
  {
    if y > 979 {
      JClosedFormIsYearStart(y - 1);
      JClosedFormStep(y - 980);
    } else if y < 979 {
      JClosedFormIsYearStart(y + 1);
      JClosedFormStep(y - 979);
    }
  }

  // ------------------------------------------------------------------ Gregorian to Jalali

  /** The day number of a Gregorian date, by closed form and month loop (lines 27-36). */
  method GregorianDayNumber(gy: int, gm: int, gd: int) returns (gDayNo: int)
    requires 1 <= gm <= 12
    ensures gDayNo == GDay(Date(gy, gm, gd))
  {
    var gy2, gm2, gd2 := gy - 1600, gm - 1, gd - 1;
    gDayNo := 365 * gy2 + (gy2 + 3) / 4 - (gy2 + 99) / 100 + (gy2 + 399) / 400;
    GClosedFormIsYearStart(gy);
    GMonthStarts(gy);
    for i := 0 to gm2
      invariant gDayNo == GYearStart(gy) + GMonthStart(gy, i + 1) - (if i > 1 && GLeap(gy) then 1 else 0)
    {
      gDayNo := gDayNo + G_DAYS_IN_MONTH[i];
    }
    if gm2 > 1 && ((gy % 4 == 0 && gy % 100 != 0) || gy % 400 == 0) {
      gDayNo := gDayNo + 1;
    }
    gDayNo := gDayNo + gd2;
  }

  /** The Jalali year that holds a day, and the day's place in it (lines 40-48). */
  method JalaliYear(n: int) returns (jy: int, jDayNo: int)
    ensures 0 <= jDayNo < JYearLength(jy)
    ensures JYearStart(jy) + jDayNo == n
  {
    var jNp := n / 12053;
    jDayNo := n % 12053;
    jy := 979 + 33 * jNp + 4 * (jDayNo / 1461);
    ghost var c := jDayNo / 1461;
    jDayNo := jDayNo % 1461;
    ghost var k := 0;
    if jDayNo >= 366 {
      k := (jDayNo - 1) / 365;
      jy := jy + (jDayNo - 1) / 365;
      jDayNo := (jDayNo - 1) % 365;
    }
    JClosedFormIsYearStart(jy);
    assert (jy - 979) == 33 * jNp + (4 * c + k) && 0 <= 4 * c + k < 33;
    assert (jy - 979) / 33 == jNp && (jy - 979) % 33 == 4 * c + k;
    assert (4 * c + k + 3) / 4 == c + (if k > 0 then 1 else 0);
  }

  /** The conversion as written: line 50 takes jd before the loop counts the months off. */
  method GregorianToJalali(gy: int, gm: int, gd: int) returns (jy: int, jm: int, jd: int)
    requires 1 <= gm <= 12
    ensures Date(jy, jm, jd) == ToJalaliAsWritten(Date(gy, gm, gd))
  {
    var gDayNo := GregorianDayNumber(gy, gm, gd);
    var jDayNo := gDayNo - EPOCH_SHIFT;
    jy, jDayNo := JalaliYear(jDayNo);
    ghost var dayOfYear := jDayNo;
    JMonthStarts();
    jm, jd := 12, jDayNo + 1;
    var i := 0;
    while i < 11
      invariant 0 <= i <= 11
      invariant jm == 12 && jd == dayOfYear + 1
      invariant jDayNo == dayOfYear - JMonthStart(i + 1) && jDayNo >= 0
    {
      if jDayNo < J_DAYS_IN_MONTH[i] {
        jm := i + 1;
        jd := jDayNo + 1;
        JDayMonotone(Date(jy, jm, jd), ToJalali(Date(gy, gm, gd)));
        return;
      }
      jDayNo := jDayNo - J_DAYS_IN_MONTH[i];
      i := i + 1;
    }
    JDayMonotone(Date(jy, 12, jDayNo + 1), ToJalali(Date(gy, gm, gd)));
  }

  /** The conversion with jd taken from what the month loop leaves. */
  method GregorianToJalaliRepaired(gy: int, gm: int, gd: int) returns (jy: int, jm: int, jd: int)
    requires 1 <= gm <= 12
    ensures Date(jy, jm, jd) == ToJalali(Date(gy, gm, gd))
  {
    var gDayNo := GregorianDayNumber(gy, gm, gd);
    var jDayNo := gDayNo - EPOCH_SHIFT;
    jy, jDayNo := JalaliYear(jDayNo);
    ghost var dayOfYear := jDayNo;
    JMonthStarts();
    jm := 12;
    var i := 0;
    while i < 11
      invariant 0 <= i <= 11
      invariant jm == 12
      invariant jDayNo == dayOfYear - JMonthStart(i + 1) && jDayNo >= 0
      decreases 11 - i
    {
      if jDayNo < J_DAYS_IN_MONTH[i] {
        jm := i + 1;
        break;
      }
      jDayNo := jDayNo - J_DAYS_IN_MONTH[i];
      i := i + 1;
    }
    jd := jDayNo + 1;
    JDayMonotone(Date(jy, jm, jd), ToJalali(Date(gy, gm, gd)));
  }

  // ------------------------------------------------------------------ Jalali to Gregorian

  /** The 400/100/4/1-year reduction (lines 78-98): it always leaves a day inside the year it names. */
  method GregorianYear(n: int) returns (gy: int, gDayNo: int)
    ensures 0 <= gDayNo < GYearLength(gy)
    ensures GYearStart(gy) + gDayNo == n
  {
    gy := 1600 + 400 * (n / 146097);
    gDayNo := n % 146097;
    ghost var q, c, f, k := n / 146097, 0, 0, 0;
    if gDayNo >= 36525 {
      gDayNo := gDayNo - 1;
      c := gDayNo / 36524;
      gy := gy + 100 * (gDayNo / 36524);
      gDayNo := gDayNo % 36524;
      if gDayNo >= 365 {
        gDayNo := gDayNo + 1;
      }
    }
    assert n == 146097 * q + 36524 * c + gDayNo + (if c > 0 && gDayNo < 365 then 1 else 0);
    assert 0 <= c <= 3 && 0 <= gDayNo <= 36524 && (c > 0 ==> gDayNo != 365);
    f := gDayNo / 1461;
    gy := gy + 4 * (gDayNo / 1461);
    gDayNo := gDayNo % 1461;
    if gDayNo >= 366 {
      gDayNo := gDayNo - 1;
      k := gDayNo / 365;
      gy := gy + gDayNo / 365;
      gDayNo := gDayNo % 365;
    }
    GCycleYear(q, c, f, k);
  }

  /** Position in the 400-year cycle: the number of leap days before it, and whether it is leap. */
  lemma GCycleQuotients(q: int, c: int, f: int, k: int)
    requires 0 <= c <= 3 && 0 <= f <= 24 && 0 <= k <= 3
    ensures var y := 400 * q + 100 * c + 4 * f + k;
            && (y + 3) / 4 == 100 * q + 25 * c + f + (if k > 0 then 1 else 0)
            && (y + 99) / 100 == 4 * q + c + (if f > 0 || k > 0 then 1 else 0)
            && (y + 399) / 400 == q + (if c > 0 || f > 0 || k > 0 then 1 else 0)
  {
  }

  lemma GCycleLeap(q: int, c: int, f: int, k: int)
    requires 0 <= c <= 3 && 0 <= f <= 24 && 0 <= k <= 3
    ensures GLeap(1600 + 400 * q + 100 * c + 4 * f + k) <==> k == 0 && (f > 0 || c == 0)
  {
    var y := 1600 + 400 * q + 100 * c + 4 * f + k;
    Remainder(y, 4, 400 + 100 * q + 25 * c + f, k);
    Remainder(y, 100, 16 + 4 * q + c, 4 * f + k);
    Remainder(y, 400, 4 + q, 100 * c + 4 * f + k);
  }

  lemma GCycleYear(q: int, c: int, f: int, k: int)
    requires 0 <= c <= 3 && 0 <= f <= 24 && 0 <= k <= 3
    ensures var y := 1600 + 400 * q + 100 * c + 4 * f + k;
            && GYearStart(y) == 146097 * q + 36524 * c + 1461 * f + 365 * k + (if k > 0 then 1 else 0)
                                + (if c > 0 && f == 0 && k == 0 then 1 else 0)
            && GYearLength(y) == (if k == 0 && (f > 0 || c == 0) then 366 else 365)
  {
    GCycleQuotients(q, c, f, k);
    GCycleLeap(q, c, f, k);
    GClosedFormIsYearStart(1600 + 400 * q + 100 * c + 4 * f + k);
  }

  /** The day number of a Jalali date, by closed form and month loop (lines 67-74). */
  method JalaliDayNumber(jy: int, jm: int, jd: int) returns (jDayNo: int)
    requires 1 <= jm <= 12
    ensures jDayNo == JDay(Date(jy, jm, jd))
  {
    var jy2, jm2, jd2 := jy - 979, jm - 1, jd - 1;
    jDayNo := 365 * jy2 + jy2 / 33 * 8 + (jy2 % 33 + 3) / 4;
    JClosedFormIsYearStart(jy);
    for i := 0 to jm2
      invariant jDayNo == JYearStart(jy) + JMonthStart(i + 1)
    {
      jDayNo := jDayNo + J_DAYS_IN_MONTH[i];
    }
    jDayNo := jDayNo + jd2;
  }

  /** The month loop (lines 100-108): for a day inside the year it always breaks. */
  method GregorianMonth(gy: int, gDayNo: int) returns (gm: int, gd: int)
    requires 0 <= gDayNo < GYearLength(gy)
    ensures GValid(Date(gy, gm, gd))
    ensures GMonthStart(gy, gm) + gd - 1 == gDayNo
  {
    gm, gd := 1, gDayNo + 1;
    var days := gDayNo;
    var i := 0;
    while i < 12
      invariant 0 <= i <= 12
      invariant days == gDayNo - GMonthStart(gy, i + 1) && days >= 0
    {
      var dim := G_DAYS_IN_MONTH[i]
        + (if i == 1 && ((gy % 4 == 0 && gy % 100 != 0) || gy % 400 == 0) then 1 else 0);
      assert dim == GMonthLength(gy, i + 1);
      if days < dim {
        gm := i + 1;
        gd := days + 1;
        return;
      }
      days := days - dim;
      i := i + 1;
    }
    GMonthStarts(gy);
    assert false;
  }

  /** Any integer year, any month and any day, in or past its month. */
  method JalaliToGregorian(jy: int, jm: int, jd: int) returns (gy: int, gm: int, gd: int)
    requires 1 <= jm <= 12
    ensures Date(gy, gm, gd) == ToGregorian(Date(jy, jm, jd))
    ensures GValid(Date(gy, gm, gd)) && GDay(Date(gy, gm, gd)) == JDay(Date(jy, jm, jd)) + EPOCH_SHIFT
  {
    var jDayNo := JalaliDayNumber(jy, jm, jd);
    var gDayNo := jDayNo + EPOCH_SHIFT;
    gy, gDayNo := GregorianYear(gDayNo);
    gm, gd := GregorianMonth(gy, gDayNo);
    GDayMonotone(Date(gy, gm, gd), ToGregorian(Date(jy, jm, jd)));
  }

  // ------------------------------------------------------------------ theorems

  /** Repaired, the two conversions are inverse to each other on all valid dates. */
  lemma RoundTripRepaired(g: Date, j: Date)
    requires GValid(g) && JValid(j)
    ensures JValid(ToJalali(g)) && ToGregorian(ToJalali(g)) == g
    ensures GValid(ToGregorian(j)) && ToJalali(ToGregorian(j)) == j
  {
    GDayMonotone(ToGregorian(ToJalali(g)), g);
    JDayMonotone(ToJalali(ToGregorian(j)), j);
  }

  /** As written, a round trip loses 336 days exactly for the dates of the last month. */
  lemma RoundTripAsWritten(g: Date)
    requires GValid(g)
    ensures GDay(ToGregorian(ToJalaliAsWritten(g)))
         == GDay(g) + (if ToJalali(g).month == 12 then 336 else 0)
    ensures ToGregorian(ToJalaliAsWritten(g)) == g <==> ToJalali(g).month < 12
  {
    JMonthStarts();
    GDayMonotone(ToGregorian(ToJalaliAsWritten(g)), g);
  }

  /** As written, the result is a Jalali date exactly outside the last month. */
  lemma AsWrittenValidIffNotEsfand(g: Date)
    requires GValid(g)
    ensures JValid(ToJalaliAsWritten(g)) <==> ToJalali(g).month < 12
    ensures ToJalali(g).month == 12 ==> 337 <= ToJalaliAsWritten(g).day <= 366
  {
  }

  /** As written or not, the conversion is injective and keeps the order of dates. */
  lemma AsWrittenKeepsOrder(a: Date, b: Date)
    requires GValid(a) && GValid(b)
    ensures a.Before(b) <==> ToJalaliAsWritten(a).Before(ToJalaliAsWritten(b))
    ensures a == b <==> ToJalaliAsWritten(a) == ToJalaliAsWritten(b)
  {
    GDayMonotone(a, b);
    JDayMonotone(ToJalali(a), ToJalali(b));
  }

  /** The two reductions run back to back give the date they started from. */
  method RepairedThereAndBack(gy: int, gm: int, gd: int) returns (y: int, m: int, d: int)
    requires GValid(Date(gy, gm, gd))
    ensures y == gy && m == gm && d == gd
  {
    var jy, jm, jd := GregorianToJalaliRepaired(gy, gm, gd);
    y, m, d := JalaliToGregorian(jy, jm, jd);
    RoundTripRepaired(Date(gy, gm, gd), Date(jy, jm, jd));
  }

  /** The last day of Jalali 978, 29 Esfand, comes out of the code as written as day 365 of month 12. */
  /** Days both calendars are known to share: new year's days around the centuries and the leap days, and
      22 Bahman 1357. */
  lemma KnownDays()
    ensures JDay(Date(1079, 1, 1)) + 79 == GDay(Date(1700, 3, 21))
    ensures JDay(Date(1279, 1, 1)) + 79 == GDay(Date(1900, 3, 21))
    ensures JDay(Date(1357, 11, 22)) + 79 == GDay(Date(1979, 2, 11))
    ensures JDay(Date(1379, 1, 1)) + 79 == GDay(Date(2000, 3, 20))
    ensures JDay(Date(1400, 1, 1)) + 79 == GDay(Date(2021, 3, 21))
    ensures JDay(Date(1403, 1, 1)) + 79 == GDay(Date(2024, 3, 20))
    ensures JDay(Date(1404, 1, 1)) + 79 == GDay(Date(2025, 3, 21))
  {
    hide GDay, JDay;
    InMarch(1700, 21);
    InMarch(1900, 21);
    InMarch(2000, 20);
    InMarch(2021, 21);
    InMarch(2024, 20);
    InMarch(2025, 21);
    NewYear(1079);
    NewYear(1279);
    NewYear(1379);
    NewYear(1400);
    NewYear(1403);
    NewYear(1404);
    TwentySecondOfBahman();
  }

  lemma InMarch(y: int, d: int)
    ensures GDay(Date(y, 3, d)) == GClosedForm(y - 1600) + 58 + d + (if GLeap(y) then 1 else 0)
  {
    hide GYearStart, GMonthStart;
    GClosedFormIsYearStart(y);
    GMonthStarts(y);
  }

  lemma NewYear(y: int)
    ensures JDay(Date(y, 1, 1)) == JClosedForm(y - 979)
  {
    hide JYearStart, JMonthStart;
    JClosedFormIsYearStart(y);
    JMonthStarts();
  }

  lemma TwentySecondOfBahman()
    ensures JDay(Date(1357, 11, 22)) + 79 == GDay(Date(1979, 2, 11))
  {
    hide JYearStart, JMonthStart, GYearStart, GMonthStart;
    GClosedFormIsYearStart(1979);
    GMonthStarts(1979);
    JClosedFormIsYearStart(1357);
    JMonthStarts();
  }

  lemma EsfandExample()
    ensures var g := Date(1600, 3, 19);
            GValid(g) && ToJalali(g) == Date(978, 12, 29) && ToJalaliAsWritten(g) == Date(978, 12, 365)
  {
    var g := Date(1600, 3, 19);
    GMonthStarts(1600);
    JMonthStarts();
    JDayMonotone(ToJalali(g), Date(978, 12, 29));
  }
}
