/**
 * Day numbers and dates as JavaScript computes them (section 21.4.1 of ECMA-262), and the civil
 * calendar they stand for.
 */
module Calendar {

  /** A year, a month from 1 to 12 and a day of the month, or any numbers written like them. */
  datatype Date = Date(y: int, m: int, d: int)

  predicate Leap(y: int) {
    y % 4 == 0 && (y % 100 != 0 || y % 400 == 0)
  }

  function LeapDay(y: int): (n: int) { if Leap(y) then 1 else 0 }

  function DaysInMonth(y: int, m: int): (n: int) {
    if m == 2 then 28 + LeapDay(y) else if m in {4, 6, 9, 11} then 30 else 31
  }

  /** A day of the civil calendar. */
  predicate Real(c: Date) {
    1 <= c.m <= 12 && 1 <= c.d <= DaysInMonth(c.y, c.m)
  }

  /** The day after, counted on the calendar. */
  function Tomorrow(c: Date): (n: Date) {
    if c.d < DaysInMonth(c.y, c.m) then Date(c.y, c.m, c.d + 1)
    else if c.m < 12 then Date(c.y, c.m + 1, 1)
    else Date(c.y + 1, 1, 1)
  }

  /* ------------------------------------------------ the standard's day numbers */

  function DayFromYear(y: int): (n: int) {
    365 * (y - 1970) + (y - 1969) / 4 - (y - 1901) / 100 + (y - 1601) / 400
  }

  /** Days of the year before month `mn`, counted from 0. */
  function MonthStart(mn: int, leap: int): (n: int)
    requires 0 <= mn <= 12
  {
    if mn == 0 then 0 else if mn == 1 then 31 else if mn == 2 then 59 + leap else if mn == 3 then 90 + leap
    else if mn == 4 then 120 + leap else if mn == 5 then 151 + leap else if mn == 6 then 181 + leap
    else if mn == 7 then 212 + leap else if mn == 8 then 243 + leap else if mn == 9 then 273 + leap
    else if mn == 10 then 304 + leap else if mn == 11 then 334 + leap else 365 + leap
  }

  /** MakeDay: months outside the year roll over, and so do days. */
  function MakeDay(y: int, month: int, date: int): (n: int) {
    DayFromYear(y + month / 12) + MonthStart(month % 12, LeapDay(y + month / 12)) + date - 1
  }

  /** Date.UTC, in days: years of two digits mean the twentieth century. */
  function UtcDay(y: int, month: int, date: int): (n: int) {
    MakeDay(if 0 <= y <= 99 then 1900 + y else y, month, date)
  }

  /** The largest year from `y` on that starts by day `n`. */
  function YearFrom(n: int, y: int): (r: int)
    requires DayFromYear(y) <= n
    ensures DayFromYear(r) <= n < DayFromYear(r + 1)
    decreases n - DayFromYear(y)
  {
    YearLength(y);
    if DayFromYear(y + 1) <= n then YearFrom(n, y + 1) else y
  }

  function YearOf(n: int): (y: int)
    ensures DayFromYear(y) <= n < DayFromYear(y + 1)
  {
    var start := 1970 + if n >= 0 then n / 366 else n / 365;
    EarlyEnough(n, start);
    YearFrom(n, start)
  }

  function DayInYear(n: int): (k: int)
    ensures 0 <= k < 365 + LeapDay(YearOf(n))
  {
    YearLength(YearOf(n));
    n - DayFromYear(YearOf(n))
  }

  /** The month, from 0, that holds day `k` of a year. */
  function MonthHolding(k: int, leap: int): (mn: int)
    requires 0 <= leap <= 1 && 0 <= k < 365 + leap
    ensures 0 <= mn < 12 && MonthStart(mn, leap) <= k < MonthStart(mn + 1, leap)
  {
    if k < 31 then 0 else if k < 59 + leap then 1 else if k < 90 + leap then 2 else if k < 120 + leap then 3
    else if k < 151 + leap then 4 else if k < 181 + leap then 5 else if k < 212 + leap then 6
    else if k < 243 + leap then 7 else if k < 273 + leap then 8 else if k < 304 + leap then 9
    else if k < 334 + leap then 10 else 11
  }

  function MonthOf(n: int): (mn: int)
    ensures 0 <= mn < 12
  {
    MonthHolding(DayInYear(n), LeapDay(YearOf(n)))
  }

  function DateOf(n: int): (d: int) {
    DayInYear(n) - MonthStart(MonthOf(n), LeapDay(YearOf(n))) + 1
  }

  /** The date a day number reads as. */
  function FromDay(n: int): (c: Date) {
    Date(YearOf(n), MonthOf(n) + 1, DateOf(n))
  }

  function DayOf(c: Date): (n: int) {
    MakeDay(c.y, c.m - 1, c.d)
  }

  /* -------------------------------------------------------------------- years */

  lemma YearLength(y: int)
    ensures DayFromYear(y + 1) == DayFromYear(y) + 365 + LeapDay(y)
  {
    CenturyStep(y, 4, 1969);
    CenturyStep(y, 100, 1901);
    CenturyStep(y, 400, 1601);
    LeapCount(y);
  }

  /** Leap days are the multiples of 4, less those of 100, and those of 400 again. */
  lemma LeapCount(y: int)
    ensures LeapDay(y)
         == (if y % 4 == 0 then 1 else 0) - (if y % 100 == 0 then 1 else 0) + if y % 400 == 0 then 1 else 0
  {
  }

  /** Counting multiples: the quotient grows exactly at multiples. */
  lemma CenturyStep(y: int, k: int, from: int)
    requires (k == 4 && from == 1969) || (k == 100 && from == 1901) || (k == 400 && from == 1601)
    ensures (y + 1 - from) / k == (y - from) / k + if y % k == 0 then 1 else 0
  {
  }

  lemma {:induction false} YearsAscend(a: int, b: int)
    requires a <= b
    ensures DayFromYear(a) + 365 * (b - a) <= DayFromYear(b)
    decreases b - a
  {
    if a < b {
      YearsAscend(a, b - 1);
      YearLength(b - 1);
    }
  }

  lemma EarlyEnough(n: int, start: int)
    requires start == 1970 + if n >= 0 then n / 366 else n / 365
    ensures DayFromYear(start) <= n
  {
    var k := start - 1970;
    if n >= 0 {
      LeapDaysBound(k);
    } else {
      LeapDaysBefore(k);
    }
  }

  lemma LeapDaysBound(k: int)
    requires k >= 0
    ensures DayFromYear(1970 + k) <= 366 * k
  {
  }

  lemma LeapDaysBefore(k: int)
    requires k <= 0
    ensures DayFromYear(1970 + k) <= 365 * k
  {
  }

  /** A day belongs to one year only. */
  lemma YearIsUnique(n: int, y: int)
    requires DayFromYear(y) <= n < DayFromYear(y + 1)
    ensures YearOf(n) == y
  {
    var r := YearOf(n);
    if r < y {
      YearsAscend(r + 1, y);
    } else if y < r {
      YearsAscend(y + 1, r);
    }
  }

  /* ------------------------------------------------------------- the round trip */

  lemma MonthLength(y: int, m: int)
    requires 1 <= m <= 12
    ensures MonthStart(m, LeapDay(y)) == MonthStart(m - 1, LeapDay(y)) + DaysInMonth(y, m)
    ensures 0 <= MonthStart(m - 1, LeapDay(y)) && MonthStart(m, LeapDay(y)) <= 365 + LeapDay(y)
  {
  }

  lemma MonthIsUnique(k: int, leap: int, mn: int)
    requires 0 <= leap <= 1 && 0 <= k < 365 + leap && 0 <= mn < 12
    requires MonthStart(mn, leap) <= k < MonthStart(mn + 1, leap)
    ensures MonthHolding(k, leap) == mn
  {
  }

  /** A real date's day is its place in its year. */
  lemma DayOfReal(c: Date)
    requires Real(c)
    ensures DayOf(c) == DayFromYear(c.y) + MonthStart(c.m - 1, LeapDay(c.y)) + c.d - 1
    ensures DayFromYear(c.y) <= DayOf(c) < DayFromYear(c.y) + 365 + LeapDay(c.y)
  {
    MonthLength(c.y, c.m);
    assert (c.m - 1) / 12 == 0 && (c.m - 1) % 12 == c.m - 1;
  }

  /** A real date reads back as itself. */
  lemma ReadsBack(c: Date)
    requires Real(c)
    ensures FromDay(DayOf(c)) == c
  {
    var n := DayOf(c);
    DayOfReal(c);
    YearLength(c.y);
    YearIsUnique(n, c.y);
    ReadsBackInYear(c, n);
  }

  lemma ReadsBackInYear(c: Date, n: int)
    requires Real(c) && YearOf(n) == c.y
    requires n == DayFromYear(c.y) + MonthStart(c.m - 1, LeapDay(c.y)) + c.d - 1
    ensures FromDay(n) == c
  {
    MonthLength(c.y, c.m);
    MonthIsUnique(DayInYear(n), LeapDay(c.y), c.m - 1);
  }

  /** Every day number reads as a real date. */
  lemma ReadsReal(n: int)
    ensures Real(FromDay(n))
    ensures DayOf(FromDay(n)) == n
  {
    var c := FromDay(n);
    MonthLength(c.y, c.m);
    assert (c.m - 1) / 12 == 0 && (c.m - 1) % 12 == c.m - 1;
  }

  /** A date reads back as itself exactly when it is real: an impossible one rolls over to another. */
  lemma ReadsBackExactly(c: Date)
    ensures FromDay(DayOf(c)) == c <==> Real(c)
  {
    if Real(c) {
      ReadsBack(c);
    }
    ReadsReal(DayOf(c));
  }

  /** Day numbers count the days of the calendar. */
  lemma TomorrowIsTheNextDay(c: Date)
    requires Real(c)
    ensures Real(Tomorrow(c)) && DayOf(Tomorrow(c)) == DayOf(c) + 1
  {
    TomorrowIsReal(c);
    DayOfReal(c);
    DayOfReal(Tomorrow(c));
    NextYear(c, Tomorrow(c).y);
    NextPlace(c, DayFromYear(c.y), DayFromYear(Tomorrow(c).y));
  }

  /** Days are counted from the first of January 1970. */
  lemma EpochLaw(c: Date)
    requires Real(c) && c.y == 1970 && c.m == 1 && c.d == 1
    ensures DayOf(c) == 0
  {
    DayOfReal(c);
    YearOfEpoch(c.y);
  }

  lemma YearOfEpoch(y: int)
    requires y == 1970
    ensures DayFromYear(y) == 0
  {
    assert (y - 1969) / 4 == 0 && (y - 1901) / 100 == 0 && (y - 1601) / 400 == 0;
  }

  lemma NextYear(c: Date, y: int)
    requires y == c.y || y == c.y + 1
    ensures DayFromYear(y) == if y == c.y then DayFromYear(c.y) else DayFromYear(c.y) + 365 + LeapDay(c.y)
  {
    YearLength(c.y);
  }

  lemma TomorrowIsReal(c: Date)
    requires Real(c)
    ensures Real(Tomorrow(c))
  {
  }

  /**
   * Places in the year follow each other across months and years; `start` and `next` are the starts
   * of the two years.
   */
  lemma NextPlace(c: Date, start: int, next: int)
    requires Real(c) && next == if Tomorrow(c).y == c.y then start else start + 365 + LeapDay(c.y)
    ensures var n := Tomorrow(c);
      next + MonthStart(n.m - 1, LeapDay(n.y)) + n.d - 1 == start + MonthStart(c.m - 1, LeapDay(c.y)) + c.d - 1 + 1
  {
    MonthLength(c.y, c.m);
  }

  /** Written with two-digit years, Date.UTC lands in another century. */
  lemma TwoDigitYearsMoveAway(y: int, month: int, date: int)
    requires 0 <= y <= 99 && -1 <= month && 0 <= date
    ensures YearOf(UtcDay(y, month, date)) >= 1898
  {
    var n := UtcDay(y, month, date);
    var ym := 1900 + y + month / 12;
    YearsAscend(1899, ym);
    LateEnough(n, ym, MonthStart(month % 12, LeapDay(ym)) + date - 1);
    YearAtLeast(n, 1898);
  }

  lemma LateEnough(n: int, ym: int, rest: int)
    requires n == DayFromYear(ym) + rest && rest >= -1 && DayFromYear(1899) <= DayFromYear(ym)
    ensures DayFromYear(1898) <= n
  {
  }

  lemma YearAtLeast(n: int, y: int)
    requires DayFromYear(y) <= n
    ensures YearOf(n) >= y
  {
    if YearOf(n) < y {
      YearsAscend(YearOf(n) + 1, y);
    }
  }

  /** What the day check of the server accepts: a date whose Date.UTC reads back as written. */
  predicate Reads(c: Date) {
    FromDay(UtcDay(c.y, c.m - 1, c.d)) == c
  }

  lemma ReadsExactly(c: Date)
    requires c.y >= 0 && c.m >= 0 && c.d >= 0
    ensures Reads(c) <==> Real(c) && c.y >= 100
  {
    if c.y <= 99 {
      TwoDigitYearsMoveAway(c.y, c.m - 1, c.d);
    } else {
      ReadsBackExactly(c);
    }
  }

  /* ---------------------------------------------------------------------- order */

  /** Year first, then month, then day. */
  predicate Earlier(a: Date, b: Date) {
    a.y < b.y || (a.y == b.y && (a.m < b.m || (a.m == b.m && a.d < b.d)))
  }

  lemma {:induction false} MonthsAscend(leap: int, a: int, b: int)
    requires 0 <= leap <= 1 && 0 <= a <= b <= 12
    ensures MonthStart(a, leap) <= MonthStart(b, leap)
    decreases b - a
  {
  }

  /** An earlier date has the smaller day number. */
  lemma EarlierIsLess(a: Date, b: Date)
    requires Real(a) && Real(b) && Earlier(a, b)
    ensures DayOf(a) < DayOf(b)
  {
    DayOfReal(a);
    DayOfReal(b);
    if a.y < b.y {
      YearEndsBefore(a.y, b.y);
    } else {
      EarlierInYear(a, b, DayFromYear(a.y));
    }
  }

  lemma YearEndsBefore(a: int, b: int)
    requires a < b
    ensures DayFromYear(a) + 365 + LeapDay(a) <= DayFromYear(b)
  {
    YearLength(a);
    YearsAscend(a + 1, b);
  }

  lemma EarlierInYear(a: Date, b: Date, start: int)
    requires Real(a) && Real(b) && Earlier(a, b) && a.y == b.y
    ensures start + MonthStart(a.m - 1, LeapDay(a.y)) + a.d < start + MonthStart(b.m - 1, LeapDay(b.y)) + b.d
  {
    MonthLength(a.y, a.m);
    if a.m < b.m {
      MonthsAscend(LeapDay(a.y), a.m, b.m - 1);
    }
  }

  lemma EarlierExactly(a: Date, b: Date)
    requires Real(a) && Real(b)
    ensures Earlier(a, b) <==> DayOf(a) < DayOf(b)
  {
    if Earlier(a, b) {
      EarlierIsLess(a, b);
    } else if a != b {
      EarlierIsLess(b, a);
    }
  }
}
