/**
 * Days as text: `YYYY-MM-DD`, its reading and its order (api/score.ts, api/board.ts), and which
 * days a submission may be filed under.
 */
module DayText {
  import opened Calendar
  import opened Text

  const DASH: Unit := '-' as int

  function Power(k: nat): (p: nat)
    ensures p > 0
  {
    if k == 0 then 1 else 10 * Power(k - 1)
  }

  /** The numeral of `n` in exactly `k` digits. */
  function Digits(n: nat, k: nat): (s: Str)
    requires n < Power(k)
    ensures |s| == k && forall u :: u in s ==> IsDigit(u)
  {
    if k == 0 then [] else Digits(n / 10, k - 1) + ['0' as int + n % 10]
  }

  predicate AllDigits(s: Str) {
    forall u :: u in s ==> IsDigit(u)
  }

  lemma {:induction false} DigitsValue(n: nat, k: nat)
    requires n < Power(k)
    ensures DecimalValue(Digits(n, k)) == n
  {
    if k > 0 {
      DigitsValue(n / 10, k - 1);
      assert Digits(n, k)[..k - 1] == Digits(n / 10, k - 1);
    }
  }

  lemma {:induction false} ValueDigits(s: Str)
    requires AllDigits(s)
    ensures DecimalValue(s) < Power(|s|) && Digits(DecimalValue(s), |s|) == s
  {
    if s != [] {
      var front, last := s[..|s| - 1], s[|s| - 1];
      assert last in s && IsDigit(last);
      ValueDigits(front);
      LastDigit(DecimalValue(front), last - '0' as int);
      assert s == front + [last];
    }
  }

  lemma LastDigit(n: nat, d: int)
    requires 0 <= d < 10
    ensures (n * 10 + d) / 10 == n && (n * 10 + d) % 10 == d
  {
  }

  /** `YYYY-MM-DD`. */
  function Format(c: Date): (s: Str)
    requires 0 <= c.y < 10000 && 0 <= c.m < 100 && 0 <= c.d < 100
    ensures |s| == 10
  {
    PowersOfTen();
    Digits(c.y, 4) + [DASH] + Digits(c.m, 2) + [DASH] + Digits(c.d, 2)
  }

  lemma PowersOfTen()
    ensures Power(2) == 100 && Power(4) == 10000
  {
    assert Power(1) == 10;
    assert Power(3) == 1000;
  }

  /** The pattern of four, two and two digits. */
  predicate Matches(s: Str) {
    |s| == 10 && s[4] == DASH && s[7] == DASH && AllDigits(s[..4]) && AllDigits(s[5..7]) && AllDigits(s[8..])
  }

  function Parse(s: Str): (c: Option<Date>) {
    if Matches(s) then Some(Date(DecimalValue(s[..4]), DecimalValue(s[5..7]), DecimalValue(s[8..]))) else None
  }

  lemma ParseRange(s: Str)
    requires Matches(s)
    ensures var c := Parse(s).value;
      0 <= c.y < 10000 && 0 <= c.m < 100 && 0 <= c.d < 100 && Format(c) == s
  {
    PowersOfTen();
    ValueDigits(s[..4]);
    ValueDigits(s[5..7]);
    ValueDigits(s[8..]);
    Reassemble(s);
  }

  lemma Reassemble(s: Str)
    requires |s| == 10
    ensures s[..4] + [s[4]] + s[5..7] + [s[7]] + s[8..] == s
  {
  }

  lemma FormatParses(c: Date)
    requires 0 <= c.y < 10000 && 0 <= c.m < 100 && 0 <= c.d < 100
    ensures Parse(Format(c)) == Some(c)
  {
    PowersOfTen();
    Parts(Digits(c.y, 4), Digits(c.m, 2), Digits(c.d, 2));
    DigitsValue(c.y, 4);
    DigitsValue(c.m, 2);
    DigitsValue(c.d, 2);
  }

  lemma Parts(a: Str, b: Str, c: Str)
    requires |a| == 4 && |b| == 2 && |c| == 2
    ensures var s := a + [DASH] + b + [DASH] + c;
      s[..4] == a && s[4] == DASH && s[5..7] == b && s[7] == DASH && s[8..] == c
  {
  }

  /* -------------------------------------------------------------------- order */

  /** `<` on strings of equal length. */
  predicate TextLess(a: Str, b: Str)
    requires |a| == |b|
  {
    a != [] && (a[0] < b[0] || (a[0] == b[0] && TextLess(a[1..], b[1..])))
  }

  lemma {:induction false} TextLessConcat(a: Str, b: Str, c: Str, d: Str)
    requires |a| == |b| && |c| == |d|
    ensures TextLess(a + c, b + d) <==> TextLess(a, b) || (a == b && TextLess(c, d))
    decreases |a|
  {
    if a == [] {
      assert a + c == c && b + d == d;
    } else {
      TextLessConcat(a[1..], b[1..], c, d);
      assert (a + c)[1..] == a[1..] + c && (b + d)[1..] == b[1..] + d;
      if a[0] == b[0] && a[1..] == b[1..] {
        assert a == [a[0]] + a[1..] && b == [b[0]] + b[1..];
      }
    }
  }

  lemma {:induction false} DigitsOrder(n: nat, m: nat, k: nat)
    requires n < Power(k) && m < Power(k)
    ensures TextLess(Digits(n, k), Digits(m, k)) <==> n < m
    ensures Digits(n, k) == Digits(m, k) <==> n == m
  {
    if k > 0 {
      DigitsOrder(n / 10, m / 10, k - 1);
      var x: Unit, y: Unit := '0' as int + n % 10, '0' as int + m % 10;
      TextLessConcat(Digits(n / 10, k - 1), Digits(m / 10, k - 1), [x], [y]);
      assert TextLess([x], [y]) <==> x < y;
      DigitsValue(n, k);
      DigitsValue(m, k);
    }
  }

  /** Written dates are ordered as text exactly as they are in time, year first. */
  lemma FormatOrder(a: Date, b: Date)
    requires 0 <= a.y < 10000 && 0 <= a.m < 100 && 0 <= a.d < 100
    requires 0 <= b.y < 10000 && 0 <= b.m < 100 && 0 <= b.d < 100
    ensures TextLess(Format(a), Format(b)) <==> Earlier(a, b)
  {
    PowersOfTen();
    var ay, am, ad := Digits(a.y, 4), Digits(a.m, 2), Digits(a.d, 2);
    var zy, zm, zd := Digits(b.y, 4), Digits(b.m, 2), Digits(b.d, 2);
    DigitsOrder(a.y, b.y, 4);
    DigitsOrder(a.m, b.m, 2);
    DigitsOrder(a.d, b.d, 2);
    Dashed(ay, am, zy, zm);
    SameFields(ay, am, zy, zm);
    LastField(ay + [DASH] + am, ad, zy + [DASH] + zm, zd, Format(a), Format(b));
  }

  lemma {:induction false} LastField(a: Str, c: Str, b: Str, d: Str, s: Str, t: Str)
    requires |a| == |b| && |c| == |d| && s == a + [DASH] + c && t == b + [DASH] + d
    ensures |s| == |t| && (TextLess(s, t) <==> TextLess(a, b) || (a == b && TextLess(c, d)))
  {
    Dashed(a, c, b, d);
  }

  lemma {:induction false} Dashed(a: Str, c: Str, b: Str, d: Str)
    requires |a| == |b| && |c| == |d|
    ensures TextLess(a + [DASH] + c, b + [DASH] + d) <==> TextLess(a, b) || (a == b && TextLess(c, d))
  {
    Regroup(a, [DASH], c);
    Regroup(b, [DASH], d);
    TextLessConcat(a, b, [DASH] + c, [DASH] + d);
    DashSkips(c, d);
  }

  lemma {:induction false} DashSkips(c: Str, d: Str)
    requires |c| == |d|
    ensures TextLess([DASH] + c, [DASH] + d) <==> TextLess(c, d)
    ensures [DASH] + c == [DASH] + d <==> c == d
  {
    assert ([DASH] + c)[1..] == c && ([DASH] + d)[1..] == d;
  }

  lemma SameFields(a: Str, c: Str, b: Str, d: Str)
    requires |a| == |b|
    ensures a + [DASH] + c == b + [DASH] + d <==> a == b && c == d
  {
    if a + [DASH] + c == b + [DASH] + d {
      assert a == (a + [DASH] + c)[..|a|] && b == (b + [DASH] + d)[..|a|];
      assert c == (a + [DASH] + c)[|a| + 1..] && d == (b + [DASH] + d)[|a| + 1..];
    }
  }

  /* ---------------------------------------------------- calendar days as text */

  /** A calendar day, written out. Years of four digits from 100 on. */
  predicate IsDay(s: Str) {
    Matches(s) && Real(Parse(s).value) && Parse(s).value.y >= 100
  }

  function DayNumber(s: Str): (n: int)
    requires IsDay(s)
  {
    DayOf(Parse(s).value)
  }

  /** Comparing two written days compares their day numbers. */
  lemma {:induction false} TextOrderIsDayOrder(a: Str, b: Str)
    requires IsDay(a) && IsDay(b)
    ensures TextLess(a, b) <==> DayNumber(a) < DayNumber(b)
    ensures a == b <==> DayNumber(a) == DayNumber(b)
  {
    ParseRange(a);
    ParseRange(b);
    FormatOrder(Parse(a).value, Parse(b).value);
    EarlierExactly(Parse(a).value, Parse(b).value);
    EarlierExactly(Parse(b).value, Parse(a).value);
  }

  /* ---------------------------------------------------------- resolving a day */

  function WrittenDay(c: Date): (n: int) {
    UtcDay(c.y, c.m - 1, c.d)
  }

  function ParseDay(s: Str): (n: Option<int>) {
    match Parse(s)
    case None => None
    case Some(c) => Some(WrittenDay(c))
  }

  function Distance(a: int, b: int): (n: int) { if a < b then b - a else a - b }

  /** How many days two days lie apart. */
  lemma DistanceLaw(a: int, b: int)
    ensures Distance(a, b) == Distance(b, a) && (a <= b ==> Distance(a, b) == b - a)
  {
  }

  /** The day a row is filed under, from what the client sent (already cut and cleaned) and the server's today. */
  function ResolveDay(raw: Str, today: Str): (day: Str) {
    match Parse(raw)
    case None => today
    case Some(c) =>
      if !Reads(c) then today
      else
        var apart := if ParseDay(today).None? then 0 else Distance(WrittenDay(c), ParseDay(today).value);
        if apart <= 2 then raw else today
  }

  /**
   * The client's day is taken exactly when it is a real calendar day within two days of today;
   * today is taken otherwise.
   */
  lemma ResolvesExactly(raw: Str, today: Str)
    requires IsDay(today)
    ensures ResolveDay(raw, today) ==
            if IsDay(raw) && Distance(DayNumber(raw), DayNumber(today)) <= 2 then raw else today
  {
    ParseRange(today);
    WrittenIsDay(Parse(today).value);
    if Matches(raw) {
      ParseRange(raw);
      ReadsExactly(Parse(raw).value);
      if Parse(raw).value.y >= 100 {
        WrittenIsDay(Parse(raw).value);
      }
    }
  }

  lemma WrittenIsDay(c: Date)
    requires c.y >= 100
    ensures WrittenDay(c) == DayOf(c)
  {
  }

  /** Whatever was sent, the row is filed under a real day at most two days from today. */
  lemma ResolvedIsNear(raw: Str, today: Str)
    requires IsDay(today)
    ensures var day := ResolveDay(raw, today);
      IsDay(day) && Distance(DayNumber(day), DayNumber(today)) <= 2
  {
    ResolvesExactly(raw, today);
  }

  /* ------------------------------------------------------------- the week scope */

  lemma SixEarlier(c: Date)
    ensures MakeDay(c.y, c.m - 1, c.d - 6) == DayOf(c) - 6
  {
  }

  lemma EarlyYear(c: Date, n: int)
    requires Real(c) && 1970 <= c.y < 10000 && n == DayOf(c) - 6
    ensures 1969 <= YearOf(n) < 10000
  {
    DayOfReal(c);
    YearLength(c.y);
    YearsAscend(1970, c.y);
    YearLength(1969);
    YearAtLeast(n, 1969);
    if YearOf(n) >= 10000 {
      YearsAscend(c.y + 1, YearOf(n));
    }
  }

  lemma FormatIsDay(r: Date)
    requires Real(r) && 100 <= r.y < 10000 && 0 <= r.m < 100 && 0 <= r.d < 100
    ensures IsDay(Format(r)) && DayNumber(Format(r)) == DayOf(r)
  {
    FormatParses(r);
    PowersOfTen();
    Parts(Digits(r.y, 4), Digits(r.m, 2), Digits(r.d, 2));
  }

  /** The date of a day number, as `toISOString` writes it. */
  function Written(n: int): (s: Str)
    requires 1969 <= YearOf(n) < 10000
    ensures IsDay(s) && DayNumber(s) == n
  {
    ReadsReal(n);
    FormatIsDay(FromDay(n));
    Format(FromDay(n))
  }

  /** Today less six days: the day of the month may fall below 1. */
  function SixDaysBefore(c: Date): (n: int)
    requires Real(c) && 1970 <= c.y < 10000
    ensures n == DayOf(c) - 6 && 1969 <= YearOf(n) < 10000
  {
    SixEarlier(c);
    EarlyYear(c, DayOf(c) - 6);
    MakeDay(c.y, c.m - 1, c.d - 6)
  }

  function WeekStart(today: Str): (day: Str)
    requires IsDay(today) && Parse(today).value.y >= 1970
    ensures IsDay(day) && DayNumber(day) == DayNumber(today) - 6
  {
    ParseRange(today);
    Written(SixDaysBefore(Parse(today).value))
  }

  predicate InWeek(day: Str, today: Str)
    requires IsDay(today) && Parse(today).value.y >= 1970 && |day| == 10
  {
    !TextLess(day, WeekStart(today)) && !TextLess(today, day)
  }

  /** The week scope holds exactly the seven days that end today. */
  lemma WeekIsSevenDays(day: Str, today: Str)
    requires IsDay(day) && IsDay(today) && Parse(today).value.y >= 1970
    ensures InWeek(day, today) <==> DayNumber(today) - 6 <= DayNumber(day) <= DayNumber(today)
  {
    TextOrderIsDayOrder(day, WeekStart(today));
    TextOrderIsDayOrder(today, day);
  }
}
