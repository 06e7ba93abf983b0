// `YYYY-MM-DD` strings as day numbers, on the Gregorian day count of section 21.4.1 of ECMA-262:
// string order is date order, adding days is adding, and enumerating a span visits each date once.

module CalendarDates {
  import opened Basics
  import opened Tables
  import Leave

  datatype Ymd = Ymd(y: int, m: int, d: int)

  predicate Divides(k: int, y: int)
    requires k > 0
  {
    y % k == 0
  }

  /** The floored quotient. */
  function Quotient(a: int, k: int): int
    requires k > 0
  {
    a / k
  }

  predicate Leap(y: int) {
    Divides(4, y) && (!Divides(100, y) || Divides(400, y))
  }

  function DaysInMonth(y: int, m: int): (n: int)
    ensures 28 <= n <= 31
  {
    if m == 2 then (if Leap(y) then 29 else 28)
    else if m == 4 || m == 6 || m == 9 || m == 11 then 30 else 31
  }

  predicate Valid(x: Ymd) {
    1 <= x.m <= 12 && 1 <= x.d <= DaysInMonth(x.y, x.m)
  }

  /** Day number of the first of January: floored quotients count the leap days. */
  function YearStart(y: int): int {
    365 * (y - 1970) + Quotient(y - 1969, 4) - Quotient(y - 1901, 100) + Quotient(y - 1601, 400)
  }

  /** Days of the year before the first of the month. */
  function MonthStart(y: int, m: int): int
    decreases m
  {
    if m <= 1 then 0 else MonthStart(y, m - 1) + DaysInMonth(y, m - 1)
  }

  function ToDay(x: Ymd): Date {
    YearStart(x.y) + MonthStart(x.y, x.m) + x.d - 1
  }

  lemma YearLength(y: int)
    ensures YearStart(y + 1) - YearStart(y) == if Leap(y) then 366 else 365
  {
    hide Quotient, Divides;
    QuotientStep(y - 1969, 4);
    QuotientStep(y - 1901, 100);
    QuotientStep(y - 1601, 400);
    Shifted(y);
  }

  /** A floored quotient grows by one exactly at the multiples. */
  lemma QuotientStep(a: int, k: int)
    requires k == 4 || k == 100 || k == 400
    ensures Quotient(a + 1, k) == Quotient(a, k) + if Divides(k, a + 1) then 1 else 0
  {
  }

  lemma Shifted(y: int)
    ensures Divides(4, y - 1968) <==> Divides(4, y)
    ensures Divides(100, y - 1900) <==> Divides(100, y)
    ensures Divides(400, y - 1600) <==> Divides(400, y)
    ensures Divides(400, y) ==> Divides(100, y)
    ensures Divides(100, y) ==> Divides(4, y)
  {
  }

  lemma TwelveMonths(y: int)
    ensures MonthStart(y, 13) == if Leap(y) then 366 else 365
  {
    assert MonthStart(y, 3) == DaysInMonth(y, 1) + DaysInMonth(y, 2);
    assert MonthStart(y, 6) == MonthStart(y, 3) + DaysInMonth(y, 3) + DaysInMonth(y, 4) + DaysInMonth(y, 5);
    assert MonthStart(y, 9) == MonthStart(y, 6) + DaysInMonth(y, 6) + DaysInMonth(y, 7) + DaysInMonth(y, 8);
    assert MonthStart(y, 12) == MonthStart(y, 9) + DaysInMonth(y, 9) + DaysInMonth(y, 10) + DaysInMonth(y, 11);
  }

  lemma {:induction false} MonthsAdd(y: int, m: int, n: int)
    requires 1 <= m < n <= 13
    ensures MonthStart(y, m) + DaysInMonth(y, m) <= MonthStart(y, n)
    decreases n
  {
    if m + 1 < n {
      MonthsAdd(y, m, n - 1);
    }
  }

  lemma {:induction false} YearsAdd(y: int, z: int)
    requires y < z
    ensures YearStart(y) + (if Leap(y) then 366 else 365) <= YearStart(z)
    decreases z - y
  {
    YearLength(z - 1);
    if y + 1 < z {
      YearsAdd(y, z - 1);
    }
  }

  /** A valid date lies within its year. */
  lemma WithinYear(x: Ymd)
    requires Valid(x)
    ensures YearStart(x.y) <= ToDay(x) < YearStart(x.y + 1)
  {
    MonthsAdd(x.y, x.m, 13);
    TwelveMonths(x.y);
    YearLength(x.y);
    MonthNotNegative(x.y, x.m);
  }

  lemma {:induction false} MonthNotNegative(y: int, m: int)
    ensures MonthStart(y, m) >= 0
    decreases m
  {
    if m > 1 {
      MonthNotNegative(y, m - 1);
    }
  }

  predicate Earlier(a: Ymd, b: Ymd) {
    a.y < b.y || (a.y == b.y && (a.m < b.m || (a.m == b.m && a.d < b.d)))
  }

  /** Days are counted from the first of January 1970. */
  lemma EpochIsZero()
    ensures ToDay(Ymd(1970, 1, 1)) == 0 && ToDay(Ymd(1970, 1, 2)) == 1
  {
  }

  /** Year, month, day order is day-number order. */
  lemma EarlierIsLess(a: Ymd, b: Ymd)
    requires Valid(a) && Valid(b) && Earlier(a, b)
    ensures ToDay(a) < ToDay(b)
  {
    if a.y < b.y {
      WithinYear(a);
      WithinYear(b);
      if a.y + 1 < b.y {
        YearsAdd(a.y + 1, b.y);
      }
    } else if a.m < b.m {
      MonthsAdd(a.y, a.m, b.m);
    }
  }

  // ------------------------------------------------------- from a day number

  /** The year holding the day, searched from `y` on: the largest whose start is not later. */
  function YearOf(t: Date, y: int): (r: int)
    requires YearStart(y) <= t
    ensures r >= y && YearStart(r) <= t < YearStart(r + 1)
    decreases t - YearStart(y)
  {
    YearLength(y);
    if YearStart(y + 1) <= t then YearOf(t, y + 1) else y
  }

  function MonthOf(y: int, day: int, m: int): (r: int)
    requires 1 <= m <= 12 && MonthStart(y, m) <= day < MonthStart(y, 13)
    ensures m <= r <= 12 && MonthStart(y, r) <= day < MonthStart(y, r + 1)
    decreases 12 - m
  {
    if m < 12 && MonthStart(y, m + 1) <= day then MonthOf(y, day, m + 1) else m
  }

  /** The date of a day number, from year 0 on. */
  function FromDay(t: Date): (x: Ymd)
    requires t >= YearStart(0)
    ensures Valid(x) && ToDay(x) == t && x.y >= 0
  {
    var y := YearOf(t, 0);
    TwelveMonths(y);
    YearLength(y);
    var m := MonthOf(y, t - YearStart(y), 1);
    Ymd(y, m, t - YearStart(y) - MonthStart(y, m) + 1)
  }

  lemma FromToDay(x: Ymd)
    requires Valid(x) && x.y >= 0
    ensures ToDay(x) >= YearStart(0) && FromDay(ToDay(x)) == x
  {
    WithinYear(x);
    if x.y > 0 {
      YearsAdd(0, x.y);
    }
    var z := FromDay(ToDay(x));
    if Earlier(x, z) {
      EarlierIsLess(x, z);
    } else if Earlier(z, x) {
      EarlierIsLess(z, x);
    }
  }

  /** `Date.UTC` reads the years 0 to 99 as 1900 to 1999 (section 21.4.3.4 of ECMA-262). */
  function UtcYear(y: int): int {
    if 0 <= y <= 99 then 1900 + y else y
  }

  /** `Date.UTC(y, m - 1, d)`, in days. */
  function UtcDay(x: Ymd): Date {
    YearStart(UtcYear(x.y)) + MonthStart(UtcYear(x.y), x.m) + x.d - 1
  }

  lemma LaterYear(y: int, z: int)
    requires y <= z
    ensures YearStart(y) <= YearStart(z)
    ensures y < z ==> YearStart(y) + 365 <= YearStart(z)
  {
    hide YearStart;
    if y < z {
      YearsAdd(y, z);
    }
  }

  /** A day of the month of another year is in that year, or the first of the next one (29 February). */
  lemma DayOfOtherYear(x: Ymd, y: int)
    requires Valid(x)
    ensures YearStart(y) <= YearStart(y) + MonthStart(y, x.m) + x.d - 1 <= YearStart(y + 1)
  {
    hide YearStart, Leap;
    MonthNotNegative(y, x.m);
    MonthsAdd(y, x.m, 13);
    TwelveMonths(y);
    YearLength(y);
    assert DaysInMonth(x.y, x.m) <= DaysInMonth(y, x.m) + 1;
  }

  /** From the year 100 on it is the date's day; before, one of the twentieth century. */
  lemma UtcDayIs(x: Ymd)
    requires Valid(x) && x.y >= 0
    ensures x.y >= 100 ==> UtcDay(x) == ToDay(x) && ToDay(x) >= YearStart(100)
    ensures x.y < 100 ==> ToDay(x) < YearStart(100) < YearStart(1900) <= UtcDay(x) <= YearStart(2000)
  {
    hide YearStart, MonthStart, Valid;
    WithinYear(x);
    if x.y >= 100 {
      LaterYear(100, x.y);
    } else {
      LaterYear(x.y + 1, 100);
      LaterYear(100, 1900);
      LaterYear(1900, 1900 + x.y);
      LaterYear(1901 + x.y, 2000);
      DayOfOtherYear(x, 1900 + x.y);
    }
  }

  /** `Date.UTC(y, m - 1, d + n)` read back: the overflowing day of month carries. */
  function AddYmd(x: Ymd, n: int): Ymd
    requires Valid(x) && UtcDay(x) + n >= YearStart(0)
  {
    FromDay(UtcDay(x) + n)
  }

  // ------------------------------------------------------------------ strings

  function Digit(n: int): char
    requires 0 <= n < 10
  {
    ('0' as int + n) as char
  }

  function Pow10(k: nat): nat {
    if k == 0 then 1 else 10 * Pow10(k - 1)
  }

  /** `n` in exactly `k` decimal digits. */
  function Digits(n: nat, k: nat): (s: string)
    requires n < Pow10(k)
    ensures |s| == k
  {
    if k == 0 then "" else Digits(n / 10, k - 1) + [Digit(n % 10)]
  }

  /** `Number(...)` of a digit string. */
  function Value(s: string): int {
    if s == "" then 0 else 10 * Value(s[..|s| - 1]) + (s[|s| - 1] as int - '0' as int)
  }

  /** String order. */
  predicate Less(a: string, b: string) {
    if b == "" then false
    else if a == "" then true
    else if a[0] != b[0] then a[0] < b[0]
    else Less(a[1..], b[1..])
  }

  lemma {:induction false} LessConcat(a: string, b: string, c: string, d: string)
    requires |a| == |b|
    ensures Less(a + c, b + d) <==> Less(a, b) || (a == b && Less(c, d))
    decreases |a|
  {
    if a == "" {
      assert a + c == c && b + d == d;
    } else {
      assert (a + c)[0] == a[0] && (b + d)[0] == b[0];
      assert (a + c)[1..] == a[1..] + c && (b + d)[1..] == b[1..] + d;
      LessConcat(a[1..], b[1..], c, d);
      assert a == [a[0]] + a[1..] && b == [b[0]] + b[1..];
    }
  }

  lemma {:induction false} NotLessItself(a: string)
    ensures !Less(a, a)
    decreases |a|
  {
    if a != "" {
      NotLessItself(a[1..]);
    }
  }

  /** Fixed-width digits sort as numbers, and are equal only for equal numbers. */
  lemma {:induction false} DigitsOrder(n: nat, m: nat, k: nat)
    requires n < Pow10(k) && m < Pow10(k)
    ensures Less(Digits(n, k), Digits(m, k)) <==> n < m
    ensures Digits(n, k) == Digits(m, k) <==> n == m
    decreases k
  {
    if k > 0 {
      DigitsOrder(n / 10, m / 10, k - 1);
      LessConcat(Digits(n / 10, k - 1), Digits(m / 10, k - 1), [Digit(n % 10)], [Digit(m % 10)]);
      OneDigit(n % 10, m % 10);
      assert Digits(n, k)[..k - 1] == Digits(n / 10, k - 1) && Digits(m, k)[..k - 1] == Digits(m / 10, k - 1);
      assert Digits(n, k)[k - 1] == Digit(n % 10) && Digits(m, k)[k - 1] == Digit(m % 10);
    }
  }

  lemma OneDigit(n: int, m: int)
    requires 0 <= n < 10 && 0 <= m < 10
    ensures Less([Digit(n)], [Digit(m)]) <==> n < m
  {
  }

  lemma {:induction false} ValueOfDigits(n: nat, k: nat)
    requires n < Pow10(k)
    ensures Value(Digits(n, k)) == n
    decreases k
  {
    if k > 0 {
      ValueOfDigits(n / 10, k - 1);
      assert Digits(n, k)[..k - 1] == Digits(n / 10, k - 1);
    }
  }

  predicate FourDigits(x: Ymd) {
    Valid(x) && 0 <= x.y < 10_000
  }

  lemma Widths()
    ensures Pow10(4) == 10_000 && Pow10(2) == 100
  {
    assert Pow10(1) == 10;
    assert Pow10(3) == 1000;
  }

  /** `toISOString().slice(0, 10)` of a date in the years 0000 to 9999. */
  function Text(x: Ymd): (s: string)
    requires FourDigits(x)
    ensures |s| == 10
  {
    Widths();
    Digits(x.y, 4) + ("-" + (Digits(x.m, 2) + ("-" + Digits(x.d, 2))))
  }

  /** `split('-').map(Number)`. */
  function Parse(s: string): Ymd
    requires |s| == 10
  {
    Ymd(Value(s[..4]), Value(s[5..7]), Value(s[8..]))
  }

  lemma ParseText(x: Ymd)
    requires FourDigits(x)
    ensures Parse(Text(x)) == x
  {
    Widths();
    var y, m, d := Digits(x.y, 4), Digits(x.m, 2), Digits(x.d, 2);
    var s := Text(x);
    assert s[..4] == y && s[5..7] == m && s[8..] == d;
    ValueOfDigits(x.y, 4);
    ValueOfDigits(x.m, 2);
    ValueOfDigits(x.d, 2);
  }

  /** Four digits, two and two, with dashes between; and one date written out. */
  lemma TextIs(x: Ymd)
    requires FourDigits(x)
    ensures var s := Text(x);
            && s[4] == '-' && s[7] == '-'
            && forall i :: 0 <= i < 10 && i != 4 && i != 7 ==> '0' <= s[i] <= '9'
  {
    Widths();
    DigitsAre(x.y, 4);
    DigitsAre(x.m, 2);
    DigitsAre(x.d, 2);
  }

  lemma {:induction false} DigitsAre(n: int, k: nat)
    requires 0 <= n < Pow10(k)
    ensures forall i :: 0 <= i < k ==> '0' <= Digits(n, k)[i] <= '9'
    decreases k
  {
    if k > 0 {
      DigitsAre(n / 10, k - 1);
    }
  }

  /** The order of the strings is the order of the days. */
  lemma TextOrderIsDayOrder(a: Ymd, b: Ymd)
    requires FourDigits(a) && FourDigits(b)
    ensures Less(Text(a), Text(b)) <==> ToDay(a) < ToDay(b)
  {
    TextOrder(a, b);
    if Earlier(a, b) {
      EarlierIsLess(a, b);
    } else if Earlier(b, a) {
      EarlierIsLess(b, a);
    }
  }

  lemma TextOrder(a: Ymd, b: Ymd)
    requires FourDigits(a) && FourDigits(b)
    ensures Less(Text(a), Text(b)) <==> Earlier(a, b)
  {
    hide Less, Digits;
    Widths();
    DigitsOrder(a.y, b.y, 4);
    DigitsOrder(a.m, b.m, 2);
    DigitsOrder(a.d, b.d, 2);
    var c, d := Digits(a.m, 2) + ("-" + Digits(a.d, 2)), Digits(b.m, 2) + ("-" + Digits(b.d, 2));
    LessConcat(Digits(a.y, 4), Digits(b.y, 4), "-" + c, "-" + d);
    LessConcat("-", "-", c, d);
    NotLessItself("-");
    LessConcat(Digits(a.m, 2), Digits(b.m, 2), "-" + Digits(a.d, 2), "-" + Digits(b.d, 2));
    LessConcat("-", "-", Digits(a.d, 2), Digits(b.d, 2));
  }

  // --------------------------------------------------------------- the helpers

  /** The dates of the years 0000 to 9999. */
  predicate InRange(t: Date) {
    YearStart(0) <= t < YearStart(10_000)
  }

  lemma InRangeText(t: Date)
    requires InRange(t)
    ensures FourDigits(FromDay(t))
  {
    var x := FromDay(t);
    WithinYear(x);
    if x.y > 10_000 {
      YearsAdd(10_000, x.y);
    }
  }

  /** `YYYY-MM-DD` of a day number. */
  function TextOf(t: Date): (s: string)
    requires InRange(t)
    ensures |s| == 10
  {
    InRangeText(t);
    Text(FromDay(t))
  }

  /** `addDays(date, n)`. */
  function AddDays(s: string, n: int): string
    requires |s| == 10 && FourDigits(Parse(s)) && InRange(UtcDay(Parse(s)) + n)
  {
    InRangeText(UtcDay(Parse(s)) + n);
    Text(AddYmd(Parse(s), n))
  }

  /** The day `addDays` counts from: the day itself from the year 100 on, a later one before. */
  function Base(t: Date): (b: Date)
    requires InRange(t)
    ensures t >= YearStart(100) ==> b == t
    ensures t < YearStart(100) ==> YearStart(100) < YearStart(1900) <= b <= YearStart(2000)
    ensures InRange(b)
  {
    UtcDayIs(FromDay(t));
    YearsAdd(2000, 10_000);
    UtcDay(FromDay(t))
  }

  /** Adding days to a date string is adding to that day. */
  lemma AddDaysFrom(t: Date, n: int)
    requires InRange(t) && InRange(Base(t) + n)
    ensures Parse(TextOf(t)) == FromDay(t) && UtcDay(FromDay(t)) == Base(t)
    ensures AddDays(TextOf(t), n) == TextOf(Base(t) + n)
  {
    hide FromDay, Text, Parse, UtcDay;
    InRangeText(t);
    InRangeText(Base(t) + n);
    ParseText(FromDay(t));
  }

  /** Adding days to a date string is adding to its day number exactly from the year 100 on. */
  lemma AddDaysAdds(t: Date, n: int)
    requires InRange(t) && InRange(t + n) && InRange(Base(t) + n)
    ensures Parse(TextOf(t)) == FromDay(t) && UtcDay(FromDay(t)) == Base(t)
    ensures AddDays(TextOf(t), n) == TextOf(t + n) <==> t >= YearStart(100)
  {
    hide FromDay, Text, TextOf, Parse, UtcDay, YearStart;
    AddDaysFrom(t, n);
    TextOfOrder(Base(t) + n, t + n);
  }

  /** For one: the day after the first of January 50 comes out as the second of January 1950. */
  lemma YearFiftyJumps()
    ensures UtcDay(Ymd(50, 1, 1)) + 1 == ToDay(Ymd(1950, 1, 2)) >= YearStart(0)
    ensures FourDigits(Ymd(50, 1, 1)) && AddYmd(Ymd(50, 1, 1), 1) == Ymd(1950, 1, 2)
  {
    hide FromDay, YearStart;
    FromToDay(Ymd(1950, 1, 2));
  }

  lemma TextOfOrder(a: Date, b: Date)
    requires InRange(a) && InRange(b)
    ensures Less(TextOf(a), TextOf(b)) <==> a < b
    ensures TextOf(a) == TextOf(b) <==> a == b
  {
    InRangeText(a);
    InRangeText(b);
    TextOrderIsDayOrder(FromDay(a), FromDay(b));
    TextOrderIsDayOrder(FromDay(b), FromDay(a));
    NotLessItself(TextOf(a));
  }

  predicate IsDay(s: string, t: Date) {
    InRange(t) && s == TextOf(t)
  }

  /** The strings of consecutive days. */
  ghost predicate Consecutive(dates: seq<string>, start: Date) {
    forall i :: 0 <= i < |dates| ==> IsDay(dates[i], start + i)
  }

  lemma OneMoreDay(dates: seq<string>, start: Date)
    requires Consecutive(dates, start) && InRange(start + |dates|)
    ensures Consecutive(dates + [TextOf(start + |dates|)], start)
  {
    hide IsDay, TextOf, InRange;
    DayIs(start + |dates|);
  }

  lemma DayIs(t: Date)
    requires InRange(t)
    ensures IsDay(TextOf(t), t)
  {
    hide TextOf, InRange;
  }

  /** The day of the string `addDays` makes of a day: the next one, or one of the twentieth century. */
  function Next(t: Date): (next: Date)
    requires InRange(t)
    ensures next > t && next > YearStart(100)
  {
    Base(t) + 1
  }

  /** What the loop lists from the first day on: from the year 100 on, every day to the last. */
  ghost predicate Listed(dates: seq<string>, start: Date, end: Date)
    requires InRange(start)
  {
    if end < start then dates == []
    else
      && |dates| == 1 + Max(0, end - Next(start) + 1)
      && IsDay(dates[0], start) && Consecutive(dates[1..], Next(start))
  }

  /** Enumerating a span of date strings terminates with the first day and then every day after its successor. */
  method EnumerateDates(startDate: string, endDate: string, ghost start: Date, ghost end: Date)
    returns (dates: seq<string>)
    requires InRange(start) && InRange(end) && InRange(end + 1)
    requires startDate == TextOf(start) && endDate == TextOf(end)
    ensures Listed(dates, start, end)
    ensures start >= YearStart(100) ==> |dates| == Max(0, end - start + 1) && Consecutive(dates, start)
  {
    hide TextOf, Less, AddDays, Parse, FourDigits, Consecutive, YearStart, IsDay;
    dates := [];
    var cursor := startDate;
    TextOfOrder(end, start);
    ghost var day := start;
    assert Consecutive([], Next(start)) by {
      NoDays(Next(start));
    }
    while !Less(endDate, cursor)
      invariant start <= day && InRange(day) && cursor == TextOf(day)
      invariant Less(endDate, cursor) <==> end < day
      invariant dates == [] ==> day == start
      invariant dates != [] ==> start <= end && day == Next(start) + |dates| - 1 && IsDay(dates[0], start)
                                && Consecutive(dates[1..], Next(start)) && (|dates| == 1 || day <= end + 1)
      decreases end + 1 - day
    {
      ListOne(dates, start, day);
      dates := dates + [cursor];
      NextInRange(day, end);
      cursor := NextDay(cursor, day);
      day := Next(day);
      TextOfOrder(end, day);
    }
    if start <= end {
      WholeSpan(dates, start, end);
    } else {
      NoDays(start);
    }
  }

  /** One more day keeps the list: the first, or the next of the days after its successor. */
  lemma ListOne(dates: seq<string>, start: Date, day: Date)
    requires InRange(start) && InRange(day)
    requires if dates == [] then day == start
             else day == Next(start) + |dates| - 1 && IsDay(dates[0], start) && Consecutive(dates[1..], Next(start))
    ensures var more := dates + [TextOf(day)];
            IsDay(more[0], start) && Consecutive(more[1..], Next(start))
    ensures Next(day) == Next(start) + |dates|
  {
    hide TextOf, InRange, IsDay;
    if dates == [] {
      DayIs(start);
    } else {
      OneMoreDay(dates[1..], Next(start));
      assert (dates + [TextOf(day)])[1..] == dates[1..] + [TextOf(day)];
    }
  }

  lemma NextInRange(day: Date, end: Date)
    requires InRange(day) && day <= end && InRange(end + 1)
    ensures InRange(Next(day))
  {
    YearsAdd(2000, 10_000);
  }

  lemma WholeSpan(dates: seq<string>, start: Date, end: Date)
    requires InRange(start) && start <= end && Listed(dates, start, end)
    ensures start >= YearStart(100) ==> |dates| == end - start + 1 && Consecutive(dates, start)
  {
    hide IsDay, YearStart, InRange, Consecutive;
    if start >= YearStart(100) {
      assert Next(start) == start + 1;
      FirstAndRest(dates, start);
    }
  }

  lemma FirstAndRest(dates: seq<string>, start: Date)
    requires dates != [] && IsDay(dates[0], start) && Consecutive(dates[1..], start + 1)
    ensures Consecutive(dates, start)
  {
    hide IsDay;
    forall i | 0 <= i < |dates|
      ensures IsDay(dates[i], start + i)
    {
      if i > 0 {
        assert dates[i] == dates[1..][i - 1];
        assert IsDay(dates[1..][i - 1], start + 1 + (i - 1));
      }
    }
  }

  lemma NoDays(start: Date)
    ensures Consecutive([], start)
  {
  }

  method NextDay(s: string, ghost t: Date) returns (next: string)
    requires InRange(t) && InRange(Next(t)) && s == TextOf(t)
    ensures next == TextOf(Next(t))
  {
    InRangeText(t);
    AddDaysFrom(t, 1);
    next := AddDays(s, 1);
  }

  /** `Date.parse` of a date string, in days. */
  function DayOf(s: string): Date
    requires |s| == 10
  {
    ToDay(Parse(s))
  }

  lemma DayOfText(t: Date)
    requires InRange(t)
    ensures DayOf(TextOf(t)) == t
  {
    hide FromDay, Text, Parse;
    InRangeText(t);
    ParseText(FromDay(t));
  }

  /**
   * The shape check before the enumeration, on the strings: it lets through exactly what the check
   * on day numbers lets through, and then at least one and at most 62 dates are enumerated. They are
   * the span's, each once in order, exactly if the span is one day or starts in the year 100 or
   * later; before that only its first day is listed.
   */
  method ShapedDates(startDate: string, endDate: string, part: Part, ghost a: ApplyCall)
    returns (dates: Option<seq<string>>)
    requires InRange(a.first) && InRange(a.last) && InRange(a.last + 1)
    requires startDate == TextOf(a.first) && endDate == TextOf(a.last) && part == a.part
    ensures dates.None? <==> Leave.ShapeRefusal(a).Some?
    ensures dates.Some? ==> 1 <= |dates.value| <= Leave.LEAVE_MAX_SPAN_DAYS
    ensures dates.Some? ==>
              (|dates.value| == a.last - a.first + 1 && Consecutive(dates.value, a.first)
               <==> a.first == a.last || a.first >= YearStart(100))
    ensures dates.Some? && a.first < YearStart(100) ==> dates.value == [startDate]
  {
    hide TextOf, Less, DayOf, Consecutive;
    TextOfOrder(a.last, a.first);
    DayOfText(a.first);
    DayOfText(a.last);
    if Less(endDate, startDate) {
      return None;
    }
    if DayOf(endDate) - DayOf(startDate) + 1 > Leave.LEAVE_MAX_SPAN_DAYS {
      return None;
    }
    if part != FullDay && startDate != endDate {
      return None;
    }
    var all := EnumerateDates(startDate, endDate, a.first, a.last);
    dates := Some(all);
    ShortSpan(all, a.first, a.last);
  }

  /** A span of at most 62 days that starts before the year 100 ends before the day its loop jumps to. */
  lemma ShortSpan(dates: seq<string>, first: Date, last: Date)
    requires InRange(first) && first <= last < first + Leave.LEAVE_MAX_SPAN_DAYS && Listed(dates, first, last)
    ensures |dates| >= 1
    ensures first < YearStart(100) ==> dates == [TextOf(first)]
    ensures dates == [TextOf(first)] && first == last ==> Consecutive(dates, first)
    ensures first >= YearStart(100) ==> |dates| == last - first + 1
  {
    hide TextOf;
    if first < YearStart(100) {
      YearsAdd(100, 1900);
      assert YearStart(101) - YearStart(100) == 365;
    }
    DayIs(first);
  }
}
