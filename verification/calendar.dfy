/** The proleptic Gregorian calendar behind Go's time.Date, Time.Date and
    Time.AddDate, in UTC.

    An instant is an unbounded count of nanoseconds since 0000-01-01T00:00:00Z;
    a day number counts whole days, and a month number whole months, since that
    midnight.  Go's (year, month) pair is the month number 12 * year + month - 1,
    which is how time.Date normalises a month out of range.  Dafny's `/` and `%`
    round towards minus infinity for positive divisors, so instants before the
    origin need no special case. */
module Calendar {

  type Instant = int

  const NS_PER_SECOND: int := 1_000_000_000
  const NS_PER_HOUR: int := 3_600_000_000_000
  const NS_PER_DAY: int := 86_400_000_000_000

  /** Go's zero time.Time, 0001-01-01T00:00:00Z. */
  const ZERO_TIME: Instant := 366 * NS_PER_DAY

  /** The leap-year rule of RFC 3339, Appendix C. */
  predicate Leap(year: int) {
    year % 4 == 0 && (year % 100 != 0 || year % 400 == 0)
  }

  /** Length of month number `n` (RFC 3339, section 5.7). */
  function MonthLength(n: int): (days: int)
    ensures 28 <= days <= 31
  {
    var m := n % 12;
    if m == 1 then (if Leap(n / 12) then 29 else 28)
    else if m == 3 || m == 5 || m == 8 || m == 10 then 30
    else 31
  }

  /** Day number of the first day of month `n`: the lengths of the months in
      between, added up. */
  function MonthStart(n: int): int
    decreases if n < 0 then -n else n
  {
    if n == 0 then 0
    else if n > 0 then MonthStart(n - 1) + MonthLength(n - 1)
    else MonthStart(n + 1) - MonthLength(n)
  }

  lemma {:induction false} MonthStartMonotone(a: int, b: int)
    requires a <= b
    ensures MonthStart(a) + 28 * (b - a) <= MonthStart(b)
    decreases b - a
  {
    if a < b {
      MonthStartMonotone(a, b - 1);
    }
  }

  /** The month that contains a day. */
  function MonthOf(day: int): (n: int)
    ensures MonthStart(n) <= day < MonthStart(n + 1)
  {
    SearchMonth(day, 0)
  }

  function SearchMonth(day: int, m: int): (n: int)
    ensures MonthStart(n) <= day < MonthStart(n + 1)
    decreases if day < MonthStart(m) then MonthStart(m) - day + 31 else day - MonthStart(m)
  {
    if day < MonthStart(m) then SearchMonth(day, m - 1)
    else if day < MonthStart(m + 1) then m
    else SearchMonth(day, m + 1)
  }

  lemma MonthOfUnique(day: int, n: int)
    requires MonthStart(n) <= day < MonthStart(n + 1)
    ensures MonthOf(day) == n
  {
    var k := MonthOf(day);
    if k < n {
      MonthStartMonotone(k + 1, n);
    } else if n < k {
      MonthStartMonotone(n + 1, k);
    }
  }

  /* ----- the direct form of January 1st ----- */

  /** Days of a year before its month `m`. */
  function DaysBefore(leap: bool, m: nat): nat {
    (if m == 0 then 0 else if m == 1 then 31 else if m == 2 then 59
     else if m == 3 then 90 else if m == 4 then 120 else if m == 5 then 151
     else if m == 6 then 181 else if m == 7 then 212 else if m == 8 then 243
     else if m == 9 then 273 else if m == 10 then 304 else if m == 11 then 334
     else 365)
    + if m > 1 && leap then 1 else 0
  }

  /** Day number of January 1st, computed directly. */
  function YearStart(year: int): int {
    365 * year + (year + 3) / 4 - (year + 99) / 100 + (year + 399) / 400
  }

  lemma {:induction false} MonthsIntoYear(year: int, m: nat)
    requires m <= 12
    ensures MonthStart(12 * year + m) == MonthStart(12 * year) + DaysBefore(Leap(year), m)
  {
    if m > 0 {
      MonthsIntoYear(year, m - 1);
      assert (12 * year + m - 1) / 12 == year && (12 * year + m - 1) % 12 == m - 1;
    }
  }

  lemma YearStartStep(year: int)
    ensures YearStart(year + 1) == YearStart(year) + if Leap(year) then 366 else 365
  {
    Quotient(year, 4);
    Quotient(year, 100);
    Quotient(year, 400);
    EveryFourth(year);
  }

  /** Rounding up counts one more after each multiple. */
  lemma Quotient(x: int, d: int)
    requires d == 4 || d == 100 || d == 400
    ensures (x + d) / d == (x + d - 1) / d + if x % d == 0 then 1 else 0
  {
  }

  lemma EveryFourth(year: int)
    ensures year % 400 == 0 ==> year % 100 == 0
    ensures year % 100 == 0 ==> year % 4 == 0
  {
  }

  /** The direct form of January 1st is the sum of the lengths of the months in
      between, for every year before or after the origin. */
  lemma {:induction false} YearStartIsSum(year: int)
    ensures YearStart(year) == MonthStart(12 * year)
    decreases if year < 0 then -year else year
  {
    if year > 0 {
      YearStartIsSum(year - 1);
      YearStartStep(year - 1);
      MonthsIntoYear(year - 1, 12);
    } else if year < 0 {
      YearStartIsSum(year + 1);
      YearStartStep(year);
      MonthsIntoYear(year, 12);
    }
  }

  /* ----- the cycle of 400 years ----- */

  /** The calendar repeats after 4800 months, which are 146097 days. */
  lemma {:induction false} MonthStartRepeats(n: int)
    ensures MonthLength(n + 4800) == MonthLength(n)
    ensures MonthStart(n + 4800) == MonthStart(n) + 146097
    decreases if n < 0 then -n else n
  {
    SameMonthLength(n);
    hide MonthLength;
    if n == 0 {
      FirstCycle();
    } else if n > 0 {
      MonthStartRepeats(n - 1);
    } else {
      MonthStartRepeats(n + 1);
    }
  }

  lemma FirstCycle()
    ensures MonthStart(4800) == MonthStart(0) + 146097
  {
    hide MonthLength;
    YearStartIsSum(400);
  }

  lemma SameMonthLength(n: int)
    ensures MonthLength(n + 4800) == MonthLength(n)
  {
    hide Leap;
    assert (n + 4800) / 12 == n / 12 + 400 && (n + 4800) % 12 == n % 12;
    LeapRepeats(n / 12);
  }

  lemma LeapRepeats(year: int)
    ensures Leap(year + 400) == Leap(year)
  {
    assert (year + 400) % 400 == year % 400;
    assert (year + 400) % 100 == year % 100;
    assert (year + 400) % 4 == year % 4;
  }

  lemma {:induction false} MonthStartCycles(n: int, q: int)
    ensures MonthStart(n + 4800 * q) == MonthStart(n) + 146097 * q
    decreases if q < 0 then -q else q
  {
    if q > 0 {
      MonthStartCycles(n, q - 1);
      MonthStartRepeats(n + 4800 * (q - 1));
    } else if q < 0 {
      MonthStartCycles(n, q + 1);
      MonthStartRepeats(n + 4800 * q);
    }
  }

  /** Days from the 1st of month `n` to the 1st `m` months later. */
  function Span(n: int, m: int): int { MonthStart(n + m) - MonthStart(n) }

  /** The fewest days that `m` months can take, from one of the first `k` months
      of a cycle. */
  function LeastSpan(m: int, k: nat): int
    requires k > 0
  {
    if k == 1 then Span(0, m)
    else
      var least := LeastSpan(m, k - 1);
      if Span(k - 1, m) < least then Span(k - 1, m) else least
  }

  /** The fewest days that `m` months can take. */
  function LeastDays(m: int): int { LeastSpan(m, 4800) }

  lemma {:induction false} LeastSpanIsLeast(m: int, k: nat) returns (at: nat)
    requires k > 0
    ensures at < k && Span(at, m) == LeastSpan(m, k)
    ensures forall n :: 0 <= n < k ==> LeastSpan(m, k) <= Span(n, m)
    decreases k
  {
    hide Span;
    if k == 1 {
      at := 0;
    } else {
      at := LeastSpanIsLeast(m, k - 1);
      if Span(k - 1, m) < LeastSpan(m, k - 1) {
        at := k - 1;
      }
    }
  }

  /** No start makes `m` months shorter, and some start attains it. */
  lemma LeastDaysIsLeast(m: int, n: int)
    ensures LeastDays(m) <= Span(n, m)
    ensures exists at :: Span(at, m) == LeastDays(m)
  {
    hide MonthStart, LeastSpan;
    var r, q := n % 4800, n / 4800;
    var at := LeastSpanIsLeast(m, 4800);
    assert n == r + 4800 * q && n + m == r + m + 4800 * q;
    MonthStartCycles(r, q);
    MonthStartCycles(r + m, q);
    assert Span(n, m) == Span(r, m);
  }

  /** Unless `m` months are a number of whole cycles, some month is longer than
      the one `m` months before it: February lies `m` months before another
      month, or a leap February before or after a short one. */
  lemma UnevenMonths(m: int) returns (n: int)
    requires m % 4800 != 0
    ensures MonthLength(n) > MonthLength(n - m)
  {
    if m % 12 != 0 {
      n := 1 + m;
      assert n % 12 != 1;
    } else {
      hide Leap;
      var y := m / 12;
      var leap := UnevenYears(y);
      n := 12 * leap + 1;
      assert n / 12 == leap && (n - m) / 12 == leap - y && n % 12 == 1 && (n - m) % 12 == 1;
    }
  }

  lemma UnevenYears(y: int) returns (leap: int)
    requires y % 400 != 0
    ensures Leap(leap) && !Leap(leap - y)
  {
    if y % 4 == 0 && y % 100 != 0 {
      leap := 100 + y;
      HundredMore(y);
    } else {
      leap := 0;
      ByFour(y);
      ByHundred(y);
      ByFourHundred(y);
    }
  }

  lemma HundredMore(y: int)
    requires y % 4 == 0 && y % 100 != 0
    ensures Leap(100 + y) && !Leap(100)
  {
  }

  lemma ByFour(y: int)
    ensures -y % 4 == 0 <==> y % 4 == 0
  {
  }

  lemma ByHundred(y: int)
    ensures -y % 100 == 0 <==> y % 100 == 0
  {
  }

  lemma ByFourHundred(y: int)
    ensures -y % 400 == 0 <==> y % 400 == 0
  {
  }

  /* ----- instants, dates and weekdays ----- */

  function DayOf(t: Instant): int { t / NS_PER_DAY }

  /** Nanoseconds since midnight. */
  function ClockOf(t: Instant): int { t - DayOf(t) * NS_PER_DAY }

  predicate IsMidnight(t: Instant) { ClockOf(t) == 0 }

  /** The month of an instant. */
  function MonthAt(t: Instant): int { MonthOf(DayOf(t)) }

  /** Day of the month, from 1. */
  function DayOfMonth(t: Instant): int { DayOf(t) - MonthStart(MonthAt(t)) + 1 }

  /** time.Date in UTC: months and days out of range carry over. */
  function Date(month: int, day: int, clock: int): Instant {
    (MonthStart(month) + day - 1) * NS_PER_DAY + clock
  }

  /** Time.AddDate, for a number of months and of days. */
  function AddDate(t: Instant, months: int, days: int): Instant {
    Date(MonthAt(t) + months, DayOfMonth(t) + days, ClockOf(t))
  }

  /** AddDate takes off as many days as the months before have. */
  lemma MonthsBack(t: Instant, m: int)
    ensures AddDate(t, -m, 0) == t - Span(MonthAt(t) - m, m) * NS_PER_DAY
  {
    hide MonthStart, MonthOf;
    DateOfParts(t);
  }

  lemma DaysBack(t: Instant, d: int)
    ensures AddDate(t, 0, -d) == t - d * NS_PER_DAY
  {
    hide MonthStart, MonthOf;
    DateOfParts(t);
  }

  /** Day of the week, Sunday being 0: day 0 was a Saturday. */
  function Weekday(day: int): (w: int)
    ensures 0 <= w < 7
    decreases if day < 0 then 7 - day else day
  {
    if day < 0 then Weekday(day + 7)
    else if day >= 7 then Weekday(day - 7)
    else if day == 0 then 6
    else day - 1
  }

  /** Reading the date of an instant and building it again gives the instant. */
  lemma DateOfParts(t: Instant)
    ensures Date(MonthAt(t), DayOfMonth(t), ClockOf(t)) == t
    ensures 1 <= DayOfMonth(t) <= MonthLength(MonthAt(t)) && 0 <= ClockOf(t) < NS_PER_DAY
  {
  }

  /** The zero time is the first midnight of year 1. */
  lemma ZeroTimeIs()
    ensures ZERO_TIME == Date(12, 1, 0) && MonthAt(ZERO_TIME) == 12 && DayOfMonth(ZERO_TIME) == 1
  {
    hide MonthStart, MonthOf;
    YearStartIsSum(1);
    PartsOfDate(12, 1, 0);
  }

  /** Building a date that exists and reading it gives the same parts. */
  lemma PartsOfDate(month: int, day: int, clock: int)
    requires 1 <= day <= MonthLength(month) && 0 <= clock < NS_PER_DAY
    ensures var t := Date(month, day, clock);
      MonthAt(t) == month && DayOfMonth(t) == day && ClockOf(t) == clock
  {
    MonthOfUnique(MonthStart(month) + day - 1, month);
  }
}
