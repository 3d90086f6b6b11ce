/** Strings as Go byte strings: searching, case, digits and the date layouts.
    Characters stand for bytes; only ASCII letters have case. */
module Text {
  import opened Wrappers
  import opened Calendar

  predicate IsDigit(c: char) { '0' <= c <= '9' }

  predicate IsUpperLetter(c: char) { 'A' <= c <= 'Z' }

  predicate IsLowerLetter(c: char) { 'a' <= c <= 'z' }

  /** The class `\w`. */
  predicate IsWordChar(c: char) { IsDigit(c) || IsUpperLetter(c) || IsLowerLetter(c) || c == '_' }

  /** The pattern `^\w+$`. */
  predicate IsWord(s: string) { s != "" && forall i :: 0 <= i < |s| ==> IsWordChar(s[i]) }

  predicate IsUpperAlphanumeric(s: string) {
    s != "" && forall i :: 0 <= i < |s| ==> IsUpperLetter(s[i]) || IsDigit(s[i])
  }

  function ToUpperChar(c: char): char {
    if IsLowerLetter(c) then c - 'a' + 'A' else c
  }

  /** strings.ToUpper. */
  function ToUpper(s: string): (u: string)
    ensures |u| == |s|
    ensures forall i :: 0 <= i < |s| ==> u[i] == ToUpperChar(s[i])
  {
    seq(|s|, i requires 0 <= i < |s| => ToUpperChar(s[i]))
  }

  lemma ToUpperOfUpper(s: string)
    requires IsUpperAlphanumeric(s)
    ensures ToUpper(s) == s && IsWord(s) && '_' !in s
  {
  }

  lemma ToUpperOfWord(s: string)
    requires IsWord(s)
    ensures IsWord(ToUpper(s)) && ToUpper(ToUpper(s)) == ToUpper(s)
    ensures '_' in ToUpper(s) <==> '_' in s
    ensures '_' !in s ==> IsUpperAlphanumeric(ToUpper(s))
  {
    if '_' in s {
      var i :| 0 <= i < |s| && s[i] == '_';
      assert ToUpper(s)[i] == '_';
    }
    if '_' in ToUpper(s) {
      var i :| 0 <= i < |s| && ToUpper(s)[i] == '_';
      assert s[i] == '_';
    }
  }

  /** strings.Index for one byte; -1 when absent. */
  function Index(s: string, c: char): (r: int)
    ensures -1 <= r < |s|
    ensures r >= 0 ==> s[r] == c && forall j :: 0 <= j < r ==> s[j] != c
    ensures r < 0 ==> forall j :: 0 <= j < |s| ==> s[j] != c
  {
    if s == "" then -1
    else if s[0] == c then 0
    else
      var r := Index(s[1..], c);
      if r < 0 then -1 else r + 1
  }

  /** strings.LastIndex for one byte; -1 when absent. */
  function LastIndex(s: string, c: char): (r: int)
    ensures -1 <= r < |s|
    ensures r >= 0 ==> s[r] == c
    ensures forall j :: r < j < |s| ==> s[j] != c
  {
    if s == "" then -1
    else if s[|s| - 1] == c then |s| - 1
    else LastIndex(s[..|s| - 1], c)
  }

  lemma LastIndexAt(s: string, c: char, n: nat)
    requires n < |s| && s[n] == c && c !in s[n + 1..]
    ensures LastIndex(s, c) == n
  {
    hide LastIndex;
    var r := LastIndex(s, c);
    assert r >= n;
    assert forall j :: n < j < |s| ==> s[j] == s[n + 1..][j - n - 1];
  }

  lemma IndexAt(s: string, c: char, n: nat)
    requires n < |s| && s[n] == c && c !in s[..n]
    ensures Index(s, c) == n
  {
    hide Index;
    var r := Index(s, c);
    assert forall j :: 0 <= j < n ==> s[j] == s[..n][j];
  }

  lemma Halves(a: string, c: char, b: string)
    ensures (a + [c] + b)[|a|] == c && (a + [c] + b)[..|a|] == a && (a + [c] + b)[|a| + 1..] == b
  {
  }

  /** Splitting at the last separator recovers the two halves. */
  lemma LastIndexOfJoin(a: string, c: char, b: string)
    requires c !in b
    ensures LastIndex(a + [c] + b, c) == |a|
    ensures (a + [c] + b)[..|a|] == a && (a + [c] + b)[|a| + 1..] == b
  {
    hide LastIndex;
    Halves(a, c, b);
    LastIndexAt(a + [c] + b, c, |a|);
  }

  /** Splitting at the first separator recovers the two halves. */
  lemma IndexOfJoin(a: string, c: char, b: string)
    requires c !in a
    ensures Index(a + [c] + b, c) == |a|
    ensures (a + [c] + b)[..|a|] == a && (a + [c] + b)[|a| + 1..] == b
  {
    hide Index;
    Halves(a, c, b);
    IndexAt(a + [c] + b, c, |a|);
  }

  /* ----- identifiers ----- */

  /** PostgreSQL keeps the first 63 bytes of an identifier. */
  const NAME_LIMIT: nat := 63

  function Clip(s: string): string { if |s| <= NAME_LIMIT then s else s[..NAME_LIMIT] }

  /* ----- numbers ----- */

  predicate AllDigits(s: string) { forall i :: 0 <= i < |s| ==> IsDigit(s[i]) }

  function DigitChar(d: int): (c: char)
    requires 0 <= d < 10
    ensures IsDigit(c) && c as int == '0' as int + d
  {
    ('0' as int + d) as char
  }

  /** The last `width` decimal digits of `n`. */
  function Fixed(n: nat, width: nat): (s: string)
    ensures |s| == width && AllDigits(s)
  {
    if width == 0 then "" else Fixed(n / 10, width - 1) + [DigitChar(n % 10)]
  }

  /** All decimal digits of `n`. */
  function Decimal(n: nat): (s: string)
    ensures s != "" && AllDigits(s)
  {
    if n < 10 then [DigitChar(n)] else Decimal(n / 10) + [DigitChar(n % 10)]
  }

  function ReadNat(s: string): nat
    requires AllDigits(s)
  {
    if s == "" then 0
    else 10 * ReadNat(s[..|s| - 1]) + (s[|s| - 1] as int - '0' as int)
  }

  function Pow10(k: nat): nat { if k == 0 then 1 else 10 * Pow10(k - 1) }

  lemma {:induction false} ReadFixed(n: nat, width: nat)
    requires n < Pow10(width)
    ensures ReadNat(Fixed(n, width)) == n
  {
    if width > 0 {
      ReadFixed(n / 10, width - 1);
      assert Fixed(n, width)[..width - 1] == Fixed(n / 10, width - 1);
    }
  }

  lemma {:induction false} FixedRead(s: string)
    requires AllDigits(s)
    ensures ReadNat(s) < Pow10(|s|) && Fixed(ReadNat(s), |s|) == s
  {
    if s != "" {
      var a, d := ReadNat(s[..|s| - 1]), s[|s| - 1] as int - '0' as int;
      FixedRead(s[..|s| - 1]);
      assert (10 * a + d) / 10 == a && (10 * a + d) % 10 == d;
      assert s == s[..|s| - 1] + [s[|s| - 1]];
    }
  }

  lemma {:induction false} ReadDecimal(n: nat)
    ensures ReadNat(Decimal(n)) == n
    ensures n >= 10000 ==> |Decimal(n)| >= 5
  {
    if n >= 10 {
      ReadDecimal(n / 10);
      assert Decimal(n)[..|Decimal(n)| - 1] == Decimal(n / 10);
      if n >= 10000 {
        DecimalLength(n / 10, 3);
      }
    } else {
      assert Decimal(n)[..0] == "";
    }
  }

  lemma {:induction false} DecimalLength(n: nat, k: nat)
    requires n >= Pow10(k)
    ensures |Decimal(n)| > k
  {
    if k > 0 {
      assert Pow10(k - 1) >= 1 by { Pow10Positive(k - 1); }
      DecimalLength(n / 10, k - 1);
    }
  }

  lemma {:induction false} Pow10Positive(k: nat)
    ensures Pow10(k) >= 1
  {
    if k > 0 {
      Pow10Positive(k - 1);
    }
  }

  /* ----- dates ----- */

  /** A year as the layout `2006` writes it: four digits, more from year 10000
      on, and a sign before year 0. */
  function FormatYear(y: int): (s: string)
    ensures '_' !in s && '.' !in s
  {
    var n := if y < 0 then -y else y;
    var digits := if n < 10000 then Fixed(n, 4) else Decimal(n);
    if y < 0 then "-" + digits else digits
  }

  lemma FormatYearInjective(a: int, b: int)
    requires FormatYear(a) == FormatYear(b)
    ensures a == b
  {
    var m, n := if a < 0 then -a else a, if b < 0 then -b else b;
    var dm, dn := if m < 10000 then Fixed(m, 4) else Decimal(m), if n < 10000 then Fixed(n, 4) else Decimal(n);
    assert ReadNat(dm) == m && ReadNat(dn) == n by {
      assert Pow10(4) == 10000;
      if m < 10000 { ReadFixed(m, 4); } else { ReadDecimal(m); }
      if n < 10000 { ReadFixed(n, 4); } else { ReadDecimal(n); }
    }
    assert IsDigit(dm[0]) && IsDigit(dn[0]);
    assert a < 0 <==> FormatYear(a)[0] == '-';
    assert b < 0 <==> FormatYear(b)[0] == '-';
    if a < 0 {
      assert FormatYear(a)[1..] == dm && FormatYear(b)[1..] == dn;
    }
  }

  function YearAt(t: Instant): int { MonthAt(t) / 12 }

  /** Time.Format("20060102"). */
  function FormatDate(t: Instant): (s: string)
    ensures '_' !in s && '.' !in s
  {
    FormatYear(YearAt(t)) + Fixed(MonthAt(t) % 12 + 1, 2) + Fixed(DayOfMonth(t), 2)
  }

  /** time.ParseInLocation("20060102", s, UTC) on eight bytes. */
  function ParseDate(s: string): Option<Instant>
    requires |s| == 8
  {
    if !AllDigits(s) then None
    else DateFrom(ReadNat(s[..4]), ReadNat(s[4..6]), ReadNat(s[6..]))
  }

  /** Midnight of a year, month and day, if that date exists. */
  function DateFrom(year: int, month: int, day: int): Option<Instant> {
    if 1 <= month <= 12 && 1 <= day <= MonthLength(12 * year + month - 1)
    then Some(Date(12 * year + month - 1, day, 0))
    else None
  }

  lemma DateFromParts(year: int, month: int, day: int)
    requires DateFrom(year, month, day).Some?
    ensures var t := DateFrom(year, month, day).value;
      IsMidnight(t) && YearAt(t) == year && MonthAt(t) % 12 + 1 == month && DayOfMonth(t) == day
  {
    PartsOfDate(12 * year + month - 1, day, 0);
    assert (12 * year + month - 1) / 12 == year && (12 * year + month - 1) % 12 == month - 1;
  }

  /** Dates that parse are midnights of the years 0 to 9999, written back
      byte for byte. */
  lemma ParseDateThenFormat(s: string)
    requires |s| == 8 && ParseDate(s).Some?
    ensures var t := ParseDate(s).value;
      IsMidnight(t) && 0 <= YearAt(t) <= 9999 && FormatDate(t) == s
  {
    hide Fixed, ReadNat, DateFrom, MonthOf, MonthStart, IsMidnight;
    var y, m, d := s[..4], s[4..6], s[6..];
    DateFromParts(ReadNat(y), ReadNat(m), ReadNat(d));
    FixedRead(y);
    FixedRead(m);
    FixedRead(d);
    assert Pow10(4) == 10000;
    assert s == y + m + d;
  }

  /** The eight bytes of a date in those years. */
  lemma DateSlices(t: Instant)
    requires 0 <= YearAt(t) <= 9999
    ensures DayOfMonth(t) >= 0
    ensures var s := FormatDate(t);
      && |s| == 8 && AllDigits(s)
      && s[..4] == Fixed(YearAt(t), 4) && s[4..6] == Fixed(MonthAt(t) % 12 + 1, 2) && s[6..] == Fixed(DayOfMonth(t), 2)
  {
    hide Fixed, MonthOf, MonthStart, MonthLength;
    DateOfParts(t);
    var y, m, d := Fixed(YearAt(t), 4), Fixed(MonthAt(t) % 12 + 1, 2), Fixed(DayOfMonth(t), 2);
    assert FormatDate(t) == y + m + d;
  }

  lemma DateFromDay(t: Instant)
    ensures DateFrom(YearAt(t), MonthAt(t) % 12 + 1, DayOfMonth(t)) == Some(t - ClockOf(t))
  {
    hide MonthOf, MonthStart, MonthLength;
    DateOfParts(t);
    assert 12 * YearAt(t) + MonthAt(t) % 12 == MonthAt(t);
  }

  /** The date of an instant of those years parses to its midnight. */
  lemma FormatDateThenParse(t: Instant)
    requires 0 <= YearAt(t) <= 9999
    ensures |FormatDate(t)| == 8
    ensures ParseDate(FormatDate(t)) == Some(DayOf(t) * NS_PER_DAY)
  {
    hide Fixed, ReadNat, DateFrom, FormatDate, MonthOf, MonthStart, MonthLength;
    DateSlices(t);
    DateOfParts(t);
    assert Pow10(4) == 10000 && Pow10(2) == 100;
    ReadFixed(YearAt(t), 4);
    ReadFixed(MonthAt(t) % 12 + 1, 2);
    ReadFixed(DayOfMonth(t), 2);
    DateFromDay(t);
  }

  /** Outside those years the date is not eight bytes long. */
  lemma FormatDateLength(t: Instant)
    ensures |FormatDate(t)| == 8 <==> 0 <= YearAt(t) <= 9999
  {
    hide Fixed, Decimal, MonthOf, MonthStart, MonthLength;
    DateOfParts(t);
    assert |FormatDate(t)| == |FormatYear(YearAt(t))| + 4;
    var y := YearAt(t);
    if y > 9999 {
      ReadDecimal(y);
    } else if y < -9999 {
      ReadDecimal(-y);
    }
  }

  /** Different days have different dates, in every year. */
  lemma FormatDateInjective(t: Instant, u: Instant)
    requires FormatDate(t) == FormatDate(u)
    ensures DayOf(t) == DayOf(u)
  {
    hide FormatYear, Fixed, MonthOf, MonthStart, MonthLength;
    var a, b := FormatDate(t), FormatDate(u);
    var n := |a| - 4;
    assert a[..n] == FormatYear(YearAt(t)) && b[..n] == FormatYear(YearAt(u));
    FormatYearInjective(YearAt(t), YearAt(u));
    assert a[n..n + 2] == Fixed(MonthAt(t) % 12 + 1, 2) && b[n..n + 2] == Fixed(MonthAt(u) % 12 + 1, 2);
    assert a[n + 2..] == Fixed(DayOfMonth(t), 2) && b[n + 2..] == Fixed(DayOfMonth(u), 2);
    FixedTwoInjective(MonthAt(t) % 12 + 1, MonthAt(u) % 12 + 1);
    DateOfParts(t);
    DateOfParts(u);
    FixedTwoInjective(DayOfMonth(t), DayOfMonth(u));
    assert MonthAt(t) == 12 * YearAt(t) + MonthAt(t) % 12;
    assert MonthAt(u) == 12 * YearAt(u) + MonthAt(u) % 12;
  }

  lemma FixedTwoInjective(a: nat, b: nat)
    requires a < 100 && b < 100 && Fixed(a, 2) == Fixed(b, 2)
    ensures a == b
  {
    assert Pow10(2) == 100;
    ReadFixed(a, 2);
    ReadFixed(b, 2);
  }
}
