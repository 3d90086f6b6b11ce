/** Reading the bound expressions that PostgreSQL prints for partitions. */
module BoundText {
  import opened Wrappers
  import opened Calendar
  import opened Periods
  import opened Text

  datatype TextError =
    | UnterminatedQuote
    | EmptyElement
    | NotQuoted
    | UnknownShape
    | ArityMismatch
    | TenantMismatch
    | BadTimestamp
    | BadArity

  /** The meaning of a bound expression.  The tenant is in upper case. */
  datatype ParsedBound = ParsedBound(bounds: Bounds, tenant: string, isDefault: bool)

  /* ----- trimming ----- */

  predicate IsSpace(c: char) { c == ' ' || c == '\t' || c == '\n' || c == '\r' || c as int == 11 || c as int == 12 }

  function TrimLeft(s: string): string {
    if s != "" && IsSpace(s[0]) then TrimLeft(s[1..]) else s
  }

  function TrimRight(s: string): string {
    if s != "" && IsSpace(s[|s| - 1]) then TrimRight(s[..|s| - 1]) else s
  }

  function TrimSpace(s: string): string { TrimRight(TrimLeft(s)) }

  /* ----- quoting ----- */

  /** strings.ReplaceAll(s, "'", "''"). */
  function DoubleQuotes(s: string): string {
    if s == "" then ""
    else (if s[0] == '\'' then "''" else [s[0]]) + DoubleQuotes(s[1..])
  }

  /** strings.ReplaceAll(s, "''", "'"). */
  function FoldQuotes(s: string): (r: string)
    ensures |r| <= |s|
  {
    if |s| < 2 then s
    else if s[0] == '\'' && s[1] == '\'' then "'" + FoldQuotes(s[2..])
    else [s[0]] + FoldQuotes(s[1..])
  }

  /** pqQuoteLiteral. */
  function QuoteLiteral(s: string): string { "'" + DoubleQuotes(s) + "'" }

  /** Quoted literals separated by ", ". */
  function TupleText(xs: seq<string>): string
    requires xs != []
  {
    if |xs| == 1 then QuoteLiteral(xs[0])
    else QuoteLiteral(xs[0]) + ", " + TupleText(xs[1..])
  }

  /* ----- splitting ----- */

  /** The elements found so far, once the text has run out. */
  function Finish(inQuote: bool, parts: seq<string>): Result<seq<string>, TextError> {
    if inQuote then Err(UnterminatedQuote)
    else if "" in parts then Err(EmptyElement)
    else Ok(parts)
  }

  /** What splitTuple makes of the text still to be read. */
  function Scan(rest: string, inQuote: bool, cur: string, parts: seq<string>): Result<seq<string>, TextError> {
    if rest == "" then Finish(inQuote, parts + [TrimSpace(cur)])
    else if rest[0] == '\'' then
      if inQuote && |rest| > 1 && rest[1] == '\'' then Scan(rest[2..], true, cur + "'", parts)
      else Scan(rest[1..], !inQuote, cur + "'", parts)
    else if rest[0] == ',' && !inQuote then Scan(rest[1..], false, "", parts + [TrimSpace(cur)])
    else Scan(rest[1..], inQuote, cur + [rest[0]], parts)
  }

  /** splitTuple: splits on the commas outside quotes, folding doubled quotes. */
  method SplitTuple(body: string) returns (r: Result<seq<string>, TextError>)
    ensures r == Scan(body, false, "", [])
  {
    var parts: seq<string> := [];
    var cur := "";
    var inQuote := false;
    var i := 0;
    while i < |body|
      invariant 0 <= i <= |body|
      invariant Scan(body[i..], inQuote, cur, parts) == Scan(body, false, "", [])
    {
      var c := body[i];
      assert body[i..][1..] == body[i + 1..];
      if c == '\'' {
        if inQuote && i + 1 < |body| && body[i + 1] == '\'' {
          assert body[i..][2..] == body[i + 2..];
          cur := cur + "'";
          i := i + 2;
          continue;
        }
        inQuote := !inQuote;
        cur := cur + [c];
      } else if c == ',' && !inQuote {
        parts := parts + [TrimSpace(cur)];
        cur := "";
      } else {
        cur := cur + [c];
      }
      i := i + 1;
    }
    if inQuote {
      return Err(UnterminatedQuote);
    }
    parts := parts + [TrimSpace(cur)];
    if "" in parts {
      return Err(EmptyElement);
    }
    return Ok(parts);
  }

  /** A string between single quotes, as it stands. */
  function Wrap(s: string): string { "'" + s + "'" }

  function WrapAll(xs: seq<string>): (w: seq<string>)
    ensures |w| == |xs| && forall i :: 0 <= i < |xs| ==> w[i] == Wrap(xs[i])
  {
    seq(|xs|, i requires 0 <= i < |xs| => Wrap(xs[i]))
  }

  /** Reading the inside of a quoted literal, up to and past its closing quote. */
  lemma {:induction false} ScanLiteral(s: string, tail: string, cur: string, parts: seq<string>)
    requires tail == "" || tail[0] == ','
    ensures Scan(DoubleQuotes(s) + "'" + tail, true, cur, parts) == Scan(tail, false, cur + s + "'", parts)
  {
    var text := DoubleQuotes(s) + "'" + tail;
    if s == "" {
      assert text == "'" + tail && text[1..] == tail;
      assert cur + s + "'" == cur + "'";
    } else {
      var next := DoubleQuotes(s[1..]) + "'" + tail;
      ScanLiteral(s[1..], tail, cur + [s[0]], parts);
      assert cur + [s[0]] + s[1..] + "'" == cur + s + "'";
      if s[0] == '\'' {
        assert text == "''" + next && text[2..] == next;
      } else {
        assert text == [s[0]] + next && text[1..] == next;
      }
    }
  }

  lemma TrimQuoted(s: string)
    ensures TrimSpace(Wrap(s)) == Wrap(s) && TrimSpace(" " + Wrap(s)) == Wrap(s)
  {
    assert (" " + Wrap(s))[1..] == Wrap(s);
  }

  /** One element of a tuple, with the separator that follows it. */
  lemma ScanElement(x: string, tail: string, cur: string, parts: seq<string>)
    requires (cur == "" || cur == " ") && (tail == "" || tail[0] == ',')
    ensures Scan(QuoteLiteral(x) + tail, false, cur, parts) == Scan(tail, false, cur + Wrap(x), parts)
    ensures TrimSpace(cur + Wrap(x)) == Wrap(x)
  {
    var text := QuoteLiteral(x) + tail;
    assert text == "'" + (DoubleQuotes(x) + "'" + tail);
    assert text[1..] == DoubleQuotes(x) + "'" + tail;
    ScanLiteral(x, tail, cur + "'", parts);
    assert cur + "'" + x + "'" == cur + Wrap(x);
    TrimQuoted(x);
    assert cur == "" ==> cur + Wrap(x) == Wrap(x);
  }

  lemma ScanSeparator(rest: string, cur: string, parts: seq<string>)
    ensures Scan(", " + rest, false, cur, parts) == Scan(rest, false, " ", parts + [TrimSpace(cur)])
  {
    assert (", " + rest)[1..] == " " + rest;
    assert (" " + rest)[1..] == rest && "" + [' '] == " ";
  }

  lemma {:induction false} ScanTupleText(xs: seq<string>, cur: string, parts: seq<string>)
    requires xs != [] && (cur == "" || cur == " ")
    requires "" !in parts
    ensures Scan(TupleText(xs), false, cur, parts) == Ok(parts + WrapAll(xs))
    decreases |xs|
  {
    hide TrimSpace, QuoteLiteral;
    if |xs| == 1 {
      ScanElement(xs[0], "", cur, parts);
      assert TupleText(xs) == QuoteLiteral(xs[0]) + "";
      assert parts + WrapAll(xs) == parts + [Wrap(xs[0])];
    } else {
      ScanElement(xs[0], ", " + TupleText(xs[1..]), cur, parts);
      ScanSeparator(TupleText(xs[1..]), cur + Wrap(xs[0]), parts);
      assert TupleText(xs) == QuoteLiteral(xs[0]) + (", " + TupleText(xs[1..]));
      ScanTupleText(xs[1..], " ", parts + [Wrap(xs[0])]);
      assert parts + [Wrap(xs[0])] + WrapAll(xs[1..]) == parts + WrapAll(xs);
    }
  }

  /** Quoting every string of a list and joining, then splitting, gives each
      string back between single quotes, its own quotes single again. */
  lemma SplitUndoesQuoting(xs: seq<string>)
    requires xs != []
    ensures Scan(TupleText(xs), false, "", []) == Ok(WrapAll(xs))
  {
    ScanTupleText(xs, "", []);
    assert [] + WrapAll(xs) == WrapAll(xs);
  }

  /* ----- unquoting ----- */

  predicate HasPair(s: string, c: char) { exists i :: 0 <= i < |s| - 1 && s[i] == c && s[i + 1] == c }

  /** strings.LastIndex(s, "::"); -1 when absent. */
  function LastCast(s: string): (r: int)
    ensures -1 <= r <= |s| - 2 || r == -1
    ensures r >= 0 ==> s[r] == ':' && s[r + 1] == ':'
    ensures forall j :: r < j < |s| - 1 ==> !(s[j] == ':' && s[j + 1] == ':')
  {
    if |s| < 2 then -1
    else if s[|s| - 2] == ':' && s[|s| - 1] == ':' then |s| - 2
    else LastCast(s[..|s| - 1])
  }

  function StripCast(v: string): string {
    var idx := LastCast(v);
    if idx > 0 then v[..idx] else v
  }

  function Unquote(v: string): Result<string, TextError> {
    var w := StripCast(v);
    if |w| < 2 || w[0] != '\'' || w[|w| - 1] != '\'' then Err(NotQuoted)
    else Ok(FoldQuotes(w[1..|w| - 1]))
  }

  lemma {:induction false} FoldKeeps(s: string)
    ensures FoldQuotes(s) == s <==> !HasPair(s, '\'')
    ensures FoldQuotes(s) != s ==> |FoldQuotes(s)| < |s|
  {
    if |s| >= 2 {
      if s[0] == '\'' && s[1] == '\'' {
        assert HasPair(s, '\'');
      } else {
        FoldKeeps(s[1..]);
        assert s == [s[0]] + s[1..];
        assert FoldQuotes(s)[1..] == FoldQuotes(s[1..]);
        if HasPair(s, '\'') {
          var i :| 0 <= i < |s| - 1 && s[i] == '\'' && s[i + 1] == '\'';
          assert s[1..][i - 1] == '\'' && s[1..][i] == '\'';
        }
        if HasPair(s[1..], '\'') {
          var i :| 0 <= i < |s[1..]| - 1 && s[1..][i] == '\'' && s[1..][i + 1] == '\'';
          assert s[i + 1] == '\'' && s[i + 2] == '\'';
        }
      }
    }
  }

  /** Unquoting a split element gives the original string exactly when that
      string has no two adjacent quotes and no "::". */
  lemma UnquoteWrapped(s: string)
    ensures Unquote(Wrap(s)) == Ok(s) <==> !HasPair(s, '\'') && !HasPair(s, ':')
  {
    var v := Wrap(s);
    var idx := LastCast(v);
    FoldKeeps(s);
    if idx > 0 {
      assert s[idx - 1] == ':' && s[idx] == ':';
      assert HasPair(s, ':');
    } else {
      assert v[1..|v| - 1] == s;
      assert forall i :: 0 <= i < |s| ==> s[i] == v[i + 1];
    }
  }

  /* ----- timestamps ----- */

  function RenderDay(t: Instant): (s: string)
    requires 0 <= YearAt(t) <= 9999
    ensures |s| == 10
    ensures forall i :: 0 <= i < 10 ==> IsDigit(s[i]) || s[i] == '-'
  {
    Fixed(YearAt(t), 4) + "-" + Fixed(MonthAt(t) % 12 + 1, 2) + "-" + Fixed(DayOfMonth(t), 2)
  }

  function RenderClock(secs: nat): (s: string)
    ensures |s| == 8
    ensures forall i :: 0 <= i < 8 ==> IsDigit(s[i]) || (s[i] == ':' && (i == 2 || i == 5))
  {
    Fixed(secs / 3600, 2) + ":" + Fixed(secs / 60 % 60, 2) + ":" + Fixed(secs % 60, 2)
  }

  /** The offset from UTC that a session's time zone has at an instant, in
      seconds. */
  type Zone = Instant -> int

  /** The time on the clocks of the zone. */
  function Local(t: Instant, offset: int): Instant { t + offset * NS_PER_SECOND }

  /** What can be printed with four digits for the year and no era, to the
      second: the zones of the world are less than 16 hours apart from UTC. */
  predicate Displayable(t: Instant, offset: int) {
    -57600 < offset < 57600 && 1 <= YearAt(Local(t, offset)) <= 9999 && ClockOf(t) % NS_PER_SECOND == 0
  }

  predicate WholeHours(offset: int) { offset % 3600 == 0 }

  /** Two more digits after a colon. */
  function Colon(n: nat): (s: string)
    ensures |s| == 3 && s[0] == ':' && IsDigit(s[1]) && IsDigit(s[2])
  {
    ":" + Fixed(n, 2)
  }

  /** An offset as PostgreSQL writes it: minutes and seconds only where there are
      any. */
  function RenderOffset(offset: int): (s: string)
    ensures |s| >= 3 && (s[0] == '+' || s[0] == '-')
    ensures forall i :: 1 <= i < |s| ==> IsDigit(s[i]) || (s[i] == ':' && (i == 3 || i == 6))
    ensures |s| == 3 <==> WholeHours(offset)
  {
    var n: nat := if offset < 0 then -offset else offset;
    var hours := (if offset < 0 then "-" else "+") + Fixed(n / 3600, 2);
    WholeHoursOf(offset);
    if n % 3600 == 0 then hours
    else if n % 60 == 0 then hours + Colon(n / 60 % 60)
    else hours + Colon(n / 60 % 60) + Colon(n % 60)
  }

  lemma WholeHoursOf(offset: int)
    ensures WholeHours(offset) <==> (if offset < 0 then -offset else offset) % 3600 == 0
  {
  }

  /** PostgreSQL's text for a timestamp, in a session's time zone. */
  function RenderStamp(t: Instant, offset: int): (s: string)
    requires Displayable(t, offset)
    ensures |s| >= 22 && (|s| == 22 <==> WholeHours(offset))
    ensures forall i :: 0 <= i < |s| ==>
      IsDigit(s[i]) || s[i] in "- +" || (s[i] == ':' && (i == 13 || i == 16 || i == 22 || i == 25))
  {
    var local := Local(t, offset);
    RenderDay(local) + " " + RenderClock(ClockOf(local) / NS_PER_SECOND) + RenderOffset(offset)
  }

  /** A number written in all of the digits `s[i..j]`. */
  function Field(s: string, i: nat, j: nat): Option<nat>
    requires i <= j <= |s|
  {
    if AllDigits(s[i..j]) then Some(ReadNat(s[i..j])) else None
  }

  /** time.Parse with the layout `2006-01-02 15:04:05-07`. */
  function ParseStamp(s: string): Option<Instant> {
    if |s| != 22 || s[4] != '-' || s[7] != '-' || s[10] != ' ' || s[13] != ':' || s[16] != ':'
       || (s[19] != '+' && s[19] != '-') then None
    else
      match (Field(s, 0, 4), Field(s, 5, 7), Field(s, 8, 10))
      case (Some(year), Some(month), Some(day)) => (
        match (Field(s, 11, 13), Field(s, 14, 16), Field(s, 17, 19), Field(s, 20, 22))
        case (Some(hour), Some(minute), Some(second), Some(zone)) =>
          if hour >= 24 || minute >= 60 || second >= 60 || zone > 24 then None
          else
            var offset: int := if s[19] == '-' then 0 - zone else zone as int;
            (match DateFrom(year, month, day)
             case None => None
             case Some(t) =>
               Some(t + ((hour - offset) * 3600 + minute * 60 + second) * NS_PER_SECOND))
        case _ => None)
      case _ => None
  }

  function ParseTimestamp(v: string): Result<Instant, TextError> {
    var raw := match Unquote(v) case Ok(s) => s case Err(_) => StripCast(v);
    match ParseStamp(raw)
    case Some(t) => Ok(t)
    case None => Err(BadTimestamp)
  }

  lemma FieldOfFixed(s: string, i: nat, j: nat, n: nat)
    requires i <= j <= |s| && s[i..j] == Fixed(n, j - i) && n < Pow10(j - i)
    ensures Field(s, i, j) == Some(n)
  {
    ReadFixed(n, j - i);
  }

  lemma OffsetField(offset: int, s: string)
    requires -57600 < offset < 57600 && WholeHours(offset) && |s| == 22 && s[19..] == RenderOffset(offset)
    ensures var n := if offset < 0 then -offset else offset;
      && Field(s, 20, 22) == Some(n / 3600) && n / 3600 <= 24
      && (s[19] == if offset < 0 then '-' else '+')
  {
    hide Fixed, Field;
    var n: nat := if offset < 0 then -offset else offset;
    assert s[20..22] == s[19..][1..3] == Fixed(n / 3600, 2);
    assert s[19] == s[19..][0];
    assert Pow10(2) == 100;
    FieldOfFixed(s, 20, 22, n / 3600);
  }

  lemma DayFields(t: Instant, s: string)
    requires 0 <= YearAt(t) <= 9999 && |s| >= 10 && s[..10] == RenderDay(t)
    ensures s[4] == '-' && s[7] == '-'
    ensures Field(s, 0, 4) == Some(YearAt(t))
    ensures Field(s, 5, 7) == Some(MonthAt(t) % 12 + 1)
    ensures DayOfMonth(t) >= 0 && Field(s, 8, 10) == Some(DayOfMonth(t))
  {
    hide Fixed, MonthOf, MonthStart, MonthLength, Field;
    DateOfParts(t);
    assert Pow10(4) == 10000 && Pow10(2) == 100;
    var d := RenderDay(t);
    assert s[0..4] == d[0..4] && s[5..7] == d[5..7] && s[8..10] == d[8..10];
    FieldOfFixed(s, 0, 4, YearAt(t));
    FieldOfFixed(s, 5, 7, MonthAt(t) % 12 + 1);
    FieldOfFixed(s, 8, 10, DayOfMonth(t));
  }

  lemma SliceOfSlice(s: string, a: nat, b: nat, i: nat, j: nat)
    requires a <= b <= |s| && i <= j <= b - a
    ensures s[a..b][i..j] == s[a + i..a + j]
  {
    var c := s[a..b];
    assert forall k :: 0 <= k < j - i ==> c[i..j][k] == s[a + i..a + j][k];
  }

  lemma ClockFields(secs: nat, s: string)
    requires secs < 86400 && |s| >= 19 && s[11..19] == RenderClock(secs)
    ensures s[13] == ':' && s[16] == ':'
    ensures Field(s, 11, 13) == Some(secs / 3600)
    ensures Field(s, 14, 16) == Some(secs / 60 % 60)
    ensures Field(s, 17, 19) == Some(secs % 60)
  {
    hide Fixed, Field;
    assert Pow10(2) == 100;
    var c := RenderClock(secs);
    SliceOfSlice(s, 11, 19, 0, 2);
    SliceOfSlice(s, 11, 19, 3, 5);
    SliceOfSlice(s, 11, 19, 6, 8);
    assert c[0..2] == Fixed(secs / 3600, 2) && c[3..5] == Fixed(secs / 60 % 60, 2) && c[6..8] == Fixed(secs % 60, 2);
    assert s[13] == c[2] && s[16] == c[5];
    FieldOfFixed(s, 11, 13, secs / 3600);
    FieldOfFixed(s, 14, 16, secs / 60 % 60);
    FieldOfFixed(s, 17, 19, secs % 60);
  }

  /** A rendered timestamp reads back, to the second, exactly when the session's
      time zone is whole hours away from UTC. */
  lemma StampReads(t: Instant, offset: int)
    requires Displayable(t, offset)
    ensures ParseStamp(RenderStamp(t, offset)) == Some(t) <==> WholeHours(offset)
    ensures !WholeHours(offset) ==> ParseStamp(RenderStamp(t, offset)) == None
  {
    hide RenderDay, RenderClock, RenderOffset, ClockOf, YearAt;
    if WholeHours(offset) {
      HourStampReads(t, offset);
    }
  }

  lemma HourStampReads(t: Instant, offset: int)
    requires Displayable(t, offset) && WholeHours(offset)
    ensures ParseStamp(RenderStamp(t, offset)) == Some(t)
  {
    hide Fixed, Field, RenderDay, RenderClock, RenderOffset, DateFrom, ClockOf, YearAt, MonthAt, DayOfMonth;
    var local := Local(t, offset);
    LocalClock(t, offset);
    var s, secs := RenderStamp(t, offset), ClockOf(local) / NS_PER_SECOND;
    ClockParts(local);
    assert s[..10] == RenderDay(local) && s[11..19] == RenderClock(secs) && s[19..] == RenderOffset(offset);
    DayFields(local, s);
    ClockFields(secs, s);
    OffsetField(offset, s);
    DateFromDay(local);
  }

  lemma LocalClock(t: Instant, offset: int)
    requires ClockOf(t) % NS_PER_SECOND == 0
    ensures ClockOf(Local(t, offset)) % NS_PER_SECOND == 0
  {
    ClockShifts(t);
    Shifted(t, offset);
    ClockShifts(Local(t, offset));
  }

  /** Days are whole seconds. */
  lemma ClockShifts(t: Instant)
    ensures ClockOf(t) % NS_PER_SECOND == t % NS_PER_SECOND
  {
    Shifted(t, -86400 * DayOf(t));
  }

  lemma Shifted(x: int, k: int)
    ensures (x + k * NS_PER_SECOND) % NS_PER_SECOND == x % NS_PER_SECOND
  {
    var q := x / NS_PER_SECOND;
    assert x + k * NS_PER_SECOND == (q + k) * NS_PER_SECOND + x % NS_PER_SECOND;
  }

  lemma ClockParts(t: Instant)
    requires ClockOf(t) % NS_PER_SECOND == 0
    ensures var secs := ClockOf(t) / NS_PER_SECOND;
      && 0 <= secs < 86400 && secs / 3600 < 24
      && t - ClockOf(t) + (secs / 3600 * 3600 + secs / 60 % 60 * 60 + secs % 60) * NS_PER_SECOND == t
  {
    var secs := ClockOf(t) / NS_PER_SECOND;
    assert secs == secs / 3600 * 3600 + secs / 60 % 60 * 60 + secs % 60;
  }

  /* ----- bound expressions ----- */

  const PREFIX := "FOR VALUES FROM ("
  const MIDDLE := ") TO ("

  predicate MiddleAt(s: string, k: int) { 0 <= k <= |s| - 6 && s[k..k + 6] == MIDDLE }

  /** The last position, `k` at most, where the two tuples can part. */
  function LastMiddle(s: string, k: int): (r: int)
    requires k + 6 <= |s|
    ensures -1 <= r && (r >= 0 ==> r <= k && MiddleAt(s, r))
    ensures forall j :: r < j <= k ==> !MiddleAt(s, j)
    decreases k + 1
  {
    if k < 0 then -1 else if MiddleAt(s, k) then k else LastMiddle(s, k - 1)
  }

  /** The two groups of `^FOR VALUES FROM \((.*)\) TO \((.*)\)$`: the first
      group is as long as it can be, and neither spans lines. */
  function MatchBounded(s: string): Option<(string, string)> {
    var n := |PREFIX|;
    if |s| < n + 7 || s[..n] != PREFIX || s[|s| - 1] != ')' || '\n' in s then None
    else
      var r := LastMiddle(s[n..], |s| - n - 7);
      if r < 0 then None else Some((s[n..][..r], s[n..][r + 6..|s| - n - 1]))
  }

  function ParseRange(from: string, to: string): Result<Bounds, TextError> {
    match (ParseTimestamp(from), ParseTimestamp(to))
    case (Ok(f), Ok(t)) => Ok(Bounds(f, t))
    case _ => Err(BadTimestamp)
  }

  function ParseParts(from: seq<string>, to: seq<string>): Result<ParsedBound, TextError> {
    if |from| != |to| then Err(ArityMismatch)
    else if |from| == 1 then
      match ParseRange(from[0], to[0])
      case Err(e) => Err(e)
      case Ok(b) => Ok(ParsedBound(b, "", false))
    else if |from| == 2 then
      match (Unquote(from[0]), Unquote(to[0]))
      case (Ok(a), Ok(b)) =>
        if a != b then Err(TenantMismatch)
        else (
          match ParseRange(from[1], to[1])
          case Err(e) => Err(e)
          case Ok(range) => Ok(ParsedBound(range, ToUpper(a), false)))
      case _ => Err(NotQuoted)
    else Err(BadArity)
  }

  /** parseBoundExpr. */
  function ParseBoundExpr(text: string): Result<ParsedBound, TextError> {
    var expr := TrimSpace(text);
    if expr == "DEFAULT" then Ok(ParsedBound(Bounds(ZERO_TIME, ZERO_TIME), "", true))
    else
      match MatchBounded(expr)
      case None => Err(UnknownShape)
      case Some((from, to)) =>
        match (Scan(from, false, "", []), Scan(to, false, "", []))
        case (Ok(f), Ok(t)) => ParseParts(f, t)
        case (Err(e), _) => Err(e)
        case (_, Err(e)) => Err(e)
  }

  /** The values of one end of a range, the tenant first if there is one. */
  function RangeEnd(tenant: string, t: Instant, offset: int): (xs: seq<string>)
    requires Displayable(t, offset)
    ensures xs != []
  {
    if tenant == "" then [RenderStamp(t, offset)] else [tenant, RenderStamp(t, offset)]
  }

  /** Both ends of a range can be printed. */
  predicate Printable(b: Bounds, zone: Zone) { Displayable(b.from, zone(b.from)) && Displayable(b.to, zone(b.to)) }

  /** The expression PostgreSQL prints for a partition of a range: each end with
      the offset that the zone has then. */
  function RenderBound(tenant: string, b: Bounds, zone: Zone): string
    requires Printable(b, zone)
  {
    PREFIX + TupleText(RangeEnd(tenant, b.from, zone(b.from))) + MIDDLE + TupleText(RangeEnd(tenant, b.to, zone(b.to))) + ")"
  }

  /** Text that cannot be mistaken for punctuation between tuples. */
  predicate Plain(s: string) {
    forall i :: 0 <= i < |s| ==> s[i] != ')' && s[i] != '\n'
  }

  lemma {:induction false} DoubledPlain(s: string)
    requires Plain(s)
    ensures Plain(DoubleQuotes(s))
  {
    if s != "" {
      DoubledPlain(s[1..]);
    }
  }

  lemma RangeEndPlain(tenant: string, t: Instant, offset: int)
    requires (tenant == "" || IsWord(tenant)) && Displayable(t, offset)
    ensures Plain(TupleText(RangeEnd(tenant, t, offset)))
  {
    hide RenderStamp, Displayable;
    var stamp := RenderStamp(t, offset);
    DoubledPlain(stamp);
    if tenant != "" {
      DoubledPlain(tenant);
      assert TupleText([tenant, stamp]) == QuoteLiteral(tenant) + ", " + TupleText([stamp]) by {
        assert [tenant, stamp][1..] == [stamp];
      }
    }
  }

  lemma MiddleIsLast(a: string, b: string)
    requires Plain(b)
    ensures var body := a + MIDDLE + b + ")";
      MiddleAt(body, |a|) && forall j :: |a| < j <= |body| - 7 ==> !MiddleAt(body, j)
  {
    var body := a + MIDDLE + b + ")";
    assert body[|a|..|a| + 6] == MIDDLE;
    forall j | |a| < j <= |body| - 7
      ensures !MiddleAt(body, j)
    {
      assert body[j] == (MIDDLE + b)[j - |a|];
      assert body[j..j + 6][0] == body[j];
    }
  }

  lemma PlainHasNoNewline(a: string, b: string)
    requires Plain(a) && Plain(b)
    ensures '\n' !in PREFIX + (a + MIDDLE + b + ")")
  {
    assert '\n' !in a && '\n' !in b;
  }

  lemma MatchesTuples(a: string, b: string)
    requires Plain(a) && Plain(b)
    ensures var s := PREFIX + a + MIDDLE + b + ")";
      TrimSpace(s) == s && s != "DEFAULT" && MatchBounded(s) == Some((a, b))
  {
    hide TrimSpace, MatchBounded;
    var s := PREFIX + (a + MIDDLE + b + ")");
    assert PREFIX + a + MIDDLE + b + ")" == s;
    assert s[0] == 'F' && s[|s| - 1] == ')';
    TrimKeeps(s);
    MatchesBody(a, b);
  }

  lemma TrimKeeps(s: string)
    requires s != "" && !IsSpace(s[0]) && !IsSpace(s[|s| - 1])
    ensures TrimSpace(s) == s
  {
  }

  lemma MatchesBody(a: string, b: string)
    requires Plain(a) && Plain(b)
    ensures MatchBounded(PREFIX + (a + MIDDLE + b + ")")) == Some((a, b))
  {
    hide LastMiddle, MiddleAt, Plain;
    var body := a + MIDDLE + b + ")";
    var s := PREFIX + body;
    PlainHasNoNewline(a, b);
    MiddleIsLast(a, b);
    assert s[..|PREFIX|] == PREFIX && s[|PREFIX|..] == body && s[|s| - 1] == ')';
    assert LastMiddle(body, |body| - 7) == |a|;
    assert body[..|a|] == a && body[|a| + 6..|body| - 1] == b;
  }

  lemma StampUnquotes(t: Instant, offset: int)
    requires Displayable(t, offset)
    ensures ParseTimestamp(Wrap(RenderStamp(t, offset))) == if WholeHours(offset) then Ok(t) else Err(BadTimestamp)
  {
    hide RenderStamp, ParseStamp, Unquote, StripCast, YearAt, ClockOf, Displayable, WholeHours;
    UnquoteWrapped(RenderStamp(t, offset));
    StampReads(t, offset);
  }

  lemma WordUnquotes(s: string)
    requires IsWord(s)
    ensures Unquote(Wrap(s)) == Ok(s)
  {
    UnquoteWrapped(s);
  }

  /** The bound at both ends of a range is whole hours away from UTC. */
  predicate InWholeHours(b: Bounds, zone: Zone) { WholeHours(zone(b.from)) && WholeHours(zone(b.to)) }

  /** An expression with two tenants at its ends. */
  function EndsText(a: string, c: string, b: Bounds, zone: Zone): string
    requires Printable(b, zone)
  {
    PREFIX + TupleText(RangeEnd(a, b.from, zone(b.from))) + MIDDLE + TupleText(RangeEnd(c, b.to, zone(b.to))) + ")"
  }

  /** A range with a tenant of word characters or none at each end reads back only
      if they are the same, and then exactly when the session's time zone is whole
      hours away from UTC at both ends. */
  lemma RenderedEndsRead(a: string, c: string, b: Bounds, zone: Zone)
    requires (a == "" || IsWord(a)) && (c == "" || IsWord(c)) && Printable(b, zone)
    ensures ParseBoundExpr(EndsText(a, c, b, zone))
         == if (a == "") != (c == "") then Err(ArityMismatch)
            else if a != c then Err(TenantMismatch)
            else if InWholeHours(b, zone) then Ok(ParsedBound(b, ToUpper(a), false))
            else Err(BadTimestamp)
  {
    hide RenderStamp, ParseTimestamp, TupleText, Scan, TrimSpace, MatchBounded, Unquote, Displayable, WholeHours;
    var from, to := RangeEnd(a, b.from, zone(b.from)), RangeEnd(c, b.to, zone(b.to));
    RangeEndPlain(a, b.from, zone(b.from));
    RangeEndPlain(c, b.to, zone(b.to));
    MatchesTuples(TupleText(from), TupleText(to));
    SplitUndoesQuoting(from);
    SplitUndoesQuoting(to);
    StampUnquotes(b.from, zone(b.from));
    StampUnquotes(b.to, zone(b.to));
    if a != "" && c != "" {
      WordUnquotes(a);
      WordUnquotes(c);
    }
  }

  /** Blanks around an expression do not matter. */
  lemma BlanksAround(s: string, c: char)
    requires c in " \t\n\r" || c as int in {11, 12}
    ensures ParseBoundExpr([c] + s) == ParseBoundExpr(s) == ParseBoundExpr(s + [c])
  {
    hide MatchBounded, Scan, ParseParts;
    assert ([c] + s)[1..] == s;
    TrimBehind(s, c);
  }

  lemma {:induction false} TrimBehind(s: string, c: char)
    requires IsSpace(c)
    ensures TrimSpace(s + [c]) == TrimSpace(s)
    decreases |s|
  {
    if s != "" && IsSpace(s[0]) {
      assert (s + [c])[1..] == s[1..] + [c];
      TrimBehind(s[1..], c);
    } else if s != "" {
      assert (s + [c])[..|s|] == s;
    } else {
      assert s + [c] == [c] && [c][1..] == "";
    }
  }

  /** What PostgreSQL prints for a partition, with a tenant of word characters or
      none, reads back as its range and its tenant in upper case, exactly when
      the session's time zone is whole hours away from UTC at both ends; the
      others are not read at all. */
  lemma RenderedBoundReads(tenant: string, b: Bounds, zone: Zone)
    requires (tenant == "" || IsWord(tenant)) && Printable(b, zone)
    ensures ParseBoundExpr(RenderBound(tenant, b, zone))
         == if InWholeHours(b, zone) then Ok(ParsedBound(b, ToUpper(tenant), false)) else Err(BadTimestamp)
  {
    hide ParseBoundExpr, IsWord, TupleText, RangeEnd, InWholeHours, Displayable;
    RenderedEndsRead(tenant, tenant, b, zone);
  }
}
