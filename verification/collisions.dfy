/** When names collide: what callers have to rule out, and what happens
    otherwise. */
module Collisions {
  import opened Wrappers
  import opened Calendar
  import opened Periods
  import opened Text
  import opened Naming
  import opened Metadata
  import opened Catalog
  import opened Provisioner
  import opened Consistency

  /* ----- reported and recorded ----- */

  /** The rows a call sets out to insert. */
  function RowsFor(p: Parent, tenant: Option<string>, bs: seq<Bounds>): (rows: seq<PartRow>)
    ensures |rows| == |bs|
    ensures forall i :: 0 <= i < |bs| ==>
      rows[i] == BoundedRow(p, tenant, bs[i], NameOf(PartName(p, TextOf(tenant), bs[i], false)))
  {
    seq(|bs|, i requires 0 <= i < |bs| => BoundedRow(p, tenant, bs[i], NameOf(PartName(p, TextOf(tenant), bs[i], false))))
  }

  function NameOf(name: Result<string, NameError>): string { if name.Ok? then name.value else "" }

  function DefaultRow(p: Parent): PartRow {
    PartRow(NameOf(PartName(p, "", ZERO_BOUNDS, true)), p.id, None, ZERO_BOUNDS, true, Active)
  }

  function PlannedRows(p: Parent, grid: Grid, meta: seq<PartRow>, now: Instant, tenant: Option<string>): seq<PartRow> {
    RowsFor(p, tenant, ToCreate(p, grid, meta, now, tenant)) + if HasDefault(p, meta) then [] else [DefaultRow(p)]
  }

  /** Insert-or-ignore, row by row. */
  function InsertAll(meta: seq<PartRow>, rows: seq<PartRow>): seq<PartRow>
    decreases |rows|
  {
    if rows == [] then meta else InsertAll(InsertOrIgnore(meta, rows[0]), rows[1..])
  }

  /** No row is in the way of another. */
  predicate Unobstructed(meta: seq<PartRow>, rows: seq<PartRow>) {
    && (forall r, i :: r in meta && 0 <= i < |rows| ==> !Conflicts(r, rows[i]))
    && forall i, j :: 0 <= i < j < |rows| ==> !Conflicts(rows[i], rows[j])
  }

  /** All rows come exactly when none is in the way of another. */
  lemma {:induction false} AllComeIff(meta: seq<PartRow>, rows: seq<PartRow>)
    ensures |InsertAll(meta, rows)| <= |meta| + |rows|
    ensures |InsertAll(meta, rows)| == |meta| + |rows| <==> Unobstructed(meta, rows)
    decreases |rows|
  {
    hide Conflicts;
    if rows != [] {
      var next, rest := InsertOrIgnore(meta, rows[0]), rows[1..];
      AllComeIff(next, rest);
      if Blocked(meta, rows[0]) {
        var r :| r in meta && Conflicts(r, rows[0]);
      } else {
        FirstComes(meta, rows);
      }
    }
  }

  lemma FirstComes(meta: seq<PartRow>, rows: seq<PartRow>)
    requires rows != [] && !Blocked(meta, rows[0])
    ensures Unobstructed(meta + [rows[0]], rows[1..]) <==> Unobstructed(meta, rows)
  {
    hide Conflicts;
    var more, rest := meta + [rows[0]], rows[1..];
    assert rows[0] in more && forall r :: r in meta ==> r in more;
    if Unobstructed(more, rest) {
      forall r, i | r in meta && 0 <= i < |rows|
        ensures !Conflicts(r, rows[i])
      {
        assert i > 0 ==> rest[i - 1] == rows[i];
      }
      forall i, j | 0 <= i < j < |rows|
        ensures !Conflicts(rows[i], rows[j])
      {
        assert rest[j - 1] == rows[j] && (i > 0 ==> rest[i - 1] == rows[i]);
      }
    }
  }

  lemma {:induction false} CreatesRows(p: Parent, st: Store, tenant: Option<string>, bs: seq<Bounds>)
    requires CreateAll(p, st, tenant, bs).Some?
    ensures CreateAll(p, st, tenant, bs).value.meta == InsertAll(st.meta, RowsFor(p, tenant, bs))
    decreases |bs|
  {
    hide PartName, SplitFQ, InsertOrIgnore, Clash, FitsKey, DefaultHolds, Named;
    if bs != [] {
      assert RowsFor(p, tenant, bs)[1..] == RowsFor(p, tenant, bs[1..]);
      CreatesRows(p, CreateBounded(p, st, tenant, bs[0]).value, tenant, bs[1..]);
    }
  }

  lemma {:induction false} InsertLast(meta: seq<PartRow>, rows: seq<PartRow>, row: PartRow)
    ensures InsertAll(meta, rows + [row]) == InsertOrIgnore(InsertAll(meta, rows), row)
    decreases |rows|
  {
    hide InsertOrIgnore;
    if rows != [] {
      assert (rows + [row])[1..] == rows[1..] + [row];
      InsertLast(InsertOrIgnore(meta, rows[0]), rows[1..], row);
    }
  }

  /** A successful call inserts its rows, or ignores them. */
  lemma EnsureInserts(p: Parent, grid: Grid, st: Store, after: Store, now: Instant, tenant: Option<string>,
                      report: EnsureReport)
    requires EnsureStep(p, grid, st, after, now, tenant, None, report)
    ensures after.meta == InsertAll(st.meta, PlannedRows(p, grid, st.meta, now, tenant))
    ensures |PlannedRows(p, grid, st.meta, now, tenant)| == report.boundedCreated + if report.defaultCreated then 1 else 0
  {
    hide ToCreate, PartName, HasDefault, SplitFQ, InsertOrIgnore, RowsFor, Clash, FitsKey, DefaultHolds, Named, InsertAll;
    var todo := ToCreate(p, grid, st.meta, now, tenant);
    NothingInserted(st.meta);
    if todo != [] || !HasDefault(p, st.meta) {
      CreatesRows(p, st, tenant, todo);
      var mid := CreateAll(p, st, tenant, todo).value;
      InsertLast(st.meta, RowsFor(p, tenant, todo), DefaultRow(p));
    }
    assert RowsFor(p, tenant, todo) + [] == RowsFor(p, tenant, todo);
  }

  lemma NothingInserted(meta: seq<PartRow>)
    ensures InsertAll(meta, []) == meta
  {
  }

  /** The report of a successful call counts rows that are there, if and only if
      no planned row conflicts with another or with a row in the metadata;
      otherwise it counts more than came. */
  lemma ReportCountsIff(p: Parent, grid: Grid, st: Store, after: Store, now: Instant, tenant: Option<string>,
                        report: EnsureReport)
    requires EnsureStep(p, grid, st, after, now, tenant, None, report)
    ensures var reported := report.boundedCreated + if report.defaultCreated then 1 else 0;
      && |after.meta| <= |st.meta| + reported
      && (|after.meta| == |st.meta| + reported <==> Unobstructed(st.meta, PlannedRows(p, grid, st.meta, now, tenant)))
  {
    hide *;
    EnsureInserts(p, grid, st, after, now, tenant, report);
    AllComeIff(st.meta, PlannedRows(p, grid, st.meta, now, tenant));
  }

  /* ----- tenants that differ in case only ----- */

  lemma SameUpperSameName(p: Parent, a: string, b: string, w: Bounds)
    requires IsWord(a) && IsWord(b) && ToUpper(a) == ToUpper(b)
    ensures PartName(p, a, w, false) == PartName(p, b, w, false)
  {
    hide IsWord, ToUpper;
    assert a != "" && b != "" by { NotEmpty(a); NotEmpty(b); }
  }

  lemma NotEmpty(s: string)
    requires IsWord(s)
    ensures s != ""
  {
  }

  /** Once one spelling of a tenant has its partitions, a successful call for
      another spelling reports them all as created, and not one comes. */
  lemma TwinReport(p: Parent, grid: Grid, st: Store, after: Store, now: Instant, one: string, other: string,
                   report: EnsureReport)
    requires IsWord(one) && IsWord(other) && ToUpper(one) == ToUpper(other) && HasDefault(p, st.meta)
    requires forall b :: b in Windows(grid, now, p.premake + 1) ==>
      !HasActive(p, st.meta, Some(other), b) && exists r :: r in st.meta && PartName(p, one, b, false) == Ok(r.name)
    requires EnsureStep(p, grid, st, after, now, Some(other), None, report)
    ensures report.boundedCreated == |Windows(grid, now, p.premake + 1)| && after.meta == st.meta
  {
    hide PartName, Windows, HasActive, HasDefault, InsertAll, EnsureStep, IsWord, ToUpper;
    var windows := Windows(grid, now, p.premake + 1);
    FilterAll(windows, b => !HasActive(p, st.meta, Some(other), b));
    EnsureInserts(p, grid, st, after, now, Some(other), report);
    var rows := PlannedRows(p, grid, st.meta, now, Some(other));
    assert rows == RowsFor(p, Some(other), windows);
    forall i | 0 <= i < |rows|
      ensures Blocked(st.meta, rows[i])
    {
      assert windows[i] in windows;
      SameUpperSameName(p, one, other, windows[i]);
      var r :| r in st.meta && PartName(p, one, windows[i], false) == Ok(r.name);
      assert Conflicts(r, rows[i]);
    }
    NoneComes(st.meta, rows);
    NoDefaultReported(p, grid, st, after, now, Some(other), report);
  }

  lemma NoDefaultReported(p: Parent, grid: Grid, st: Store, after: Store, now: Instant, tenant: Option<string>,
                          report: EnsureReport)
    requires EnsureStep(p, grid, st, after, now, tenant, None, report)
    ensures report == EnsureReport(|ToCreate(p, grid, st.meta, now, tenant)|, !HasDefault(p, st.meta))
  {
    hide ToCreate, HasDefault, CreateTx;
  }

  lemma {:induction false} NoneComes(meta: seq<PartRow>, rows: seq<PartRow>)
    requires forall i :: 0 <= i < |rows| ==> Blocked(meta, rows[i])
    ensures InsertAll(meta, rows) == meta
    decreases |rows|
  {
    hide Blocked;
    if rows != [] {
      NoneComes(meta, rows[1..]);
    }
  }

  lemma {:induction false} FilterAll<T(!new)>(s: seq<T>, keep: T -> bool)
    requires forall x :: x in s ==> keep(x)
    ensures Filter(s, keep) == s
  {
    if s != [] {
      FilterAll(s[1..], keep);
    }
  }

  /* ----- the hours of a day ----- */

  lemma HourIsOfDay(t: Instant)
    ensures DayOf(PeriodOf(t, Hourly).from) == DayOf(t)
  {
    hide PeriodOf;
    HourWindow(t);
    HoursPerDay(t);
  }

  lemma HoursPerDay(t: int)
    ensures t / NS_PER_HOUR * NS_PER_HOUR / NS_PER_DAY == t / NS_PER_DAY
  {
    var d, c := t / NS_PER_DAY, t % NS_PER_DAY;
    assert t / NS_PER_HOUR == 24 * d + c / NS_PER_HOUR;
    assert t / NS_PER_HOUR * NS_PER_HOUR == NS_PER_DAY * d + c / NS_PER_HOUR * NS_PER_HOUR;
  }

  lemma SameDaySameDate(t: Instant, u: Instant)
    requires DayOf(t) == DayOf(u)
    ensures FormatDate(t) == FormatDate(u)
  {
  }

  lemma SameDaySameName(p: Parent, tenant: string, b: Bounds, c: Bounds)
    requires DayOf(b.from) == DayOf(c.from)
    ensures PartName(p, tenant, b, false) == PartName(p, tenant, c, false)
  {
    hide IsWord, FormatDate, DayOf, ToUpper;
    SameDaySameDate(b.from, c.from);
  }

  /** Whenever a call for an hourly parent sets out to create two hours of one
      day, it reports more than it records. */
  lemma HoursOvercounted(p: Parent, st: Store, after: Store, now: Instant, tenant: Option<string>, report: EnsureReport,
                         t: Instant, u: Instant)
    requires EnsureStep(p, CalendarGrid(Hourly), st, after, now, tenant, None, report)
    requires DayOf(t) == DayOf(u) && PeriodOf(t, Hourly) != PeriodOf(u, Hourly)
    requires PeriodOf(t, Hourly) in ToCreate(p, CalendarGrid(Hourly), st.meta, now, tenant)
    requires PeriodOf(u, Hourly) in ToCreate(p, CalendarGrid(Hourly), st.meta, now, tenant)
    ensures |after.meta| < |st.meta| + report.boundedCreated + if report.defaultCreated then 1 else 0
  {
    hide PeriodOf, PartName, ToCreate, EnsureStep, HasDefault, CalendarGrid, DayOf, InsertAll;
    ReportCountsIff(p, CalendarGrid(Hourly), st, after, now, tenant, report);
    HourIsOfDay(t);
    HourIsOfDay(u);
    SameDaySameName(p, TextOf(tenant), PeriodOf(t, Hourly), PeriodOf(u, Hourly));
    var todo := ToCreate(p, CalendarGrid(Hourly), st.meta, now, tenant);
    var i :| 0 <= i < |todo| && todo[i] == PeriodOf(t, Hourly);
    var j :| 0 <= j < |todo| && todo[j] == PeriodOf(u, Hourly);
    var rows := PlannedRows(p, CalendarGrid(Hourly), st.meta, now, tenant);
    assert rows[i].name == rows[j].name;
    assert Conflicts(rows[i], rows[j]) && Conflicts(rows[j], rows[i]);
  }

  /* ----- names the server clips ----- */

  /** Within the years 0 to 9999, a tenant's windows have tables of their own if
      and only if the table's name has room for the date. */
  lemma TablesDifferIff(p: Parent, tenant: string)
    ensures (forall b: Bounds, c: Bounds ::
               0 <= YearAt(b.from) <= 9999 && 0 <= YearAt(c.from) <= 9999 && DayOf(b.from) != DayOf(c.from) ==>
                 Clip(TableOf(PartOf(p, tenant, b, false))) != Clip(TableOf(PartOf(p, tenant, c, false))))
            <==> |Stem(p.table, tenant)| + 9 <= NAME_LIMIT
  {
    hide FormatDate, YearAt, DayOf, Stem;
    if |Stem(p.table, tenant)| + 9 <= NAME_LIMIT {
      forall b: Bounds, c: Bounds
        | 0 <= YearAt(b.from) <= 9999 && 0 <= YearAt(c.from) <= 9999 && DayOf(b.from) != DayOf(c.from)
        ensures Clip(TableOf(PartOf(p, tenant, b, false))) != Clip(TableOf(PartOf(p, tenant, c, false)))
      {
        DatedTablesDiffer(Stem(p.table, tenant), b.from, c.from);
      }
    } else {
      var b, c := Bounds(0, 0), Bounds(NS_PER_DAY, NS_PER_DAY);
      FirstDays();
      ClippedAlike(Stem(p.table, tenant), FormatDate(0), FormatDate(NS_PER_DAY));
      assert Clip(TableOf(PartOf(p, tenant, b, false))) == Clip(TableOf(PartOf(p, tenant, c, false)));
    }
  }

  lemma DatedTablesDiffer(stem: string, t: Instant, u: Instant)
    requires 0 <= YearAt(t) <= 9999 && 0 <= YearAt(u) <= 9999 && DayOf(t) != DayOf(u) && |stem| + 9 <= NAME_LIMIT
    ensures Clip(stem + "_" + FormatDate(t)) == stem + "_" + FormatDate(t)
    ensures Clip(stem + "_" + FormatDate(t)) != Clip(stem + "_" + FormatDate(u))
  {
    hide FormatDate, YearAt, DayOf;
    FormatDateLength(t);
    FormatDateLength(u);
    if FormatDate(t) == FormatDate(u) {
      FormatDateInjective(t, u);
    } else {
      assert (stem + "_" + FormatDate(t))[|stem| + 1..] == FormatDate(t);
      assert (stem + "_" + FormatDate(u))[|stem| + 1..] == FormatDate(u);
    }
  }

  /** The first two days of the year 0 are written alike but for the last
      digit. */
  lemma FirstDays()
    ensures YearAt(0) == YearAt(NS_PER_DAY) == 0 && DayOf(0) != DayOf(NS_PER_DAY)
    ensures |FormatDate(0)| == |FormatDate(NS_PER_DAY)| == 8 && FormatDate(0)[..7] == FormatDate(NS_PER_DAY)[..7]
  {
    hide MonthOf, Fixed;
    assert MonthStart(0) == 0 && MonthLength(0) == 31;
    PartsOfDate(0, 1, 0);
    PartsOfDate(0, 2, 0);
    hide MonthStart, MonthLength, DayOf;
    LastDigit(FormatYear(0) + Fixed(1, 2), 1, 2);
  }

  lemma LastDigit(front: string, m: nat, n: nat)
    requires m < 10 && n < 10
    ensures (front + Fixed(m, 2))[..|front| + 1] == (front + Fixed(n, 2))[..|front| + 1]
  {
    hide Fixed, DigitChar;
    OneDigit(m);
    OneDigit(n);
    assert (front + Fixed(m, 2))[..|front| + 1] == front + "0" && (front + Fixed(n, 2))[..|front| + 1] == front + "0";
  }

  lemma OneDigit(n: nat)
    requires n < 10
    ensures Fixed(n, 2)[0] == '0'
  {
    assert Fixed(n, 2) == Fixed(0, 1) + [DigitChar(n)];
  }

  lemma ClippedAlike(stem: string, a: string, b: string)
    requires |stem| + 9 > NAME_LIMIT && |a| == |b| == 8 && a[..7] == b[..7]
    ensures Clip(stem + "_" + a) == Clip(stem + "_" + b)
  {
    var x, y := stem + "_" + a, stem + "_" + b;
    assert x[..|stem| + 8] == stem + "_" + a[..7] && y[..|stem| + 8] == stem + "_" + b[..7];
    assert x[..NAME_LIMIT] == x[..|stem| + 8][..NAME_LIMIT] && y[..NAME_LIMIT] == y[..|stem| + 8][..NAME_LIMIT];
  }

  /** A bounded partition whose row comes has the table its row speaks of, if and
      only if the clipped name was free or that very partition's.  Otherwise the
      statement does nothing without an error, and the row is active under
      another's table. */
  lemma TableIsOwnIff(p: Parent, st: Store, next: Store, tenant: Option<string>, b: Bounds, fq: string)
    requires PartName(p, TextOf(tenant), b, false) == Ok(fq) && (TextOf(tenant) == "" ==> tenant == None)
    requires CreateBounded(p, st, tenant, b) == Some(next) && !Blocked(st.meta, BoundedRow(p, tenant, b, fq))
    ensures next.meta == st.meta + [BoundedRow(p, tenant, b, fq)]
    ensures Placed(p, next.tables, BoundedRow(p, tenant, b, fq))
      <==> IdOf(fq) !in st.tables || st.tables[IdOf(fq)] == Ranged(p.id, tenant, b)
    ensures IdOf(fq) in st.tables ==> next.tables == st.tables
  {
    hide PartName, Blocked, TableOf, Clip, Clash, Fits;
    PartNameSplits(p, TextOf(tenant), b, false);
  }
}
