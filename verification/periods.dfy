/** Partition periods: the half-open UTC windows that partitions cover. */
module Periods {
  import opened Wrappers
  import opened Calendar

  /** The half-open range [from, to). */
  datatype Bounds = Bounds(from: Instant, to: Instant) {
    predicate Contains(t: Instant) { from <= t < to }
  }

  predicate Disjoint(a: Bounds, b: Bounds) { a.to <= b.from || b.to <= a.from }

  datatype Kind = Hourly | Daily | Weekly | Monthly

  /** The interval constants callers pass; the month is a sentinel, not a length. */
  function IntervalOf(k: Kind): int {
    match k
    case Hourly => NS_PER_HOUR
    case Daily => NS_PER_DAY
    case Weekly => 7 * NS_PER_DAY
    case Monthly => 30 * NS_PER_DAY
  }

  function KindFromDuration(interval: int): Option<Kind> {
    if interval == IntervalOf(Hourly) then Some(Hourly)
    else if interval == IntervalOf(Daily) then Some(Daily)
    else if interval == IntervalOf(Weekly) then Some(Weekly)
    else if interval == IntervalOf(Monthly) then Some(Monthly)
    else None
  }

  /** The interval stored with a parent. */
  function KindFromLabel(interval: string): Option<Kind> {
    if interval == "hourly" then Some(Hourly)
    else if interval == "daily" then Some(Daily)
    else if interval == "weekly" then Some(Weekly)
    else if interval == "monthly" then Some(Monthly)
    else None
  }

  function FloorUTC(t: Instant, k: Kind): Instant {
    match k
    case Hourly => Date(MonthAt(t), DayOfMonth(t), ClockOf(t) / NS_PER_HOUR * NS_PER_HOUR)
    case Daily => Date(MonthAt(t), DayOfMonth(t), 0)
    case Weekly =>
      var daysSinceMonday := (Weekday(DayOf(t)) + 6) % 7;
      AddDate(Date(MonthAt(t), DayOfMonth(t), 0), 0, -daysSinceMonday)
    case Monthly => Date(MonthAt(t), 1, 0)
  }

  function NextUTC(from: Instant, k: Kind): Instant {
    match k
    case Hourly => from + NS_PER_HOUR
    case Daily => AddDate(from, 0, 1)
    case Weekly => AddDate(from, 0, 7)
    case Monthly => AddDate(from, 1, 0)
  }

  /** The window of kind `k` that contains `t`. */
  function PeriodOf(t: Instant, k: Kind): Bounds {
    var from := FloorUTC(t, k);
    Bounds(from, NextUTC(from, k))
  }

  function BoundsFor(t: Instant, interval: int): Option<Bounds> {
    match KindFromDuration(interval)
    case None => None
    case Some(k) => Some(PeriodOf(t, k))
  }

  /* ----- the windows, kind by kind ----- */

  /** Hours are counted from the origin, so they never straddle midnight. */
  lemma HourWindow(t: Instant)
    ensures var h := t / NS_PER_HOUR;
      PeriodOf(t, Hourly) == Bounds(h * NS_PER_HOUR, h * NS_PER_HOUR + NS_PER_HOUR)
  {
    assert ClockOf(t) / NS_PER_HOUR == t / NS_PER_HOUR - 24 * DayOf(t);
  }

  /** A day runs from midnight to midnight. */
  lemma DayWindow(t: Instant)
    ensures PeriodOf(t, Daily) == Bounds(DayOf(t) * NS_PER_DAY, (DayOf(t) + 1) * NS_PER_DAY)
  {
  }

  /** Weekdays repeat every seven days, and day 2 was a Monday. */
  lemma {:induction false} WeekdayFormula(day: int)
    ensures Weekday(day) == (day + 6) % 7
    decreases if day < 0 then 7 - day else day
  {
    if day < 0 {
      WeekdayFormula(day + 7);
    } else if day >= 7 {
      WeekdayFormula(day - 7);
    }
  }

  function MondayOf(day: int): int { day - (Weekday(day) + 6) % 7 }

  /** The Monday of a day is a Monday, and the only one of its seven days. */
  lemma MondayIsMonday(day: int, d: int)
    requires MondayOf(day) <= d < MondayOf(day) + 7
    ensures MondayOf(day) <= day < MondayOf(day) + 7
    ensures Weekday(d) == 1 <==> d == MondayOf(day)
    ensures MondayOf(d) == MondayOf(day)
  {
    hide Weekday;
    WeekdayFormula(day);
    WeekdayFormula(d);
    MondayFormula(day);
    MondayFormula(d);
    var k := (day + 5) / 7;
    assert 7 * k - 5 <= d < 7 * k + 2;
    assert (d + 5) / 7 == k;
    SundayFirst(d);
  }

  /** Mondays are seven days apart. */
  lemma MondayFormula(day: int)
    ensures MondayOf(day) == (day + 5) / 7 * 7 - 5
  {
    hide Weekday;
    WeekdayFormula(day);
    SundayFirst(day);
  }

  lemma SundayFirst(d: int)
    ensures ((d + 6) % 7 + 6) % 7 == (d + 5) % 7
    ensures (d + 6) % 7 == 1 <==> (d + 5) % 7 == 0
  {
  }

  /** A week is seven days from its Monday. */
  lemma WeekWindow(t: Instant)
    ensures PeriodOf(t, Weekly) ==
      Bounds(MondayOf(DayOf(t)) * NS_PER_DAY, (MondayOf(DayOf(t)) + 7) * NS_PER_DAY)
  {
    hide Weekday, MonthOf, MonthStart;
    var monday := MondayOf(DayOf(t));
    assert Date(MonthAt(t), DayOfMonth(t), 0) == DayOf(t) * NS_PER_DAY;
    assert FloorUTC(t, Weekly) == monday * NS_PER_DAY;
  }

  /** A month runs from the 1st to the next 1st, whatever its length. */
  lemma MonthWindow(t: Instant)
    ensures var n := MonthAt(t);
      PeriodOf(t, Monthly) == Bounds(MonthStart(n) * NS_PER_DAY, MonthStart(n + 1) * NS_PER_DAY)
  {
    PartsOfDate(MonthAt(t), 1, 0);
  }

  /** The window of an instant by the label of its parent, counted on the
      calendar; the labels are the four a registration accepts. */
  function WindowFor(interval: string, t: Instant): Option<Bounds> {
    var h, d := t / 3_600_000_000_000, t / 86_400_000_000_000;
    if interval == "hourly" then Some(Bounds(h * 3_600_000_000_000, (h + 1) * 3_600_000_000_000))
    else if interval == "daily" then Some(Bounds(d * 86_400_000_000_000, (d + 1) * 86_400_000_000_000))
    else if interval == "weekly" then Some(Bounds(MondayOf(d) * 86_400_000_000_000, (MondayOf(d) + 7) * 86_400_000_000_000))
    else if interval == "monthly" then
      Some(Bounds(MonthStart(MonthOf(d)) * 86_400_000_000_000, MonthStart(MonthOf(d) + 1) * 86_400_000_000_000))
    else None
  }

  /** The kind a label names computes these windows. */
  lemma LabelWindow(interval: string, t: Instant)
    ensures WindowFor(interval, t)
         == match KindFromLabel(interval)
            case None => None
            case Some(k) => Some(PeriodOf(t, k))
  {
    hide PeriodOf, MondayOf, MonthOf, MonthStart;
    HourWindow(t);
    DayWindow(t);
    WeekWindow(t);
    MonthWindow(t);
  }

  /** A call's interval is known exactly if it is an hour, or 1, 7 or 30 days long;
      the last stands for a calendar month. */
  lemma DurationWindow(interval: int, t: Instant)
    ensures BoundsFor(t, interval)
         == if interval == 3_600_000_000_000 then WindowFor("hourly", t)
            else if interval == 86_400_000_000_000 then WindowFor("daily", t)
            else if interval == 604_800_000_000_000 then WindowFor("weekly", t)
            else if interval == 2_592_000_000_000_000 then WindowFor("monthly", t)
            else None
  {
    hide PeriodOf, WindowFor;
    LabelWindow("hourly", t);
    LabelWindow("daily", t);
    LabelWindow("weekly", t);
    LabelWindow("monthly", t);
  }

  /* ----- tilings ----- */

  /** A grid assigns a window to every instant. */
  type Grid = Instant -> Bounds

  /** The windows of a grid cut time into pieces: an instant lies in a window
      exactly when that window is its own. */
  ghost predicate Tiling(grid: Grid) {
    forall t, u :: grid(t).Contains(u) <==> grid(u) == grid(t)
  }

  function CalendarGrid(k: Kind): Grid { t => PeriodOf(t, k) }

  /** Every kind of period tiles all of time, leap years and instants before
      the origin included: the SQL test on [from, to) selects exactly the
      instants whose own window that is. */
  lemma CalendarTiles(k: Kind)
    ensures Tiling(CalendarGrid(k))
  {
    var grid := CalendarGrid(k);
    forall t, u ensures grid(t).Contains(u) <==> grid(u) == grid(t) {
      RangeIsWindow(t, u, k);
    }
  }

  /** BoundsFor contains its instant, and every instant in the window, and no
      other, has the same one; it fails only for an unknown interval. */
  lemma BoundsForTiles(t: Instant, u: Instant, interval: int)
    ensures BoundsFor(t, interval).None? <==> forall k :: interval != IntervalOf(k)
    ensures BoundsFor(t, interval).Some? ==>
      var b := BoundsFor(t, interval).value;
      b.Contains(t) && (b.Contains(u) <==> BoundsFor(u, interval) == Some(b))
  {
    hide PeriodOf;
    if KindFromDuration(interval).Some? {
      var k := KindFromDuration(interval).value;
      assert interval == IntervalOf(k);
      RangeIsWindow(t, t, k);
      RangeIsWindow(t, u, k);
    }
  }

  lemma WeekTiles(day: int, d: int)
    ensures MondayOf(day) <= d < MondayOf(day) + 7 <==> MondayOf(d) == MondayOf(day)
  {
    MondayIsMonday(d, MondayOf(d));
    if MondayOf(day) <= d < MondayOf(day) + 7 {
      MondayIsMonday(day, d);
    }
  }

  /** An instant lies between two midnights when its day does. */
  lemma DayRange(a: int, b: int, u: Instant)
    ensures Bounds(a * NS_PER_DAY, b * NS_PER_DAY).Contains(u) <==> a <= DayOf(u) < b
  {
  }

  lemma RangeIsWindow(t: Instant, u: Instant, k: Kind)
    ensures PeriodOf(t, k).Contains(u) <==> PeriodOf(u, k) == PeriodOf(t, k)
  {
    hide FloorUTC, NextUTC, PeriodOf, MondayOf, MonthOf, MonthStart, DayOf;
    match k
    case Hourly => HourWindow(t); HourWindow(u);
    case Daily =>
      DayWindow(t);
      DayWindow(u);
      DayRange(DayOf(t), DayOf(t) + 1, u);
    case Weekly =>
      WeekWindow(t);
      WeekWindow(u);
      DayRange(MondayOf(DayOf(t)), MondayOf(DayOf(t)) + 7, u);
      WeekTiles(DayOf(t), DayOf(u));
    case Monthly =>
      MonthWindow(t);
      MonthWindow(u);
      DayRange(MonthStart(MonthAt(t)), MonthStart(MonthAt(t) + 1), u);
      MonthTiles(DayOf(u), MonthAt(t));
  }

  lemma MonthTiles(day: int, n: int)
    ensures MonthStart(n) <= day < MonthStart(n + 1) <==> MonthStart(MonthOf(day)) == MonthStart(n)
    ensures MonthStart(n) <= day < MonthStart(n + 1) ==> MonthOf(day) == n
  {
    var m := MonthOf(day);
    if MonthStart(n) <= day < MonthStart(n + 1) {
      MonthOfUnique(day, n);
    } else if m < n {
      MonthStartMonotone(m, n);
    } else if n < m {
      MonthStartMonotone(n, m);
    }
  }

  /** Daily, weekly and monthly windows start and end at midnight. */
  lemma WindowAtMidnight(t: Instant, k: Kind)
    requires k != Hourly
    ensures IsMidnight(PeriodOf(t, k).from) && IsMidnight(PeriodOf(t, k).to)
  {
    hide FloorUTC, NextUTC, PeriodOf, MondayOf, MonthOf, MonthStart;
    match k
    case Daily => DayWindow(t);
    case Weekly => WeekWindow(t);
    case Monthly => MonthWindow(t);
  }

  /** Two windows of a tiling are the same window or do not overlap. */
  lemma EqualOrDisjoint(grid: Grid, t: Instant, u: Instant)
    requires Tiling(grid)
    ensures grid(t) == grid(u) || Disjoint(grid(t), grid(u))
  {
    var a, b := grid(t), grid(u);
    assert a.Contains(t) && b.Contains(u);
    if !Disjoint(a, b) {
      var both := if a.from <= b.from then b.from else a.from;
      assert grid(both) == a && grid(both) == b;
    }
  }

  /** Windows follow each other without a gap, and each is the window of its
      own start. */
  lemma WindowsAbut(grid: Grid, t: Instant)
    requires Tiling(grid)
    ensures grid(grid(t).from) == grid(t)
    ensures grid(grid(t).to).from == grid(t).to
    ensures grid(t).from < grid(t).to
  {
    assert grid(t).Contains(t);
    assert grid(t).Contains(grid(t).from);
    var to := grid(t).to;
    assert grid(to).Contains(to);
    EqualOrDisjoint(grid, t, to);
  }

  /** `count` consecutive windows, the first being that of `t`. */
  function Windows(grid: Grid, t: Instant, count: int): seq<Bounds>
    decreases if count <= 0 then 0 else count
  {
    if count <= 0 then [] else [grid(t)] + Windows(grid, grid(t).to, count - 1)
  }

  /** Consecutive windows are windows of the grid, abut, and start with the
      window of `t`. */
  lemma {:induction false} WindowsTile(grid: Grid, t: Instant, count: int)
    requires Tiling(grid) && count >= 0
    ensures var w := Windows(grid, t, count);
      && |w| == count
      && (count > 0 ==> w[0] == grid(t))
      && (forall i :: 0 <= i < count ==> w[i] == grid(w[i].from))
      && (forall i :: 0 <= i < count - 1 ==> w[i].to == w[i + 1].from)
    decreases count
  {
    if count > 0 {
      WindowsAbut(grid, t);
      WindowsTile(grid, grid(t).to, count - 1);
    }
  }

  /** Consecutive windows leave no instant between them uncovered. */
  lemma {:induction false} WindowsCover(grid: Grid, t: Instant, count: int, u: Instant)
    requires Tiling(grid) && count > 0
    requires grid(t).from <= u
    requires |Windows(grid, t, count)| == count && u < Windows(grid, t, count)[count - 1].to
    ensures grid(u) in Windows(grid, t, count)
    decreases count
  {
    var w := Windows(grid, t, count);
    if u < grid(t).to {
      assert grid(t).Contains(u) && w[0] == grid(t);
    } else {
      WindowsAbut(grid, t);
      assert count > 1;
      assert w[1..] == Windows(grid, grid(t).to, count - 1);
      assert w[count - 1] == w[1..][count - 2];
      WindowsCover(grid, grid(t).to, count - 1, u);
    }
  }

  /** The step to the next period lands where the calendar's next window is. */
  lemma NextIsWindow(t: Instant, k: Kind)
    requires FloorUTC(t, k) == t
    ensures Bounds(t, NextUTC(t, k)) == PeriodOf(t, k)
    ensures FloorUTC(NextUTC(t, k), k) == NextUTC(t, k)
  {
    hide FloorUTC, NextUTC;
    CalendarTiles(k);
    WindowsAbut(CalendarGrid(k), t);
  }

  /** NextBoundsUTC: the window of `now` and the ones after it. */
  method NextBoundsUTC(now: Instant, interval: int, count: int) returns (r: Option<seq<Bounds>>)
    ensures count <= 0 ==> r == Some([])
    ensures count > 0 && KindFromDuration(interval).None? ==> r == None
    ensures count > 0 && KindFromDuration(interval).Some? ==>
      var k := KindFromDuration(interval).value;
      && r == Some(Windows(CalendarGrid(k), now, count))
      && |r.value| == count
      && r.value[0].Contains(now)
      && (forall i :: 0 <= i < count - 1 ==> r.value[i].to == r.value[i + 1].from)
  {
    hide FloorUTC, NextUTC;
    if count <= 0 {
      return Some([]);
    }
    match KindFromDuration(interval)
    case None => return None;
    case Some(k) =>
      var out: seq<Bounds> := [];
      ghost var grid := CalendarGrid(k);
      CalendarTiles(k);
      WindowsAbut(grid, now);
      var from := FloorUTC(now, k);
      ghost var rest := Windows(grid, now, count);
      assert rest == Windows(grid, from, count);
      for i := 0 to count
        invariant out + rest == Windows(grid, now, count)
        invariant rest == Windows(grid, from, count - i)
        invariant FloorUTC(from, k) == from
      {
        assert rest == [grid(from)] + Windows(grid, grid(from).to, count - i - 1);
        var to := NextUTC(from, k);
        NextIsWindow(from, k);
        out := out + [Bounds(from, to)];
        rest := rest[1..];
        from := to;
      }
      assert out == Windows(grid, now, count);
      WindowsTile(grid, now, count);
      return Some(out);
  }
}
