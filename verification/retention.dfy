/** Dropping, detaching or archiving the partitions that have expired. */
module Retention {
  import opened Wrappers
  import opened Calendar
  import opened Periods
  import opened Text
  import opened Naming
  import opened Metadata
  import opened Retry
  import opened Catalog

  /* ----- the cutoff ----- */

  /** Negation in 32 bits, which leaves the least value as it is. */
  function Negated32(x: Int32): int { if x == -0x8000_0000 then x else -x }

  /** How far a component really goes back. */
  function Back(x: Int32): int { -Negated32(x) }

  /** Months and days are negated in 32 bits and go back on the calendar;
      microseconds become a duration of 64 bits first. */
  function ComputeCutoff(now: Instant, period: Option<Interval>): Instant {
    match period
    case None => now
    case Some(iv) =>
      var a := if iv.months != 0 then AddDate(now, Negated32(iv.months), 0) else now;
      var b := if iv.days != 0 then AddDate(a, 0, Negated32(iv.days)) else a;
      if iv.micros != 0 then b + Wrap64(iv.micros * -1000) else b
  }

  /** The duration that is added for the microseconds. */
  function Drift(iv: Interval): int { Wrap64(iv.micros * -1000) }

  /** The cutoff is the date so many months before, moved by a constant. */
  lemma CutoffIs(now: Instant, iv: Interval)
    ensures ComputeCutoff(now, Some(iv))
         == now - (Span(MonthAt(now) - Back(iv.months), Back(iv.months)) + Back(iv.days)) * NS_PER_DAY + Drift(iv)
  {
    hide MonthAt, MonthStart, AddDate;
    MonthsBack(now, Back(iv.months));
    DaysBack(if iv.months != 0 then AddDate(now, Negated32(iv.months), 0) else now, Back(iv.days));
    assert Wrap64(0) == 0;
  }

  /** A period that never puts the cutoff into the future. */
  predicate Reasonable(period: Option<Interval>) {
    period.Some? ==> Drift(period.value) <= (LeastDays(Back(period.value.months)) + Back(period.value.days)) * NS_PER_DAY
  }

  /** Nothing that ends after `now` has expired, even where a month is too short
      for the day and the date runs over into the next. */
  lemma CutoffNotAfterNow(now: Instant, period: Option<Interval>)
    requires Reasonable(period)
    ensures ComputeCutoff(now, period) <= now
  {
    hide ComputeCutoff, Span, LeastDays, Drift, MonthAt;
    match period {
      case None => NoPeriod(now);
      case Some(iv) =>
        CutoffIs(now, iv);
        LeastDaysIsLeast(Back(iv.months), MonthAt(now) - Back(iv.months));
    }
  }

  lemma NoPeriod(now: Instant)
    ensures ComputeCutoff(now, None) == now
  {
  }

  /** For every period, of whatever components: the cutoff is never after now
      exactly when the duration that comes out of 64 bits is no longer than the
      fewest days its months and days can take. */
  lemma CutoffNeverAheadIff(iv: Interval)
    ensures (forall now :: ComputeCutoff(now, Some(iv)) <= now) <==> Reasonable(Some(iv))
  {
    hide ComputeCutoff, Span, LeastDays, Drift;
    if Reasonable(Some(iv)) {
      forall now ensures ComputeCutoff(now, Some(iv)) <= now {
        CutoffNotAfterNow(now, Some(iv));
      }
    } else {
      var months := Back(iv.months);
      LeastDaysIsLeast(months, 0);
      var at :| Span(at, months) == LeastDays(months);
      var now := Date(at + months, 1, 0);
      PartsOfDate(at + months, 1, 0);
      CutoffIs(now, iv);
      assert ComputeCutoff(now, Some(iv)) > now;
    }
  }

  /** Components that are not negative and a duration that fits are
      reasonable. */
  lemma OrdinaryIsReasonable(iv: Interval)
    requires iv.months >= 0 && iv.days >= 0 && 0 <= iv.micros * 1000 <= TWO_63
    ensures Reasonable(Some(iv))
  {
    hide LeastSpan, MonthStart;
    var at := LeastSpanIsLeast(iv.months, 4800);
    MonthStartMonotone(at, at + iv.months);
  }

  /** What registering a parent stores of its Go duration: whole microseconds,
      truncated. */
  function StoredPeriod(d: Int64): Interval { Interval(0, 0, if d >= 0 then d / 1000 else -((0 - d) / 1000)) }

  /** It is the number of whole microseconds, towards zero. */
  lemma StoredPeriodIs(d: Int64)
    ensures var iv := StoredPeriod(d);
      && iv.months == 0 && iv.days == 0 && -1000 < d - 1000 * iv.micros < 1000
      && (d >= 0 ==> 0 <= 1000 * iv.micros <= d) && (d <= 0 ==> d <= 1000 * iv.micros <= 0)
  {
  }

  /** A registered period is reasonable exactly when it is not negative, to the
      microsecond; nothing in the code refuses one that is. */
  lemma RegisteredIsReasonableIff(d: Int64)
    ensures Reasonable(Some(StoredPeriod(d))) <==> d > -1000
  {
    var iv := StoredPeriod(d);
    if d > -1000 {
      OrdinaryIsReasonable(iv);
    } else {
      hide LeastSpan, MonthStart;
      var at := LeastSpanIsLeast(0, 4800);
      assert Drift(iv) == iv.micros * -1000;
    }
  }

  /** A row written with SQL can hold more: 2,562,048 hours put the cutoff into
      the future. */
  lemma LongPeriodIsAhead(now: Instant)
    ensures ComputeCutoff(now, Some(Interval(0, 0, 2_562_048 * 3_600_000_000))) > now
  {
  }

  /** The cutoff never goes back while the clock goes on, exactly when the months
      of the period make whole cycles of 400 years; otherwise it does, at the end
      of a month that is longer than the one the period leads to. */
  lemma CutoffMonotoneIff(iv: Interval)
    ensures (forall t, u :: t <= u ==> ComputeCutoff(t, Some(iv)) <= ComputeCutoff(u, Some(iv))) <==> iv.months % 4800 == 0
  {
    hide ComputeCutoff, Span, Drift, Back, MonthAt;
    BackInCycles(iv.months);
    if iv.months % 4800 == 0 {
      forall t, u | t <= u
        ensures ComputeCutoff(t, Some(iv)) <= ComputeCutoff(u, Some(iv))
      {
        CutoffIs(t, iv);
        CutoffIs(u, iv);
        WholeCycles(MonthAt(t), Back(iv.months));
        WholeCycles(MonthAt(u), Back(iv.months));
      }
    } else {
      var t, u := CutoffGoesBack(iv);
      assert ComputeCutoff(u, Some(iv)) < ComputeCutoff(t, Some(iv));
    }
  }

  lemma BackInCycles(x: Int32)
    ensures Back(x) % 4800 == 0 <==> x % 4800 == 0
  {
    if x != -0x8000_0000 {
      assert Back(x) == x;
    }
  }

  lemma WholeCycles(n: int, m: int)
    requires m % 4800 == 0
    ensures Span(n - m, m) == 146097 * (m / 4800)
  {
    hide MonthStart;
    MonthStartCycles(n - m, m / 4800);
  }

  /** Noon of the last day of a long month, and the midnight after it. */
  lemma CutoffGoesBack(iv: Interval) returns (t: Instant, u: Instant)
    requires iv.months % 4800 != 0
    ensures t < u && ComputeCutoff(u, Some(iv)) < ComputeCutoff(t, Some(iv))
  {
    hide ComputeCutoff, MonthLength, Drift, MonthOf;
    var n := UnevenMonths(Back(iv.months));
    t, u := Date(n, MonthLength(n), NS_PER_DAY / 2), Date(n + 1, 1, 0);
    PartsOfDate(n, MonthLength(n), NS_PER_DAY / 2);
    PartsOfDate(n + 1, 1, 0);
    NextMonth(n);
    NextMonth(n - Back(iv.months));
    hide MonthStart;
    CutoffIs(t, iv);
    CutoffIs(u, iv);
  }

  lemma NextMonth(n: int)
    ensures MonthStart(n + 1) == MonthStart(n) + MonthLength(n)
  {
  }

  /* ----- candidates and fates ----- */

  datatype Decision = HookDrop | HookDetach | HookArchive | HookSkip | Unrecognized

  /** What a sweep reports of a candidate. */
  datatype Fate = WasDropped | WasDetached | WasArchived | WasSkipped

  /** The hook, if any, by candidate and by what it is shown. */
  type Hook = Option<(nat, PartitionRef) -> Decision>

  datatype SweepReport = SweepReport(dropped: seq<PartitionRef>, detached: seq<PartitionRef>,
                                     archived: seq<PartitionRef>, skipped: seq<PartitionRef>,
                                     considered: nat, dryRun: bool)

  predicate IsExpired(p: Parent, cutoff: Instant, r: PartRow) {
    r.parentId == p.id && r.bounds.to <= cutoff && !r.isDefault && r.status == Active
  }

  /** ListExpiredPartitions, before ordering. */
  function Expired(p: Parent, meta: seq<PartRow>, cutoff: Instant): seq<PartRow> {
    Filter(meta, (r: PartRow) => IsExpired(p, cutoff, r))
  }

  function BuildPartitionRef(p: Parent, row: PartRow): PartitionRef {
    match SplitFQ(row.name)
    case None => PartitionRef(ZERO_BOUNDS, "", "", "", false)
    case Some(id) => PartitionRef(row.bounds, id.schema, p.table, TextOf(row.tenant), row.isDefault)
  }

  function DecisionFor(p: Parent, hook: Hook, i: nat, row: PartRow): Decision {
    if hook.None? then HookDrop else hook.value(i, BuildPartitionRef(p, row))
  }

  /** The fate a candidate is headed for. */
  function Intent(p: Parent, row: PartRow, d: Decision): Fate {
    if SplitFQ(row.name).None? then WasSkipped
    else match d
      case HookDrop => WasDropped
      case HookDetach => WasDetached
      case HookArchive => if HasArchive(p) then WasArchived else WasSkipped
      case HookSkip => WasSkipped
      case Unrecognized => WasSkipped
  }

  /** The transaction of applyDecision; None when a statement is refused. */
  function ApplyDecision(p: Parent, st: Store, row: PartRow, d: Decision): Option<Store> {
    match SplitFQ(row.name)
    case None => None
    case Some(id) => (
      match d
      case HookDrop => Update(st, DropTable(st.tables, id), row.name, Status.Dropped)
      case HookDetach => Update(st, DetachPartition(p, st.tables, id), row.name, Status.Detached)
      case HookArchive =>
        var loose := DetachPartition(p, st.tables, id);
        if loose.None? || p.archiveSchema.None? then None
        else Update(st, SetSchema(loose.value, id, p.archiveSchema.value), row.name, Status.Detached)
      case HookSkip => None
      case Unrecognized => None)
  }

  function Update(st: Store, tables: Option<map<TableId, Attachment>>, name: string, status: Status): Option<Store> {
    if tables.None? then None else Some(st.(meta := MarkPartition(st.meta, name, status), tables := tables.value))
  }

  /** A real sweep's effect on one candidate, whose transaction gets through or
      not. */
  function SweepOne(p: Parent, st: Store, row: PartRow, d: Decision, goes: bool): (Store, Fate) {
    var intent := Intent(p, row, d);
    var next := ApplyDecision(p, st, row, d);
    if intent == WasSkipped || !goes || next.None? then (st, WasSkipped) else (next.value, intent)
  }

  /** A real sweep's effect on all candidates, one after the other. */
  function SweepAll(p: Parent, st: Store, rows: seq<PartRow>, hook: Hook, goes: nat -> bool): (r: (Store, seq<Fate>))
    ensures |r.1| == |rows|
  {
    if rows == [] then (st, [])
    else
      var n := |rows| - 1;
      var before := SweepAll(p, st, rows[..n], hook, goes);
      var now := SweepOne(p, before.0, rows[n], DecisionFor(p, hook, n, rows[n]), goes(n));
      (now.0, before.1 + [now.1])
  }

  /** The fates a dry run reports. */
  function Intents(p: Parent, rows: seq<PartRow>, hook: Hook): (fates: seq<Fate>)
    ensures |fates| == |rows|
    ensures forall i :: 0 <= i < |rows| ==> fates[i] == Intent(p, rows[i], DecisionFor(p, hook, i, rows[i]))
  {
    seq(|rows|, i requires 0 <= i < |rows| => Intent(p, rows[i], DecisionFor(p, hook, i, rows[i])))
  }

  /** The candidates of one fate, in order. */
  function Chosen(p: Parent, rows: seq<PartRow>, fates: seq<Fate>, f: Fate): seq<PartitionRef>
    requires |fates| == |rows|
  {
    if rows == [] then []
    else
      var n := |rows| - 1;
      Chosen(p, rows[..n], fates[..n], f) + if fates[n] == f then [BuildPartitionRef(p, rows[n])] else []
  }

  function ReportOf(p: Parent, rows: seq<PartRow>, fates: seq<Fate>, considered: nat, dryRun: bool): SweepReport
    requires |fates| == |rows|
  {
    SweepReport(Chosen(p, rows, fates, WasDropped), Chosen(p, rows, fates, WasDetached),
                Chosen(p, rows, fates, WasArchived), Chosen(p, rows, fates, WasSkipped), considered, dryRun)
  }

  /** A sweep of the candidates in the order they are listed. */
  predicate Swept(p: Parent, st: Store, after: Store, rows: seq<PartRow>, dryRun: bool, hook: Hook,
                  goes: nat -> bool, report: SweepReport)
  {
    if dryRun then after == st && report == ReportOf(p, rows, Intents(p, rows, hook), |rows|, true)
    else
      var r := SweepAll(p, st, rows, hook, goes);
      after == r.0 && report == ReportOf(p, rows, r.1, |rows|, false)
  }

  /** A whole sweep: candidates in some order by the start of their range. */
  ghost predicate SweepStep(p: Parent, st: Store, after: Store, now: Instant, dryRun: bool, hook: Hook,
                            goes: nat -> bool, report: SweepReport)
  {
    exists rows :: Lists(Expired(p, st.meta, ComputeCutoff(now, p.retention)), rows)
                   && Swept(p, st, after, rows, dryRun, hook, goes, report)
  }

  /** A sweep that ends early, in a hook that panics: the candidates before it
      are settled. */
  ghost predicate SweepCut(p: Parent, st: Store, after: Store, now: Instant, dryRun: bool, hook: Hook, goes: nat -> bool) {
    exists rows, n: nat :: Lists(Expired(p, st.meta, ComputeCutoff(now, p.retention)), rows)
                           && SweptUpTo(p, st, after, rows, n, dryRun, hook, goes)
  }

  predicate SweptUpTo(p: Parent, st: Store, after: Store, rows: seq<PartRow>, n: nat, dryRun: bool, hook: Hook,
                      goes: nat -> bool) {
    n < |rows| && SplitFQ(rows[n].name).Some? && after == if dryRun then st else SweepAll(p, st, rows[..n], hook, goes).0
  }

  /** Puts one candidate in the list of its fate. */
  function Filed(report: SweepReport, ref: PartitionRef, f: Fate): SweepReport {
    match f
    case WasDropped => report.(dropped := report.dropped + [ref])
    case WasDetached => report.(detached := report.detached + [ref])
    case WasArchived => report.(archived := report.archived + [ref])
    case WasSkipped => report.(skipped := report.skipped + [ref])
  }

  lemma FiledReport(p: Parent, rows: seq<PartRow>, fates: seq<Fate>, i: nat, f: Fate, considered: nat, dryRun: bool)
    requires |fates| == i < |rows|
    ensures ReportOf(p, rows[..i + 1], fates + [f], considered, dryRun)
         == Filed(ReportOf(p, rows[..i], fates, considered, dryRun), BuildPartitionRef(p, rows[i]), f)
  {
    assert rows[..i + 1][..i] == rows[..i] && (fates + [f])[..i] == fates;
  }

  /** Which candidates' transactions get through. */
  function Through(attempt: nat -> nat -> Attempt, cancelled: nat -> nat -> bool): nat -> bool {
    (i: nat) => GoesThrough(attempt(i), cancelled(i))
  }

  /** The next candidate of a real sweep. */
  lemma SweepNext(p: Parent, st: Store, rows: seq<PartRow>, hook: Hook, goes: nat -> bool, i: nat)
    requires i < |rows|
    ensures var before := SweepAll(p, st, rows[..i], hook, goes);
      var one := SweepOne(p, before.0, rows[i], DecisionFor(p, hook, i, rows[i]), goes(i));
      SweepAll(p, st, rows[..i + 1], hook, goes) == (one.0, before.1 + [one.1])
  {
    assert rows[..i + 1][..i] == rows[..i];
  }

  /** The next candidate of a dry run. */
  lemma IntentsNext(p: Parent, rows: seq<PartRow>, hook: Hook, i: nat)
    requires i < |rows|
    ensures Intents(p, rows[..i + 1], hook)
         == Intents(p, rows[..i], hook) + [Intent(p, rows[i], DecisionFor(p, hook, i, rows[i]))]
  {
  }

  /** The hook panics for none of the candidates it is asked about. */
  predicate NonePanics(rows: seq<PartRow>, hook: Hook, hookPanics: nat -> bool) {
    forall i :: 0 <= i < |rows| && hook.Some? && SplitFQ(rows[i].name).Some? ==> !hookPanics(i)
  }

  lemma NonePanicsNext(rows: seq<PartRow>, i: nat, hook: Hook, hookPanics: nat -> bool)
    requires i < |rows| && NonePanics(rows[..i], hook, hookPanics)
    requires !(SplitFQ(rows[i].name).Some? && hook.Some? && hookPanics(i))
    ensures NonePanics(rows[..i + 1], hook, hookPanics)
  {
    hide SplitFQ;
  }

  lemma NonePanicsFirst(hook: Hook, hookPanics: nat -> bool)
    ensures NonePanics([], hook, hookPanics)
  {
  }

  /** Sweep.  A panic of the hook passes through it. */
  method Sweep(db: Database, p: Parent, now: Instant, dryRun: bool, hook: Hook, hookPanics: nat -> bool, queryFails: bool,
               attempt: nat -> nat -> Attempt, cancelled: nat -> nat -> bool)
    returns (ok: bool, panicked: bool, report: SweepReport)
    modifies db
    ensures queryFails ==>
      !ok && !panicked && db.Stored() == old(db.Stored()) && report == SweepReport([], [], [], [], 0, dryRun)
    ensures !queryFails ==> ok == !panicked
    ensures panicked ==>
      hook.Some? && (exists i :: hookPanics(i))
      && SweepCut(p, old(db.Stored()), db.Stored(), now, dryRun, hook, Through(attempt, cancelled))
    ensures ok ==>
      SweepStep(p, old(db.Stored()), db.Stored(), now, dryRun, hook, Through(attempt, cancelled), report)
    ensures ok ==> exists rows :: Lists(Expired(p, old(db.meta), ComputeCutoff(now, p.retention)), rows)
                                  && NonePanics(rows, hook, hookPanics)
  {
    hide GoesThrough, ReportOf, ComputeCutoff, Expired, Lists, SweepOne, DecisionFor, Intent, BuildPartitionRef, Filed;
    report := SweepReport([], [], [], [], 0, dryRun);
    if queryFails {
      return false, false, report;
    }
    var cutoff := ComputeCutoff(now, p.retention);
    var rows := OrderByFrom(Expired(p, db.meta, cutoff));
    report := SweepReport([], [], [], [], |rows|, dryRun);
    ghost var goes := Through(attempt, cancelled);
    ghost var st := db.Stored();
    ghost var fates: seq<Fate> := [];
    EmptyReport(p, |rows|, dryRun);
    NonePanicsFirst(hook, hookPanics);
    assert rows[..0] == [];
    hide SweepAll, Intents, NonePanics, SplitFQ;
    for i := 0 to |rows|
      invariant |fates| == i && report == ReportOf(p, rows[..i], fates, |rows|, dryRun)
      invariant NonePanics(rows[..i], hook, hookPanics)
      invariant dryRun ==> db.Stored() == st && fates == Intents(p, rows[..i], hook)
      invariant !dryRun ==> (db.Stored(), fates) == SweepAll(p, st, rows[..i], hook, goes)
    {
      var row := rows[i];
      if SplitFQ(row.name).Some? && hook.Some? && hookPanics(i) {
        assert SweptUpTo(p, st, db.Stored(), rows, i, dryRun, hook, goes);
        return false, true, SweepReport([], [], [], [], 0, dryRun);
      }
      NonePanicsNext(rows, i, hook, hookPanics);
      SweepNext(p, st, rows, hook, goes, i);
      IntentsNext(p, rows, hook, i);
      var f := SweepCandidate(db, p, row, i, dryRun, hook, attempt(i), cancelled(i));
      FiledReport(p, rows, fates, i, f, |rows|, dryRun);
      report := Filed(report, BuildPartitionRef(p, row), f);
      fates := fates + [f];
    }
    assert rows[..|rows|] == rows;
    assert Swept(p, st, db.Stored(), rows, dryRun, hook, goes, report);
    ok, panicked := true, false;
  }

  lemma EmptyReport(p: Parent, considered: nat, dryRun: bool)
    ensures ReportOf(p, [], [], considered, dryRun) == SweepReport([], [], [], [], considered, dryRun)
  {
  }

  /** What a candidate's transaction does to the database: its table is gone, or
      below nothing where it was, or below nothing in the archive and gone from
      where it was; its row says so; and nothing else changes. */
  predicate TableIs(p: Parent, row: PartRow, f: Fate, before: Store, after: Store)
    requires SplitFQ(row.name).Some?
  {
    var id := TableId(Clip(SplitFQ(row.name).value.schema), Clip(SplitFQ(row.name).value.table));
    match f
    case WasDropped =>
      after == before.(tables := before.tables - {id}, meta := MarkPartition(before.meta, row.name, Status.Dropped))
    case WasDetached =>
      after == before.(tables := before.tables[id := Loose], meta := MarkPartition(before.meta, row.name, Status.Detached))
    case WasArchived =>
      && HasArchive(p)
      && after == before.(tables := (before.tables - {id})[TableId(Clip(p.archiveSchema.value), id.table) := Loose],
                          meta := MarkPartition(before.meta, row.name, Status.Detached))
    case WasSkipped => after == before
  }

  lemma ApplyGives(p: Parent, st: Store, row: PartRow, d: Decision)
    ensures var next := ApplyDecision(p, st, row, d);
      next.Some? && Intent(p, row, d) != WasSkipped ==>
        SplitFQ(row.name).Some? && TableIs(p, row, Intent(p, row, d), st, next.value)
  {
    hide SplitFQ, Clip, MarkPartition;
    var next := ApplyDecision(p, st, row, d);
    if next.Some? && Intent(p, row, d) == WasArchived {
      var id := Named(SplitFQ(row.name).value);
      var loose := st.tables[id := Loose];
      assert (loose - {id})[TableId(Clip(p.archiveSchema.value), id.table) := Loose]
          == (st.tables - {id})[TableId(Clip(p.archiveSchema.value), id.table) := Loose];
      assert (st.tables - {id})[id := Loose] == loose;
    }
  }

  /** A name without a dot is shown as nothing, and its row is skipped. */
  lemma UnsplitIsSkipped(p: Parent, st: Store, row: PartRow, d: Decision, goes: bool)
    requires '.' !in row.name
    ensures BuildPartitionRef(p, row) == PartitionRef(Bounds(ZERO_TIME, ZERO_TIME), "", "", "", false)
    ensures SweepOne(p, st, row, d, goes) == (st, WasSkipped) && Intent(p, row, d) == WasSkipped
  {
    hide ApplyDecision;
  }

  /** A candidate is acted upon exactly when its transaction gets through, its name
      splits, its table exists, and the decision can be carried out: dropping
      always, detaching a child of the parent, archiving one to where no other
      table is. */
  lemma ActedUponIff(p: Parent, st: Store, row: PartRow, d: Decision, goes: bool)
    ensures SweepOne(p, st, row, d, goes).1 != WasSkipped <==>
      && goes && SplitFQ(row.name).Some?
      && var id := TableId(Clip(SplitFQ(row.name).value.schema), Clip(SplitFQ(row.name).value.table));
         && id in st.tables
         && match d
            case HookDrop => true
            case HookDetach => IsBelow(st.tables[id], p.id)
            case HookArchive =>
              && p.archiveSchema.Some? && p.archiveSchema.value != "" && IsBelow(st.tables[id], p.id)
              && var to := TableId(Clip(p.archiveSchema.value), id.table); to == id || to !in st.tables
            case _ => false
  {
    hide SplitFQ, Clip, MarkPartition;
  }

  /** The body of the loop, for the candidate at `i`. */
  method SweepCandidate(db: Database, p: Parent, row: PartRow, i: nat, dryRun: bool, hook: Hook,
                        attempt: nat -> Attempt, cancelled: nat -> bool)
    returns (f: Fate)
    modifies db
    ensures var d := DecisionFor(p, hook, i, row);
      if dryRun then f == Intent(p, row, d) && db.Stored() == old(db.Stored())
      else (db.Stored(), f) == SweepOne(p, old(db.Stored()), row, d, GoesThrough(attempt, cancelled))
    ensures f == WasSkipped ==> db.Stored() == old(db.Stored())
    ensures f != WasSkipped && !dryRun ==> SplitFQ(row.name).Some? && TableIs(p, row, f, old(db.Stored()), db.Stored())
  {
    hide GoesThrough, DropTable, DetachPartition, SetSchema, Update, TableIs;
    ApplyGives(p, db.Stored(), row, DecisionFor(p, hook, i, row));
    if SplitFQ(row.name).None? {
      return WasSkipped;
    }
    var decision := DecisionFor(p, hook, i, row);
    if decision == HookArchive && !HasArchive(p) {
      return WasSkipped;
    }
    if dryRun {
      match decision {
        case HookDrop => return WasDropped;
        case HookDetach => return WasDetached;
        case HookArchive => return WasArchived;
        case HookSkip => return WasSkipped;
        case Unrecognized => return WasSkipped;
      }
    }
    if decision == HookSkip {
      return WasSkipped;
    }
    var next := ApplyDecision(p, db.Stored(), row, decision);
    var e, _ := RunTx(next.Some?, attempt, cancelled);
    if e.Some? {
      return WasSkipped;
    }
    db.Commit(next.value);
    match decision {
      case HookDrop => f := WasDropped;
      case HookDetach => f := WasDetached;
      case HookArchive => f := WasArchived;
    }
  }

  /* ----- accounting ----- */

  /** No sweep adds or removes a row. */
  lemma {:induction false} SweepAllSize(p: Parent, st: Store, rows: seq<PartRow>, hook: Hook, goes: nat -> bool)
    ensures |SweepAll(p, st, rows, hook, goes).0.meta| == |st.meta|
    decreases |rows|
  {
    hide DropTable, DetachPartition, SetSchema, DecisionFor, Intent;
    if rows != [] {
      SweepAllSize(p, st, rows[..|rows| - 1], hook, goes);
    }
  }

  lemma SweepSize(p: Parent, st: Store, after: Store, now: Instant, hook: Hook, goes: nat -> bool)
    requires (exists report :: SweepStep(p, st, after, now, false, hook, goes, report))
      || SweepCut(p, st, after, now, false, hook, goes)
    ensures |after.meta| == |st.meta|
  {
    hide ComputeCutoff, Expired, Lists, SweepAll, ReportOf;
    if report :| SweepStep(p, st, after, now, false, hook, goes, report) {
      var rows :| Lists(Expired(p, st.meta, ComputeCutoff(now, p.retention)), rows)
                  && Swept(p, st, after, rows, false, hook, goes, report);
      SweepAllSize(p, st, rows, hook, goes);
    } else {
      var rows, n: nat :| Lists(Expired(p, st.meta, ComputeCutoff(now, p.retention)), rows)
                          && SweptUpTo(p, st, after, rows, n, false, hook, goes);
      SweepAllSize(p, st, rows[..n], hook, goes);
    }
  }

  lemma {:induction false} ChosenAddUp(p: Parent, rows: seq<PartRow>, fates: seq<Fate>)
    requires |fates| == |rows|
    ensures |Chosen(p, rows, fates, WasDropped)| + |Chosen(p, rows, fates, WasDetached)|
          + |Chosen(p, rows, fates, WasArchived)| + |Chosen(p, rows, fates, WasSkipped)| == |rows|
  {
    if rows != [] {
      ChosenAddUp(p, rows[..|rows| - 1], fates[..|rows| - 1]);
    }
  }

  /** Every candidate is in exactly one of the four lists. */
  lemma ConsideredIsSum(p: Parent, st: Store, after: Store, now: Instant, dryRun: bool, hook: Hook,
                        goes: nat -> bool, report: SweepReport)
    requires SweepStep(p, st, after, now, dryRun, hook, goes, report)
    ensures report.considered == |report.dropped| + |report.detached| + |report.archived| + |report.skipped|
    ensures report.considered == |Expired(p, st.meta, ComputeCutoff(now, p.retention))|
    ensures dryRun ==> after == st
  {
    hide ComputeCutoff, Expired, BuildPartitionRef;
    var selected := Expired(p, st.meta, ComputeCutoff(now, p.retention));
    var rows :| Lists(selected, rows) && Swept(p, st, after, rows, dryRun, hook, goes, report);
    assert |multiset(rows)| == |rows| && |multiset(selected)| == |selected|;
    if dryRun {
      ChosenAddUp(p, rows, Intents(p, rows, hook));
    } else {
      ChosenAddUp(p, rows, SweepAll(p, st, rows, hook, goes).1);
    }
  }

  /* ----- dry runs ----- */

  /** No transaction of a real sweep fails. */
  predicate NothingFails(p: Parent, st: Store, rows: seq<PartRow>, hook: Hook, goes: nat -> bool) {
    forall i :: 0 <= i < |rows| ==> !TxFails(p, st, rows, hook, goes, i)
  }

  /** The candidate at `i` is acted upon, and its transaction does not commit. */
  predicate TxFails(p: Parent, st: Store, rows: seq<PartRow>, hook: Hook, goes: nat -> bool, i: nat)
    requires i < |rows|
  {
    var d := DecisionFor(p, hook, i, rows[i]);
    Intent(p, rows[i], d) != WasSkipped
    && !(goes(i) && ApplyDecision(p, SweepAll(p, st, rows[..i], hook, goes).0, rows[i], d).Some?)
  }

  lemma {:induction false} FateAt(p: Parent, st: Store, rows: seq<PartRow>, hook: Hook, goes: nat -> bool, i: nat)
    requires i < |rows|
    ensures SweepAll(p, st, rows, hook, goes).1[i]
         == if TxFails(p, st, rows, hook, goes, i) then WasSkipped else Intents(p, rows, hook)[i]
  {
    hide ApplyDecision, Intent, DecisionFor;
    var n := |rows| - 1;
    if i < n {
      FateAt(p, st, rows[..n], hook, goes, i);
      assert rows[..n][..i] == rows[..i];
    }
  }

  /** Turning some fates into skips lengthens the list of the skipped. */
  lemma {:induction false} MoreSkipped(p: Parent, rows: seq<PartRow>, fates: seq<Fate>, intents: seq<Fate>)
    requires |fates| == |intents| == |rows|
    requires forall i :: 0 <= i < |rows| ==> fates[i] == intents[i] || fates[i] == WasSkipped
    ensures |Chosen(p, rows, intents, WasSkipped)| <= |Chosen(p, rows, fates, WasSkipped)|
    ensures |Chosen(p, rows, intents, WasSkipped)| == |Chosen(p, rows, fates, WasSkipped)| ==> fates == intents
  {
    hide BuildPartitionRef;
    if rows != [] {
      var n := |rows| - 1;
      MoreSkipped(p, rows[..n], fates[..n], intents[..n]);
      assert fates == fates[..n] + [fates[n]] && intents == intents[..n] + [intents[n]];
    }
  }

  /** A dry run reports what a real run over the same list would, exactly when
      no transaction of the real run fails. */
  lemma DryRunPredictsIff(p: Parent, st: Store, rows: seq<PartRow>, hook: Hook, goes: nat -> bool)
    ensures ReportOf(p, rows, SweepAll(p, st, rows, hook, goes).1, |rows|, true)
         == ReportOf(p, rows, Intents(p, rows, hook), |rows|, true)
      <==> NothingFails(p, st, rows, hook, goes)
  {
    hide TxFails, SweepAll, Chosen, Intents;
    var fates, intents := SweepAll(p, st, rows, hook, goes).1, Intents(p, rows, hook);
    forall i | 0 <= i < |rows|
      ensures fates[i] == if TxFails(p, st, rows, hook, goes, i) then WasSkipped else intents[i]
      ensures TxFails(p, st, rows, hook, goes, i) ==> intents[i] != WasSkipped
    {
      FateAt(p, st, rows, hook, goes, i);
      if TxFails(p, st, rows, hook, goes, i) {
        FailingIsIntended(p, st, rows, hook, goes, i);
      }
    }
    MoreSkipped(p, rows, fates, intents);
    if NothingFails(p, st, rows, hook, goes) {
      assert fates == intents;
    }
  }

  lemma FailingIsIntended(p: Parent, st: Store, rows: seq<PartRow>, hook: Hook, goes: nat -> bool, i: nat)
    requires i < |rows| && TxFails(p, st, rows, hook, goes, i)
    ensures Intents(p, rows, hook)[i] != WasSkipped
  {
  }

  /* ----- listings in another order ----- */

  function RefsOf(p: Parent, rows: seq<PartRow>): (refs: seq<PartitionRef>)
    ensures |refs| == |rows| && forall i :: 0 <= i < |rows| ==> refs[i] == BuildPartitionRef(p, rows[i])
  {
    seq(|rows|, i requires 0 <= i < |rows| => BuildPartitionRef(p, rows[i]))
  }

  lemma {:induction false} RefsPermute(p: Parent, a: seq<PartRow>, b: seq<PartRow>)
    requires multiset(a) == multiset(b)
    ensures multiset(RefsOf(p, a)) == multiset(RefsOf(p, b))
    decreases |a|
  {
    hide BuildPartitionRef, RefsOf;
    assert |multiset(a)| == |a| && |multiset(b)| == |b|;
    if a != [] {
      var k := Partner(a, b);
      RefsPermute(p, a[..0] + a[1..], b[..k] + b[k + 1..]);
      RefsTakeOut(p, a, 0);
      RefsTakeOut(p, b, k);
    }
  }

  /** The first element of one list, found in another order of it. */
  lemma Partner<T>(a: seq<T>, b: seq<T>) returns (k: nat)
    requires a != [] && multiset(a) == multiset(b)
    ensures k < |b| && b[k] == a[0]
    ensures multiset(a[..0] + a[1..]) == multiset(b[..k] + b[k + 1..])
  {
    TakeOut(a, 0);
    assert a[0] in multiset(b);
    k :| 0 <= k < |b| && b[k] == a[0];
    TakeOut(b, k);
    Cancel(a[0], multiset(a[..0] + a[1..]), multiset(b[..k] + b[k + 1..]));
  }

  lemma TakeOut<T>(s: seq<T>, k: nat)
    requires k < |s|
    ensures multiset(s) == multiset{s[k]} + multiset(s[..k] + s[k + 1..])
  {
    assert s == s[..k] + [s[k]] + s[k + 1..];
  }

  lemma Cancel<T>(x: T, a: multiset<T>, b: multiset<T>)
    requires multiset{x} + a == multiset{x} + b
    ensures a == b
  {
    assert a == (multiset{x} + a) - multiset{x} && b == (multiset{x} + b) - multiset{x};
  }

  lemma RefsTakeOut(p: Parent, s: seq<PartRow>, k: nat)
    requires k < |s|
    ensures multiset(RefsOf(p, s)) == multiset{BuildPartitionRef(p, s[k])} + multiset(RefsOf(p, s[..k] + s[k + 1..]))
  {
    hide BuildPartitionRef;
    var refs := RefsOf(p, s);
    TakeOut(refs, k);
    assert refs[..k] + refs[k + 1..] == RefsOf(p, s[..k] + s[k + 1..]);
  }

  /** A hook that decides by what it is shown. */
  function Steady(hook: PartitionRef -> Decision): Hook { Some((i: nat, ref: PartitionRef) => hook(ref)) }

  function SteadyIntent(p: Parent, hook: PartitionRef -> Decision, f: Fate): PartRow -> bool {
    (r: PartRow) => Intent(p, r, hook(BuildPartitionRef(p, r))) == f
  }

  /** The candidates of one fate, picked by a property that tells that fate. */
  lemma {:induction false} ChosenIsFilter(p: Parent, rows: seq<PartRow>, fates: seq<Fate>, f: Fate, keep: PartRow -> bool)
    requires |fates| == |rows| && forall i :: 0 <= i < |rows| ==> (keep(rows[i]) <==> fates[i] == f)
    ensures Chosen(p, rows, fates, f) == RefsOf(p, Filter(rows, keep))
    decreases |rows|
  {
    hide BuildPartitionRef;
    if rows != [] {
      var n := |rows| - 1;
      ChosenIsFilter(p, rows[..n], fates[..n], f, keep);
      FilterConcat(rows[..n], [rows[n]], keep);
      assert rows == rows[..n] + [rows[n]];
    }
  }

  /** With a hook that decides by what it is shown, a dry run predicts the lists
      of a real run in which no transaction fails, even when the server breaks
      ties in the listing differently. */
  lemma DryRunPredicts(p: Parent, st: Store, selected: seq<PartRow>, rows: seq<PartRow>, other: seq<PartRow>,
                       hook: PartitionRef -> Decision, goes: nat -> bool, f: Fate)
    requires Lists(selected, rows) && Lists(selected, other) && NothingFails(p, st, other, Steady(hook), goes)
    ensures multiset(Chosen(p, rows, Intents(p, rows, Steady(hook)), f))
         == multiset(Chosen(p, other, SweepAll(p, st, other, Steady(hook), goes).1, f))
  {
    hide TxFails, SweepAll, Chosen, Intents, BuildPartitionRef, Intent;
    var fates, intents := SweepAll(p, st, other, Steady(hook), goes).1, Intents(p, other, Steady(hook));
    forall i | 0 <= i < |other|
      ensures fates[i] == intents[i]
    {
      FateAt(p, st, other, Steady(hook), goes, i);
    }
    assert fates == intents;
    ChosenIsFilter(p, rows, Intents(p, rows, Steady(hook)), f, SteadyIntent(p, hook, f));
    ChosenIsFilter(p, other, intents, f, SteadyIntent(p, hook, f));
    FilterPermutes(rows, other, SteadyIntent(p, hook, f));
    RefsPermute(p, Filter(rows, SteadyIntent(p, hook, f)), Filter(other, SteadyIntent(p, hook, f)));
  }
}
