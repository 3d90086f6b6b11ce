/** Maintenance and the drain together.  While the default is attached, none of
    its rows has a partition, and none can get one; once an operator has detached
    it, what is provisioned receives the rows, and it can be attached again. */
module EndToEnd {
  import opened Wrappers
  import opened Calendar
  import opened Periods
  import opened Naming
  import opened Metadata
  import opened Catalog
  import opened Provisioner
  import opened Consistency
  import opened Maintenance
  import opened Waiting
  import Drain
  import DrainLoop

  /** Maintained metadata names at most one target for a tenant and window,
      which is what makes routing a function. */
  lemma TargetsAreUnique(p: Parent, grid: Grid, st: Store, now: Instant, job: Drain.Job)
    requires Consistent(p, grid, st, now) && job.meta == st.meta && job.parentId == p.id
    ensures Drain.UniqueTargets(job)
  {
    hide Placed, IdOf, ChildrenKnown, NamesKnown, NamesFree, TenantsTold, TenantOK, UniqueNames, Fits;
    forall r, q | r in job.meta && q in job.meta && Drain.SameTarget(job, r, q)
      ensures r.name == q.name
    {
      assert RowOK(p, grid, st, r, now) && RowOK(p, grid, st, q, now);
    }
  }

  /** What routes the rows of a default table. */
  function Slots(p: Parent, rows: map<Drain.Ctid, Drain.Row>): set<Slot> {
    set c | c in rows && rows[c].control.Finite? :: SlotOf(p, rows[c])
  }

  function SlotOf(p: Parent, row: Drain.Row): Slot
    requires row.control.Finite?
  {
    Slot(if p.tenanted then row.tenant else None, row.control.at)
  }

  /** A drain of the parent's default, whose rows are those the store knows. */
  ghost predicate DrainOf(p: Parent, grid: Grid, st: Store, job: Drain.Job, before: Drain.Tables) {
    && job.grid == grid && job.tenanted == p.tenanted && job.parentId == p.id && job.meta == st.meta
    && Slots(p, before.rows) == WaitingOf(st, p.id)
  }

  function AfterDrain(p: Parent, st: Store, left: Drain.Tables): Store {
    st.(waiting := st.waiting[p.id := Slots(p, left.rows)])
  }

  /** A row has a target exactly when its tenant has an active partition for its
      window. */
  lemma TargetIffActive(p: Parent, grid: Grid, st: Store, now: Instant, job: Drain.Job, row: Drain.Row)
    requires Consistent(p, grid, st, now) && job.grid == grid && job.tenanted == p.tenanted && job.parentId == p.id
    requires job.meta == st.meta && row.control.Finite?
    ensures Drain.HasTarget(job, Drain.KeyOf(job, row))
      <==> HasActive(p, st.meta, SlotOf(p, row).tenant, grid(row.control.at))
    ensures forall r :: r in st.meta && r.parentId == p.id ==>
      (Drain.IsTarget(job, Drain.KeyOf(job, row), r) <==> IsActiveFor(r, SlotOf(p, row).tenant, grid(row.control.at)))
  {
    hide Placed, PartName, Fits, ChildrenKnown, NamesKnown, NamesFree, UniqueNames, Clean, TenantsTold;
    forall r | r in st.meta && r.parentId == p.id
      ensures Drain.IsTarget(job, Drain.KeyOf(job, row), r) <==> IsActiveFor(r, SlotOf(p, row).tenant, grid(row.control.at))
    {
      assert RowOK(p, grid, st, r, now);
    }
  }

  /** A drain, however it ends, is the step that maintenance reckons with. */
  lemma DrainIsStep(p: Parent, grid: Grid, st: Store, now: Instant, job: Drain.Job, before: Drain.Tables,
                    left: Drain.Tables)
    requires Consistent(p, grid, st, now) && DrainOf(p, grid, st, job, before) && Drain.Progressed(job, before, left)
    ensures Drained(p, grid, st, AfterDrain(p, st, left))
  {
    hide Consistent, Drain.Content, Drain.RowsAt, Drain.IsTarget, Drain.KeyOf, HasActive, Drain.Readable;
    var moved :| Drain.Delivered(before, left, moved) && Drain.Justified(job, before.rows, moved);
    var after := AfterDrain(p, st, left);
    assert WaitingOf(after, p.id) == Slots(p, left.rows);
    forall s | s in WaitingOf(st, p.id) && s !in WaitingOf(after, p.id)
      ensures HasActive(p, st.meta, s.tenant, grid(s.at))
    {
      var c :| c in before.rows && before.rows[c].control.Finite? && SlotOf(p, before.rows[c]) == s;
      assert c !in left.rows;
      MovedIsActive(p, grid, st, now, job, before, moved, c);
    }
  }

  lemma MovedIsActive(p: Parent, grid: Grid, st: Store, now: Instant, job: Drain.Job, before: Drain.Tables,
                      moved: map<Drain.Ctid, string>, c: Drain.Ctid)
    requires Consistent(p, grid, st, now) && DrainOf(p, grid, st, job, before)
    requires Drain.Justified(job, before.rows, moved) && c in moved
    ensures c in before.rows && before.rows[c].control.Finite?
    ensures var s := SlotOf(p, before.rows[c]);
      s in WaitingOf(st, p.id) && HasActive(p, st.meta, s.tenant, grid(s.at))
  {
    hide Consistent, Drain.IsTarget, Drain.KeyOf, HasActive, Drain.Readable, SlotOf;
    TargetIffActive(p, grid, st, now, job, before.rows[c]);
    SlotAt(p, before.rows[c]);
  }

  lemma SlotAt(p: Parent, row: Drain.Row)
    requires row.control.Finite?
    ensures SlotOf(p, row).at == row.control.at
  {
  }

  /** While the default of a parent in order is attached, a drain moves no row. */
  lemma AttachedMovesNothing(p: Parent, grid: Grid, st: Store, now: Instant, job: Drain.Job, before: Drain.Tables,
                             left: Drain.Tables)
    requires Tiling(grid) && Consistent(p, grid, st, now) && DrainOf(p, grid, st, job, before)
    requires DefaultAttached(st.tables, p.id) && Drain.Progressed(job, before, left)
    ensures left.rows == before.rows
  {
    hide Consistent, Tiling, Drain.Content, Drain.RowsAt, HasActive, DrainOf, SlotOf, Drain.Justified, DefaultAttached;
    var moved :| Drain.Delivered(before, left, moved) && Drain.Justified(job, before.rows, moved);
    forall c | c in moved
      ensures false
    {
      MovedIsActive(p, grid, st, now, job, before, moved, c);
      WaitingHasNone(p, grid, st, now, SlotOf(p, before.rows[c]));
    }
    assert moved.Keys == {};
  }

  /** After a drain of a detached default that reads until nothing is left, with
      no tenant filter, the default can be attached again. */
  lemma DrainedIsAttachable(p: Parent, grid: Grid, st: Store, now: Instant, job: Drain.Job, before: Drain.Tables,
                            left: Drain.Tables)
    requires Tiling(grid) && Consistent(p, grid, st, now) && DrainOf(p, grid, st, job, before) && job.filter.None?
    requires !DefaultAttached(st.tables, p.id) && Drain.Progressed(job, before, left) && Drain.RoutedAll(job, before, left)
    ensures Attachable(p, AfterDrain(p, st, left))
  {
    hide Consistent, Tiling, Drain.Content, Drain.RowsAt, HasActive, SlotOf, Drain.HasTarget, Drain.KeyOf, DefaultAttached;
    var after := AfterDrain(p, st, left);
    DrainIsStep(p, grid, st, now, job, before, left);
    DrainKeeps(p, grid, st, after, now);
    forall s | s in WaitingOf(after, p.id)
      ensures !HasActive(p, after.meta, s.tenant, grid(s.at))
    {
      var c :| c in left.rows && left.rows[c].control.Finite? && SlotOf(p, left.rows[c]) == s;
      SlotAt(p, left.rows[c]);
      TargetIffActive(p, grid, st, now, job, left.rows[c]);
      assert Drain.Stays(job, left.rows[c]);
    }
    AttachableIff(p, grid, after, now);
  }

  /** Once the default is detached, EnsurePartitions is not in the way of its rows,
      and after it succeeds for a tenant, a drain that reads until nothing is left
      takes every one of the tenant's rows between the current window and the last
      premade one out of the default, into the partition of its window. */
  lemma EnsuredThenDrained(p: Parent, k: Kind, st: Store, after: Store, now: Instant, tenant: Option<string>,
                           report: EnsureReport, job: Drain.Job, opts: DrainLoop.Options, before: Drain.Tables,
                           left: Drain.Tables, drained: DrainLoop.Report, c: Drain.Ctid)
    requires k != Hourly && Consistent(p, CalendarGrid(k), st, now) && p.premake >= 0
    requires NamesFit(p, CalendarGrid(k), now, tenant) && !DefaultAttached(st.tables, p.id) && HasDefault(p, st.meta)
    requires EnsureStep(p, CalendarGrid(k), st, after, now, tenant, None, report)
    requires DrainOf(p, CalendarGrid(k), after, job, before)
    requires DrainLoop.DrainContract(job, opts, before, left, None, drained)
    requires DrainLoop.RanDry(opts, drained.batchesRun)
    requires c in before.rows && before.rows[c].control.Finite?
    requires job.tenanted && job.filter.Some? ==> before.rows[c].tenant == job.filter
    requires SlotOf(p, before.rows[c]).tenant == tenant
    requires |Windows(job.grid, now, p.premake + 1)| == p.premake + 1
    requires job.grid(now).from <= before.rows[c].control.at < Windows(job.grid, now, p.premake + 1)[p.premake].to
    ensures !DefaultAttached(after.tables, p.id) && c !in left.rows
    ensures exists r :: r in after.meta && r.parentId == p.id
                        && IsActiveFor(r, tenant, job.grid(before.rows[c].control.at))
                        && c in Drain.Routed(job, before.rows, r.name)
                        && Drain.Content(left, r.name) == Drain.Content(before, r.name)
                                                        + Drain.RowsAt(before.rows, Drain.Routed(job, before.rows, r.name))
  {
    hide Consistent, DayGrid, NamesFit, Within, CalendarGrid, Windows, EnsureStep, IsActiveFor, Drain.IsTarget,
      Drain.RowsAt, Drain.Content, Drain.NoneStuck, Drain.Progressed, DrainLoop.AnomaliesExact, Drain.Live,
      Drain.KeyOf, Drain.UniqueTargets, DefaultAttached, SlotOf, Slots, HasDefault;
    var grid, row := CalendarGrid(k), before.rows[c];
    CalendarIsDayGrid(k);
    EnsureKeeps(p, grid, st, after, now, tenant, None, report);
    EnsureCovers(p, grid, st, after, now, tenant, report, row.control.at);
    var r :| r in after.meta && r.parentId == p.id && IsActiveFor(r, tenant, grid(row.control.at));
    TargetIffActive(p, grid, after, now, job, row);
    TargetsAreUnique(p, grid, after, now, job);
    assert Drain.RoutedAll(job, before, left);
    assert c in Drain.Routed(job, before.rows, r.name);
  }

  /** Once the default is detached, EnsurePartitions can succeed, whatever rows are
      in it. */
  lemma DetachUnblocks(p: Parent, k: Kind, st: Store, detached: Store, now: Instant, tenant: Option<string>)
    requires k != Hourly && Consistent(p, CalendarGrid(k), st, now) && DetachesDefault(p, st, detached)
    requires WellNamed(p, tenant) && TenantOK(p, TenantsOf(st, p.id), tenant) && NamesFit(p, CalendarGrid(k), now, tenant)
    ensures exists after, report :: EnsureStep(p, CalendarGrid(k), detached, after, now, tenant, None, report)
  {
    hide Consistent, DayGrid, CalendarGrid, NamesFit, EnsureStep, Within, DetachesDefault, WellNamed, TenantOK, ToCreate;
    var grid := CalendarGrid(k);
    CalendarIsDayGrid(k);
    DetachKeeps(p, grid, st, detached, now);
    assert NothingWaits(p, detached, tenant, ToCreate(p, grid, detached.meta, now, tenant));
    assert TenantsOf(detached, p.id) == TenantsOf(st, p.id) by { DetachTenants(p, st, detached); }
    EnsureSucceedsIff(p, grid, detached, now, tenant);
  }

  lemma DetachTenants(p: Parent, st: Store, detached: Store)
    requires DetachesDefault(p, st, detached)
    ensures TenantsOf(detached, p.id) == TenantsOf(st, p.id)
  {
  }

  lemma StillDetached(p: Parent, grid: Grid, st: Store, detached: Store, ensured: Store, now: Instant)
    requires Consistent(p, grid, st, now) && DetachesDefault(p, st, detached) && !DefaultAttached(detached.tables, p.id)
    requires WaitingKept(p, detached, ensured)
    ensures !DefaultAttached(ensured.tables, p.id) && HasDefault(p, detached.meta)
  {
    hide Consistent;
    AttachedHasRow(p, grid, st, now);
  }

  /** The rows that a complete drain without a filter leaves have no active
      partition. */
  lemma LeftHaveNone(p: Parent, grid: Grid, st: Store, now: Instant, job: Drain.Job, before: Drain.Tables,
                     left: Drain.Tables)
    requires Consistent(p, grid, st, now) && DrainOf(p, grid, st, job, before) && job.filter.None?
    requires Drain.RoutedAll(job, before, left)
    ensures forall c :: c in left.rows && left.rows[c].control.Finite? ==>
      !HasActive(p, st.meta, SlotOf(p, left.rows[c]).tenant, grid(left.rows[c].control.at))
  {
    hide Consistent, HasActive, SlotOf, Slots, Drain.HasTarget, Drain.KeyOf, Drain.Content, Drain.RowsAt, Drain.IsTarget;
    forall c | c in left.rows && left.rows[c].control.Finite?
      ensures !HasActive(p, st.meta, SlotOf(p, left.rows[c]).tenant, grid(left.rows[c].control.at))
    {
      assert Drain.Stays(job, left.rows[c]);
      TargetIffActive(p, grid, st, now, job, left.rows[c]);
    }
  }

  /** The whole way out: the default is detached, the partitions are created, the
      drain reads until nothing is left, and the default is attached again; the
      parent is in order all along. */
  lemma WayOut(p: Parent, k: Kind, st: Store, detached: Store, ensured: Store, now: Instant, tenant: Option<string>,
               report: EnsureReport, job: Drain.Job, opts: DrainLoop.Options, before: Drain.Tables, left: Drain.Tables,
               drained: DrainLoop.Report)
    returns (attached: Store)
    requires k != Hourly && Consistent(p, CalendarGrid(k), st, now) && NamesFit(p, CalendarGrid(k), now, tenant)
    requires DetachesDefault(p, st, detached)
    requires EnsureStep(p, CalendarGrid(k), detached, ensured, now, tenant, None, report)
    requires DrainOf(p, CalendarGrid(k), ensured, job, before) && job.filter.None?
    requires DrainLoop.DrainContract(job, opts, before, left, None, drained)
    requires DrainLoop.RanDry(opts, drained.batchesRun)
    ensures AttachesDefault(p, AfterDrain(p, ensured, left), attached) && Consistent(p, CalendarGrid(k), attached, now)
    ensures forall c :: c in left.rows && left.rows[c].control.Finite? ==>
      !HasActive(p, ensured.meta, SlotOf(p, left.rows[c]).tenant, CalendarGrid(k)(left.rows[c].control.at))
  {
    hide Consistent, DayGrid, CalendarGrid, NamesFit, EnsureStep, Within, DefaultAttached, DrainOf, Drain.NoneStuck,
      Drain.Progressed, DrainLoop.AnomaliesExact, Drain.Live, Drain.UniqueTargets, Windows, HasActive, HasDefault,
      Attachable, Drain.HasTarget, IsLoose, IsDefaultId, DetachesDefault;
    var grid := CalendarGrid(k);
    CalendarIsDayGrid(k);
    GridTiles(grid);
    DetachKeeps(p, grid, st, detached, now);
    EnsureKeeps(p, grid, detached, ensured, now, tenant, None, report);
    StillDetached(p, grid, st, detached, ensured, now);
    var o := LooseDefault(p, grid, ensured, now);
    var after := AfterDrain(p, ensured, left);
    DrainIsStep(p, grid, ensured, now, job, before, left);
    DrainKeeps(p, grid, ensured, after, now);
    DrainedIsAttachable(p, grid, ensured, now, job, before, left);
    attached := after.(tables := after.tables[o := DefaultPart(p.id)]);
    AttachKeeps(p, grid, after, attached, now);
    LeftHaveNone(p, grid, ensured, now, job, before, left);
  }
}
