/** The rows in a parent's default: how they come and go, and how they stand in
    the way of the partitions they belong into. */
module Waiting {
  import opened Wrappers
  import opened Calendar
  import opened Periods
  import opened Text
  import opened Naming
  import opened Metadata
  import opened Catalog
  import opened Provisioner
  import opened Consistency
  import opened Maintenance

  /** An attached partition takes the row. */
  predicate Routed(p: Parent, st: Store, s: Slot) {
    exists o :: o in st.tables && IsBelow(st.tables[o], p.id) && Takes(st.tables[o], s)
  }

  /** INSERT into the parent: a partition takes the row, or else the attached
      default; without one the server refuses. */
  function Insert(p: Parent, st: Store, s: Slot): Store {
    if Routed(p, st, s) || !DefaultAttached(st.tables, p.id) || !SlotFits(p, s) then st
    else st.(waiting := st.waiting[p.id := WaitingOf(st, p.id) + {s}])
  }

  /** The table of the parent's default. */
  ghost predicate IsDefaultId(p: Parent, id: TableId) { exists name :: IsDefaultName(p, name) && IdOf(name) == id }

  /** ALTER TABLE ... DETACH PARTITION, for the default. */
  ghost predicate DetachesDefault(p: Parent, st: Store, after: Store) {
    exists o :: o in st.tables && st.tables[o] == DefaultPart(p.id) && after == st.(tables := st.tables[o := Loose])
  }

  /** No row of the default belongs into an attached partition. */
  predicate Attachable(p: Parent, st: Store) {
    !DefaultAttached(st.tables, p.id) && forall s :: s in WaitingOf(st, p.id) ==> !Routed(p, st, s)
  }

  /** ALTER TABLE ... ATTACH PARTITION ... DEFAULT, where the server allows it. */
  ghost predicate AttachesDefault(p: Parent, st: Store, after: Store) {
    && Attachable(p, st)
    && exists o :: IsDefaultId(p, o) && IsLoose(st.tables, o) && after == st.(tables := st.tables[o := DefaultPart(p.id)])
  }

  /** A drain, complete or not: rows that have an active partition leave the
      default. */
  ghost predicate Drained(p: Parent, grid: Grid, st: Store, after: Store) {
    && WaitingOf(after, p.id) <= WaitingOf(st, p.id) && after == st.(waiting := st.waiting[p.id := WaitingOf(after, p.id)])
    && forall s :: s in WaitingOf(st, p.id) && s !in WaitingOf(after, p.id) ==> HasActive(p, st.meta, s.tenant, grid(s.at))
  }

  /** A row that is inserted waits in the default exactly when that is attached
      and the row's tenant has no active partition for its window. */
  lemma InsertWaitsIff(p: Parent, grid: Grid, st: Store, now: Instant, s: Slot)
    requires Tiling(grid) && Consistent(p, grid, st, now)
    ensures var after := Insert(p, st, s);
      && after == st.(waiting := after.waiting)
      && WaitingOf(after, p.id) == WaitingOf(st, p.id)
           + if DefaultAttached(st.tables, p.id) && (p.tenanted || s.tenant == None)
                && !HasActive(p, st.meta, s.tenant, grid(s.at)) then {s} else {}
  {
    hide Consistent, Tiling, HasActive, Routed, DefaultAttached;
    if SlotFits(p, s) {
      RoutedIff(p, grid, st, now, s);
    }
  }

  /* ----- all of it keeps the invariant ----- */

  lemma InsertKeeps(p: Parent, grid: Grid, st: Store, now: Instant, s: Slot)
    requires Consistent(p, grid, st, now)
    ensures Consistent(p, grid, Insert(p, st, s), now) && Within(p, st, Insert(p, st, s))
  {
    hide Consistent, Owns, Routed, SlotFits;
    WasClean(p, grid, st, now);
    InsertedClean(p, st, s);
    OnlyWaiting(p, grid, st, Insert(p, st, s), now);
  }

  lemma InsertedClean(p: Parent, st: Store, s: Slot)
    requires Clean(p, st)
    ensures Clean(p, Insert(p, st, s))
  {
    hide Takes;
    var after := Insert(p, st, s);
    forall o | o in after.tables && IsBelow(after.tables[o], p.id)
      ensures !DefaultHolds(after, p.id, after.tables[o])
    {
      assert !DefaultHolds(st, p.id, st.tables[o]);
    }
  }

  /** Other rows in the default change nothing else. */
  lemma OnlyWaiting(p: Parent, grid: Grid, st: Store, after: Store, now: Instant)
    requires Consistent(p, grid, st, now) && Clean(p, after)
    requires after.meta == st.meta && after.tables == st.tables && after.tenants == st.tenants
    ensures Consistent(p, grid, after, now)
  {
    hide UniqueNames, TenantsTold, RowFits, Placed, Clean, IsPartName, IsPartId, IdOf;
    assert TenantsOf(after, p.id) == TenantsOf(st, p.id);
    forall r | r in after.meta && r.parentId == p.id
      ensures RowOK(p, grid, after, r, now)
    {
      assert RowOK(p, grid, st, r, now);
    }
  }

  /** The default is attached or detached, and nothing else changes. */
  lemma SwitchedKeeps(p: Parent, grid: Grid, st: Store, after: Store, now: Instant, o: TableId)
    requires Consistent(p, grid, st, now) && Clean(p, after) && o in st.tables && IsDefaultId(p, o)
    requires st.tables[o] == Loose || st.tables[o] == DefaultPart(p.id)
    requires after == st.(tables := st.tables[o := Loose]) || after == st.(tables := st.tables[o := DefaultPart(p.id)])
    ensures Consistent(p, grid, after, now) && Within(p, st, after)
  {
    hide UniqueNames, TenantsTold, RowOK, Clean, IdOf, IsPartId, IsPartName, Owns, ChildrenKnown, NamesKnown, IsDefaultId;
    assert TenantsOf(after, p.id) == TenantsOf(st, p.id);
    var row := DefaultRowOf(p, grid, st, now, o);
    SwitchedKnown(p, st, after, o, row);
    forall r | r in after.meta && r.parentId == p.id
      ensures RowOK(p, grid, after, r, now)
    {
      SwitchedRow(p, grid, st, after, now, o, row, r);
    }
  }

  lemma SwitchedKnown(p: Parent, st: Store, after: Store, o: TableId, row: PartRow)
    requires ChildrenKnown(p, st) && NamesKnown(p, st) && o in st.tables
    requires row in st.meta && row.parentId == p.id && row.status == Active && IdOf(row.name) == o
    requires after == st.(tables := st.tables[o := Loose]) || after == st.(tables := st.tables[o := DefaultPart(p.id)])
    ensures ChildrenKnown(p, after) && NamesKnown(p, after)
  {
    hide IdOf, IsPartId;
    forall id | id in after.tables && IsPartId(p, id)
      ensures exists r :: r in after.meta && r.parentId == p.id && IdOf(r.name) == id
    {
      assert id in st.tables;
    }
    forall id | id in after.tables && IsBelow(after.tables[id], p.id)
      ensures exists r :: r in after.meta && r.parentId == p.id && r.status == Active && IdOf(r.name) == id
    {
      if id == o {
        assert row in after.meta;
      } else {
        assert IsBelow(st.tables[id], p.id);
      }
    }
  }

  lemma SwitchedRow(p: Parent, grid: Grid, st: Store, after: Store, now: Instant, o: TableId, row: PartRow, r: PartRow)
    requires Consistent(p, grid, st, now) && r in st.meta && r.parentId == p.id && o in st.tables
    requires row in st.meta && row.parentId == p.id && row.isDefault && IdOf(row.name) == o
    requires after == st.(tables := st.tables[o := Loose]) || after == st.(tables := st.tables[o := DefaultPart(p.id)])
    ensures RowOK(p, grid, after, r, now)
  {
    hide TenantsTold, IsRangeName, IsPartName, IdOf, Whole, ChildrenKnown, NamesKnown, NamesFree, Clean, PartName,
      NameFits, DefaultFits, TenantOK;
    assert RowOK(p, grid, st, r, now) && RowOK(p, grid, st, row, now);
    RowSplits(p, grid, TenantsOf(st, p.id), r);
    RowSplits(p, grid, TenantsOf(st, p.id), row);
    IdsDiffer(r.name, row.name);
    NameIsUnique(st.meta, r, row);
    assert TenantsOf(after, p.id) == TenantsOf(st, p.id);
  }

  /** The row of the default's table. */
  lemma DefaultRowOf(p: Parent, grid: Grid, st: Store, now: Instant, o: TableId) returns (row: PartRow)
    requires Consistent(p, grid, st, now) && o in st.tables && IsDefaultId(p, o)
    ensures row in st.meta && row.parentId == p.id && row.isDefault && row.status == Active && IdOf(row.name) == o
    ensures IsPartId(p, o) && Owns(p, o)
  {
    hide UniqueNames, TenantsTold, Placed, ChildrenKnown, NamesFree, Clean, IsRangeName, IdOf, Whole, PartName, Fits,
      TenantOK;
    var name :| IsDefaultName(p, name) && IdOf(name) == o;
    assert IsPartName(p, name);
    NamedIsPartId(p, name);
    row :| row in st.meta && row.parentId == p.id && IdOf(row.name) == o;
    assert RowOK(p, grid, st, row, now);
    RowSplits(p, grid, TenantsOf(st, p.id), row);
    PartNameFacts(p, name);
    IdsDiffer(row.name, name);
    if !row.isDefault {
      NotBoth(p, row);
    }
  }

  lemma NotBoth(p: Parent, row: PartRow)
    requires PartName(p, TextOf(row.tenant), row.bounds, false) == Ok(row.name)
    ensures PartName(p, "", ZERO_BOUNDS, true) != Ok(row.name)
  {
    hide BuildName;
    if PartName(p, "", ZERO_BOUNDS, true) == Ok(row.name) {
      BuiltNamesDiffer(PartOf(p, TextOf(row.tenant), row.bounds, false), PartOf(p, "", ZERO_BOUNDS, true));
    }
  }

  lemma DetachKeeps(p: Parent, grid: Grid, st: Store, after: Store, now: Instant)
    requires Consistent(p, grid, st, now) && DetachesDefault(p, st, after)
    ensures Consistent(p, grid, after, now) && Within(p, st, after) && WaitingOf(after, p.id) == WaitingOf(st, p.id)
    ensures !DefaultAttached(after.tables, p.id)
  {
    hide Consistent, IsDefaultId, Within, Takes, IdOf;
    var o :| o in st.tables && st.tables[o] == DefaultPart(p.id) && after == st.(tables := st.tables[o := Loose]);
    AttachedIsDefault(p, grid, st, now, o);
    OneDefault(p, grid, st, now, o);
    assert Clean(p, after) by { WasClean(p, grid, st, now); }
    SwitchedKeeps(p, grid, st, after, now, o);
  }

  lemma WasClean(p: Parent, grid: Grid, st: Store, now: Instant)
    requires Consistent(p, grid, st, now)
    ensures Clean(p, st)
  {
  }

  /** The attached default is the table of the default's row. */
  lemma AttachedIsDefault(p: Parent, grid: Grid, st: Store, now: Instant, o: TableId)
    requires Consistent(p, grid, st, now) && o in st.tables && st.tables[o] == DefaultPart(p.id)
    ensures IsDefaultId(p, o)
  {
    hide UniqueNames, TenantsTold, NamesKnown, NamesFree, Clean, IdOf, PartName, DefaultFits, NameFits, TenantOK;
    var r :| r in st.meta && r.parentId == p.id && r.status == Active && IdOf(r.name) == o;
    assert RowOK(p, grid, st, r, now);
  }

  lemma OneDefault(p: Parent, grid: Grid, st: Store, now: Instant, o: TableId)
    requires Consistent(p, grid, st, now) && o in st.tables && st.tables[o] == DefaultPart(p.id)
    ensures forall d :: d in st.tables && st.tables[d] == DefaultPart(p.id) ==> d == o
  {
    hide Consistent, IdOf, PartName, DefaultFits;
    forall d | d in st.tables && st.tables[d] == DefaultPart(p.id)
      ensures d == o
    {
      AttachedIsDefault(p, grid, st, now, d);
      AttachedIsDefault(p, grid, st, now, o);
    }
  }

  lemma AttachKeeps(p: Parent, grid: Grid, st: Store, after: Store, now: Instant)
    requires Consistent(p, grid, st, now) && AttachesDefault(p, st, after)
    ensures Consistent(p, grid, after, now) && Within(p, st, after) && WaitingOf(after, p.id) == WaitingOf(st, p.id)
    ensures DefaultAttached(after.tables, p.id)
  {
    hide Consistent, IsDefaultId, Within, Takes, IdOf;
    var o :| IsDefaultId(p, o) && IsLoose(st.tables, o) && after == st.(tables := st.tables[o := DefaultPart(p.id)]);
    assert after.tables[o] == DefaultPart(p.id);
    StillRouted(p, st, after, o);
    assert Clean(p, after) by { WasClean(p, grid, st, now); }
    SwitchedKeeps(p, grid, st, after, now, o);
  }

  lemma StillRouted(p: Parent, st: Store, after: Store, o: TableId)
    requires IsLoose(st.tables, o) && after == st.(tables := st.tables[o := DefaultPart(p.id)]) && Attachable(p, st)
    ensures forall c :: c in after.tables && IsBelow(after.tables[c], p.id) ==> !DefaultHolds(after, p.id, after.tables[c])
  {
    forall c, s | c in after.tables && IsBelow(after.tables[c], p.id) && s in WaitingOf(after, p.id)
      ensures !Takes(after.tables[c], s)
    {
      assert !Routed(p, st, s);
      assert c != o ==> st.tables[c] == after.tables[c];
    }
  }

  lemma DrainKeeps(p: Parent, grid: Grid, st: Store, after: Store, now: Instant)
    requires Consistent(p, grid, st, now) && Drained(p, grid, st, after)
    ensures Consistent(p, grid, after, now) && Within(p, st, after)
  {
    hide Consistent, HasActive, Takes, Owns;
    assert Clean(p, after) by { WasClean(p, grid, st, now); }
    OnlyWaiting(p, grid, st, after, now);
  }

  /** While the default is attached, a drain moves nothing: none of its rows has a
      partition. */
  lemma AttachedDrainsNothing(p: Parent, grid: Grid, st: Store, after: Store, now: Instant)
    requires Tiling(grid) && Consistent(p, grid, st, now) && DefaultAttached(st.tables, p.id) && Drained(p, grid, st, after)
    ensures WaitingOf(after, p.id) == WaitingOf(st, p.id)
  {
    hide Consistent, HasActive, Tiling;
    forall s | s in WaitingOf(st, p.id)
      ensures s in WaitingOf(after, p.id)
    {
      WaitingHasNone(p, grid, st, now, s);
    }
  }

  /** A detached default can be attached again exactly when every one of its rows
      that has an active partition has left it. */
  lemma AttachableIff(p: Parent, grid: Grid, st: Store, now: Instant)
    requires Tiling(grid) && Consistent(p, grid, st, now) && !DefaultAttached(st.tables, p.id)
    ensures Attachable(p, st) <==> forall s :: s in WaitingOf(st, p.id) ==> !HasActive(p, st.meta, s.tenant, grid(s.at))
  {
    hide Consistent, HasActive, Tiling, Routed;
    forall s | s in WaitingOf(st, p.id)
      ensures Routed(p, st, s) <==> HasActive(p, st.meta, s.tenant, grid(s.at))
    {
      RoutedIff(p, grid, st, now, s) by { FitsSlot(p, grid, st, now, s); }
    }
  }

  lemma FitsSlot(p: Parent, grid: Grid, st: Store, now: Instant, s: Slot)
    requires Consistent(p, grid, st, now) && s in WaitingOf(st, p.id)
    ensures SlotFits(p, s)
  {
    hide RowOK, ChildrenKnown, NamesKnown, NamesFree, UniqueNames, TenantsTold;
  }

  /** An attached partition takes a row exactly when its window has an active row
      for its tenant. */
  lemma RoutedIff(p: Parent, grid: Grid, st: Store, now: Instant, s: Slot)
    requires Tiling(grid) && Consistent(p, grid, st, now) && SlotFits(p, s)
    ensures Routed(p, st, s) <==> HasActive(p, st.meta, s.tenant, grid(s.at))
  {
    hide Consistent, IdOf, IsActiveFor, SlotFits, Tiling, Takes;
    if HasActive(p, st.meta, s.tenant, grid(s.at)) {
      var r :| r in st.meta && r.parentId == p.id && IsActiveFor(r, s.tenant, grid(s.at));
      ActiveTakes(p, grid, st, now, s, r);
    }
    if Routed(p, st, s) {
      var o :| o in st.tables && IsBelow(st.tables[o], p.id) && Takes(st.tables[o], s);
      var r := TakerIsActive(p, grid, st, now, s, o);
    }
  }

  lemma TakerIsActive(p: Parent, grid: Grid, st: Store, now: Instant, s: Slot, o: TableId) returns (r: PartRow)
    requires Tiling(grid) && Consistent(p, grid, st, now)
    requires o in st.tables && IsBelow(st.tables[o], p.id) && Takes(st.tables[o], s)
    ensures r in st.meta && r.parentId == p.id && IsActiveFor(r, s.tenant, grid(s.at))
  {
    hide UniqueNames, TenantsTold, NamesKnown, NamesFree, Clean, IdOf, PartName, DefaultFits, NameFits, TenantOK;
    r :| r in st.meta && r.parentId == p.id && r.status == Active && IdOf(r.name) == o;
    assert RowOK(p, grid, st, r, now);
    assert grid(r.bounds.from).Contains(s.at);
  }

  lemma AttachedHasRow(p: Parent, grid: Grid, st: Store, now: Instant)
    requires Consistent(p, grid, st, now) && DefaultAttached(st.tables, p.id)
    ensures HasDefault(p, st.meta)
  {
    hide RowFits, Placed, ChildrenKnown, NamesKnown, NamesFree, Clean, TenantsTold, UniqueNames, Consistent;
    var o :| o in st.tables && st.tables[o] == DefaultPart(p.id);
    NoStrayDefault(p, grid, st, now, o);
  }

  /** The table of a default that is detached. */
  lemma LooseDefault(p: Parent, grid: Grid, st: Store, now: Instant) returns (o: TableId)
    requires Consistent(p, grid, st, now) && HasDefault(p, st.meta) && !DefaultAttached(st.tables, p.id)
    ensures IsDefaultId(p, o) && IsLoose(st.tables, o)
  {
    hide ChildrenKnown, NamesKnown, NamesFree, Clean, TenantsTold, UniqueNames, IdOf, PartName, DefaultFits, NameFits,
      TenantOK;
    var r :| r in st.meta && r.parentId == p.id && r.tenant == None && r.isDefault;
    assert RowOK(p, grid, st, r, now);
    o := IdOf(r.name);
    assert IsDefaultName(p, r.name);
  }

  /* ----- an input ----- */

  const EXAMPLE := Parent("1", "s", "t", false, "daily", 0, None, None)

  /** The name of its default, s.t_default. */
  function ExampleName(): string {
    var name := PartName(EXAMPLE, "", ZERO_BOUNDS, true);
    if name.Ok? then name.value else ""
  }

  /** A daily parent with its default, and in it a row of the day that begins. */
  function ExampleStore(): Store {
    Store([PartRow(ExampleName(), "1", None, ZERO_BOUNDS, true, Active)], map[IdOf(ExampleName()) := DefaultPart("1")], map[],
          map["1" := {Slot(None, 0)}])
  }

  lemma ExampleNames()
    ensures IsDefaultName(EXAMPLE, ExampleName()) && WellNamed(EXAMPLE, None)
  {
    assert IsWord("s") && IsWord("t");
  }

  lemma ExampleInOrder(now: Instant)
    ensures Consistent(EXAMPLE, CalendarGrid(Daily), ExampleStore(), now)
    ensures DefaultAttached(ExampleStore().tables, "1") && WaitingOf(ExampleStore(), "1") == {Slot(None, 0)}
  {
    hide CalendarGrid, IdOf, IsDefaultName, IsRangeName, Whole, ExampleName;
    ExampleNames();
    var st := ExampleStore();
    assert st.tables[IdOf(ExampleName())] == DefaultPart("1");
    assert forall r :: r in st.meta ==> r == st.meta[0];
    assert st.meta[0] in st.meta;
    forall id | id in st.tables && IsPartId(EXAMPLE, id)
      ensures exists r :: r in st.meta && r.parentId == EXAMPLE.id && IdOf(r.name) == id
    {
      assert IdOf(st.meta[0].name) == id;
    }
  }

  /** Such a parent is in order, and its next EnsurePartitions is refused. */
  lemma ExampleRefused()
    ensures Consistent(EXAMPLE, CalendarGrid(Daily), ExampleStore(), 0)
    ensures CreateTx(EXAMPLE, ExampleStore(), None, ToCreate(EXAMPLE, CalendarGrid(Daily), ExampleStore().meta, 0, None), false)
         == None
  {
    hide *;
    var grid := CalendarGrid(Daily);
    ExampleNames();
    ExampleInOrder(0);
    CalendarIsDayGrid(Daily);
    ExampleFits();
    ExampleTenants();
    EnsureAcceptedIff(EXAMPLE, grid, ExampleStore(), 0, None);
    ExampleHeld();
  }

  lemma ExampleTenants()
    ensures TenantsOf(ExampleStore(), EXAMPLE.id) == {} && TenantOK(EXAMPLE, {}, None)
    ensures HasDefault(EXAMPLE, ExampleStore().meta)
  {
    hide ExampleName, IdOf;
    assert ExampleStore().meta[0] in ExampleStore().meta;
  }

  lemma ExampleHeld()
    ensures var todo := ToCreate(EXAMPLE, CalendarGrid(Daily), ExampleStore().meta, 0, None);
      !NothingWaits(EXAMPLE, ExampleStore(), None, todo)
  {
    hide Consistent, CalendarGrid, IdOf, DayGrid, HasActive, ExampleStore, DefaultAttached, Windows;
    var grid, st := CalendarGrid(Daily), ExampleStore();
    ExampleInOrder(0);
    CalendarIsDayGrid(Daily);
    GridTiles(grid);
    WaitingHasNone(EXAMPLE, grid, st, 0, Slot(None, 0));
    OwnWindow(grid, 0);
    OneWindow(grid, 0);
    assert Takes(Ranged("1", None, grid(0)), Slot(None, 0));
    assert grid(0) in ToCreate(EXAMPLE, grid, st.meta, 0, None);
  }

  lemma OneWindow(grid: Grid, t: Instant)
    ensures Windows(grid, t, 1) == [grid(t)]
  {
    assert Windows(grid, grid(t).to, 0) == [];
  }

  lemma ExampleFits()
    ensures NamesFit(EXAMPLE, CalendarGrid(Daily), 0, None)
  {
    hide FormatDate, PeriodOf;
    var b := CalendarGrid(Daily)(0);
    assert b.from == 0 by { DayWindow(0); }
    OneWindow(CalendarGrid(Daily), 0);
    ExampleDate();
  }

  lemma ExampleDate()
    ensures |FormatDate(0)| == 8
  {
    hide Fixed, MonthOf;
    PartsOfDate(0, 1, 0) by { assert MonthLength(0) == 31; }
    assert MonthStart(0) == 0;
    FormatDateLength(0) by { hide *; }
  }
}
