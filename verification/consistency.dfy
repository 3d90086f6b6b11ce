/** What metadata, tables and calendar of one parent agree on, and how a
    partition is added to them. */
module Consistency {
  import opened Wrappers
  import opened Calendar
  import opened Periods
  import opened Text
  import opened Naming
  import opened Metadata
  import opened Catalog
  import opened Provisioner

  /** A tiling into windows that start at midnight, as names require. */
  ghost predicate DayGrid(grid: Grid) { Tiling(grid) && forall t :: IsMidnight(grid(t).from) }

  lemma CalendarIsDayGrid(k: Kind)
    requires k != Hourly
    ensures DayGrid(CalendarGrid(k))
  {
    hide PeriodOf, IsMidnight;
    CalendarTiles(k);
    var grid := CalendarGrid(k);
    forall t ensures IsMidnight(grid(t).from) {
      WindowAtMidnight(t, k);
    }
  }

  /** Tenants differ beyond their case, and none is empty. */
  predicate TenantsTold(tenants: set<string>) {
    "" !in tenants && forall a, b :: a in tenants && b in tenants && ToUpper(a) == ToUpper(b) ==> a == b
  }

  /* ----- names and tables ----- */

  /** A full name both parts of which the server keeps whole. */
  predicate Whole(name: string) { SplitFQ(name).Some? && Named(SplitFQ(name).value) == SplitFQ(name).value }

  /** The table a full name stands for. */
  function IdOf(name: string): TableId {
    if SplitFQ(name).Some? then Named(SplitFQ(name).value) else TableId("", name)
  }

  lemma IdsDiffer(a: string, b: string)
    requires Whole(a) && Whole(b)
    ensures IdOf(a) == IdOf(b) ==> a == b
  {
    hide Clip;
    var i, j := Index(a, '.'), Index(b, '.');
    assert a == a[..i] + "." + a[i + 1..] && b == b[..j] + "." + b[j + 1..];
  }

  /** A partition's table lies in the parent's schema, under its own name if that
      fits. */
  lemma PartNameSplits(p: Parent, tenant: string, b: Bounds, isDefault: bool)
    requires PartName(p, tenant, b, isDefault).Ok?
    ensures var tn := PartOf(p, tenant, b, isDefault);
      var fq := PartName(p, tenant, b, isDefault).value;
      && SplitFQ(fq) == Some(TableId(p.schema, TableOf(tn)))
      && IdOf(fq) == TableId(Clip(p.schema), Clip(TableOf(tn)))
      && (Fits(tn) ==> Whole(fq) && IdOf(fq) == TableId(p.schema, TableOf(tn)))
  {
    hide IsWord, Stem, Suffix;
    SplitBuilt(PartOf(p, tenant, b, isDefault));
  }

  /** A tenant as the parent's partitions have one, or none. */
  predicate TenantShape(p: Parent, tenant: Option<string>) { TenantMatches(p, tenant) && tenant != Some("") }

  /** A name the parent gives to the partition of a window, kept whole by the
      server. */
  ghost predicate IsRangeName(p: Parent, name: string) {
    exists tenant, b ::
      TenantShape(p, tenant) && PartName(p, TextOf(tenant), b, false) == Ok(name) && NameFits(p, tenant, b)
  }

  /** The name of the default, kept whole. */
  predicate IsDefaultName(p: Parent, name: string) { PartName(p, "", ZERO_BOUNDS, true) == Ok(name) && DefaultFits(p) }

  /** The server keeps the whole name of a window's partition. */
  predicate NameFits(p: Parent, tenant: Option<string>, b: Bounds) { Fits(PartOf(p, TextOf(tenant), b, false)) }

  predicate DefaultFits(p: Parent) { Fits(PartOf(p, "", ZERO_BOUNDS, true)) }

  ghost predicate IsPartName(p: Parent, name: string) { IsRangeName(p, name) || IsDefaultName(p, name) }

  lemma FromRangeName(p: Parent, tenant: Option<string>, b: Bounds)
    requires TenantShape(p, tenant) && PartName(p, TextOf(tenant), b, false).Ok? && NameFits(p, tenant, b)
    ensures var fq := PartName(p, TextOf(tenant), b, false).value;
      IsRangeName(p, fq) && Whole(fq) && IdOf(fq).schema == p.schema
  {
    hide Fits, BuildName, Whole, IdOf;
    PartNameSplits(p, TextOf(tenant), b, false);
  }

  lemma FromDefaultName(p: Parent)
    requires PartName(p, "", ZERO_BOUNDS, true).Ok? && DefaultFits(p)
    ensures var fq := PartName(p, "", ZERO_BOUNDS, true).value;
      IsDefaultName(p, fq) && Whole(fq) && IdOf(fq).schema == p.schema
  {
    hide Fits, BuildName, Whole, IdOf;
    PartNameSplits(p, "", ZERO_BOUNDS, true);
  }

  lemma PartNameFacts(p: Parent, name: string)
    requires IsPartName(p, name)
    ensures Whole(name) && IdOf(name).schema == p.schema
  {
    hide Fits, BuildName, Whole, IdOf;
    if IsRangeName(p, name) {
      var tenant, b :| TenantShape(p, tenant) && PartName(p, TextOf(tenant), b, false) == Ok(name) && NameFits(p, tenant, b);
      FromRangeName(p, tenant, b);
    } else {
      FromDefaultName(p);
    }
  }

  /** A table named as a partition of the parent would be. */
  ghost predicate IsPartId(p: Parent, id: TableId) { exists name :: IsPartName(p, name) && IdOf(name) == id }

  ghost predicate IsRangeId(p: Parent, id: TableId) { exists name :: IsRangeName(p, name) && IdOf(name) == id }

  lemma NamedIsPartId(p: Parent, name: string)
    requires IsPartName(p, name)
    ensures IsPartId(p, IdOf(name)) && Owns(p, IdOf(name))
    ensures IsRangeName(p, name) ==> IsRangeId(p, IdOf(name)) && Owns(p, ArchiveId(p, IdOf(name)))
  {
    hide IsRangeName, IsDefaultName, IdOf;
    assert IsPartId(p, IdOf(name));
    assert IsRangeName(p, name) ==> IsRangeId(p, IdOf(name));
  }

  function ArchiveId(p: Parent, id: TableId): TableId {
    TableId(if HasArchive(p) then Clip(p.archiveSchema.value) else id.schema, id.table)
  }

  /** The tables a parent's partitions may be, in its schema or, but for the
      default, in its archive. */
  ghost predicate Owns(p: Parent, id: TableId) {
    IsPartId(p, id) || exists part :: IsRangeId(p, part) && ArchiveId(p, part) == id
  }

  /* ----- the invariant ----- */

  /** What a row says about itself. */
  predicate RowFits(p: Parent, grid: Grid, tenants: set<string>, r: PartRow) {
    if r.isDefault then r.tenant == None && r.bounds == ZERO_BOUNDS && r.status == Active && IsDefaultName(p, r.name)
    else
      && TenantOK(p, tenants, r.tenant) && r.bounds == grid(r.bounds.from)
      && PartName(p, TextOf(r.tenant), r.bounds, false) == Ok(r.name) && NameFits(p, r.tenant, r.bounds)
  }

  predicate TenantOK(p: Parent, tenants: set<string>, tenant: Option<string>) {
    TenantShape(p, tenant) && (tenant.Some? ==> tenant.value in tenants)
  }

  /** Only what lies in the past is retired. */
  predicate RetiredIsPast(r: PartRow, now: Instant) { r.status != Active ==> r.bounds.to <= now }

  function AttachmentOf(p: Parent, r: PartRow): Attachment {
    if r.isDefault then DefaultPart(p.id) else Ranged(p.id, r.tenant, r.bounds)
  }

  predicate IsLoose(tables: map<TableId, Attachment>, id: TableId) { id in tables && tables[id] == Loose }

  /** What a row says about the tables: an active row has an attached child with
      its bounds, or the default, which may be detached; a detached row a table that is not attached, here or in the
      archive, and a dropped row none. */
  predicate Placed(p: Parent, tables: map<TableId, Attachment>, r: PartRow) {
    var id := IdOf(r.name);
    match r.status
    case Active => id in tables && (tables[id] == AttachmentOf(p, r) || (r.isDefault && tables[id] == Loose))
    case Detached => IsLoose(tables, id) || IsLoose(tables, ArchiveId(p, id))
    case Dropped => id !in tables
  }

  predicate RowOK(p: Parent, grid: Grid, st: Store, r: PartRow, now: Instant) {
    RowFits(p, grid, TenantsOf(st, p.id), r) && RetiredIsPast(r, now) && Placed(p, st.tables, r)
  }

  predicate UniqueNames(meta: seq<PartRow>) { forall i, j :: 0 <= i < j < |meta| ==> meta[i].name != meta[j].name }

  /** Every child of the parent is an active row's. */
  ghost predicate ChildrenKnown(p: Parent, st: Store) {
    forall id :: id in st.tables && IsBelow(st.tables[id], p.id) ==>
      exists r :: r in st.meta && r.parentId == p.id && r.status == Active && IdOf(r.name) == id
  }

  /** Every table named like a partition is some row's. */
  ghost predicate NamesKnown(p: Parent, st: Store) {
    forall id :: id in st.tables && IsPartId(p, id) ==> exists r :: r in st.meta && r.parentId == p.id && IdOf(r.name) == id
  }

  /** No row of another parent has taken a name. */
  ghost predicate NamesFree(p: Parent, st: Store) {
    forall r :: r in st.meta && r.parentId != p.id ==> !IsPartName(p, r.name)
  }

  /** What the server sees to: the default's rows have the parent's columns, and
      while it is attached, none belongs into an attached sibling. */
  ghost predicate Clean(p: Parent, st: Store) {
    && (forall s :: s in WaitingOf(st, p.id) ==> SlotFits(p, s))
    && forall o :: o in st.tables && IsBelow(st.tables[o], p.id) ==> !DefaultHolds(st, p.id, st.tables[o])
  }

  predicate SlotFits(p: Parent, s: Slot) { p.tenanted || s.tenant == None }

  /** One parent's metadata and catalog agree, and both agree with the calendar;
      what belongs to other parents stays out of the way. */
  ghost predicate Consistent(p: Parent, grid: Grid, st: Store, now: Instant) {
    && UniqueNames(st.meta) && TenantsTold(TenantsOf(st, p.id))
    && (forall r :: r in st.meta && r.parentId == p.id ==> RowOK(p, grid, st, r, now))
    && ChildrenKnown(p, st) && NamesKnown(p, st) && NamesFree(p, st) && Clean(p, st)
  }

  /** A newly registered parent: no rows, no children, and nothing in the way. */
  lemma StartsConsistent(p: Parent, grid: Grid, st: Store, now: Instant)
    requires UniqueNames(st.meta) && TenantsTold(TenantsOf(st, p.id))
    requires forall r :: r in st.meta ==> r.parentId != p.id && !IsPartName(p, r.name)
    requires forall id :: id in st.tables ==> !IsBelow(st.tables[id], p.id) && !IsPartId(p, id)
    requires WaitingOf(st, p.id) == {}
    ensures Consistent(p, grid, st, now)
  {
  }

  lemma LaterStaysConsistent(p: Parent, grid: Grid, st: Store, now: Instant, later: Instant)
    requires Consistent(p, grid, st, now) && now <= later
    ensures Consistent(p, grid, st, later)
  {
    hide RowFits, Placed, UniqueNames, ChildrenKnown, NamesKnown, NamesFree, TenantsTold;
    assert forall r :: r in st.meta && r.parentId == p.id ==> RowOK(p, grid, st, r, now);
  }

  lemma NameIsUnique(meta: seq<PartRow>, r: PartRow, q: PartRow)
    requires UniqueNames(meta) && r in meta && q in meta
    ensures r.name == q.name ==> r == q
  {
  }

  lemma RowSplits(p: Parent, grid: Grid, tenants: set<string>, r: PartRow)
    requires RowFits(p, grid, tenants, r)
    ensures IsPartName(p, r.name) && Whole(r.name) && IdOf(r.name).schema == p.schema
    ensures !r.isDefault ==> IsRangeName(p, r.name)
  {
    hide Whole, IdOf, IsRangeName, PartName, Fits, TenantShape;
    if r.isDefault {
      FromDefaultName(p);
    } else {
      FromRangeName(p, r.tenant, r.bounds);
    }
  }

  /** What the invariant promises a user: per tenant the active ranges are
      disjoint, and each is the window of its start. */
  lemma ConsistentMeans(p: Parent, grid: Grid, st: Store, now: Instant, r: PartRow, q: PartRow)
    requires Tiling(grid) && Consistent(p, grid, st, now)
    requires r in st.meta && q in st.meta && r != q && r.parentId == q.parentId == p.id && !r.isDefault && !q.isDefault
    requires r.status == q.status == Active && r.tenant == q.tenant
    ensures Disjoint(r.bounds, q.bounds)
    ensures r.bounds == grid(r.bounds.from)
  {
    hide Placed, PartName, ChildrenKnown, NamesKnown, NamesFree, TenantOK, TenantsTold, Fits;
    assert RowOK(p, grid, st, r, now) && RowOK(p, grid, st, q, now);
    EqualOrDisjoint(grid, r.bounds.from, q.bounds.from);
    NameIsUnique(st.meta, r, q);
  }

  /* ----- what one parent's steps touch ----- */

  predicate SameAt(a: map<TableId, Attachment>, b: map<TableId, Attachment>, id: TableId) {
    (id in a <==> id in b) && (id in a ==> a[id] == b[id])
  }

  /** Only the parent's own rows, tables and tenants have changed. */
  ghost predicate Within(p: Parent, st: Store, next: Store) {
    && (forall r: PartRow :: r.parentId != p.id ==> (r in st.meta <==> r in next.meta))
    && (forall id :: SameAt(st.tables, next.tables, id)
                     || (Owns(p, id) && (id in next.tables ==> next.tables[id] == Loose || next.tables[id].parentId == p.id)))
    && (forall q :: q != p.id ==> TenantsOf(next, q) == TenantsOf(st, q) && WaitingOf(next, q) == WaitingOf(st, q))
  }

  lemma WithinItself(p: Parent, st: Store)
    ensures Within(p, st, st)
  {
  }

  lemma WithinTwice(p: Parent, a: Store, b: Store, c: Store)
    requires Within(p, a, b) && Within(p, b, c)
    ensures Within(p, a, c)
  {
    hide Owns;
    forall id
      ensures SameAt(a.tables, c.tables, id)
              || (Owns(p, id) && (id in c.tables ==> c.tables[id] == Loose || c.tables[id].parentId == p.id))
    {
      assert SameAt(a.tables, b.tables, id) || Owns(p, id);
      assert SameAt(b.tables, c.tables, id) || Owns(p, id);
    }
  }

  /** The tables of two parents' partitions never have one name, be it in their
      schemas or in their archives. */
  ghost predicate Apart(p: Parent, q: Parent) { p.id != q.id && forall id :: !(Owns(p, id) && Owns(q, id)) }

  /** What stays within one parent keeps the invariant of another. */
  lemma OthersStayConsistent(p: Parent, grid: Grid, q: Parent, st: Store, next: Store, now: Instant)
    requires Apart(p, q) && Consistent(p, grid, st, now) && Within(q, st, next) && UniqueNames(next.meta)
    requires forall r :: r in next.meta && r.parentId == q.id ==> IsPartName(q, r.name)
    ensures Consistent(p, grid, next, now)
  {
    hide IsPartName, IsRangeName, IsPartId, Owns, RowFits, UniqueNames, TenantsTold, IdOf, Whole, ArchiveId, DefaultHolds;
    assert TenantsOf(next, p.id) == TenantsOf(st, p.id);
    forall id | Owns(p, id)
      ensures SameAt(st.tables, next.tables, id)
    {
      assert !Owns(q, id);
    }
    forall r | r in next.meta && r.parentId == p.id
      ensures RowOK(p, grid, next, r, now)
    {
      assert RowOK(p, grid, st, r, now);
      RowSplits(p, grid, TenantsOf(st, p.id), r);
      NamedIsPartId(p, r.name);
      DefaultIsActive(p, grid, TenantsOf(st, p.id), r);
    }
    CleanElsewhere(p, q, st, next);
    forall r | r in next.meta && r.parentId != p.id
      ensures !IsPartName(p, r.name)
    {
      if r.parentId == q.id {
        NamesApart(p, q, r.name);
      }
    }
    forall id | id in next.tables && IsBelow(next.tables[id], p.id)
      ensures exists r :: r in next.meta && r.parentId == p.id && r.status == Active && IdOf(r.name) == id
    {
      assert SameAt(st.tables, next.tables, id);
      var r :| r in st.meta && r.parentId == p.id && r.status == Active && IdOf(r.name) == id;
      assert r in next.meta;
    }
    forall id | id in next.tables && IsPartId(p, id)
      ensures exists r :: r in next.meta && r.parentId == p.id && IdOf(r.name) == id
    {
      PartIsOwned(p, id);
      var r :| r in st.meta && r.parentId == p.id && IdOf(r.name) == id;
      assert r in next.meta;
    }
  }

  lemma DefaultIsActive(p: Parent, grid: Grid, tenants: set<string>, r: PartRow)
    requires RowFits(p, grid, tenants, r)
    ensures r.isDefault ==> r.status == Active
  {
  }

  lemma CleanElsewhere(p: Parent, q: Parent, st: Store, next: Store)
    requires p.id != q.id && Clean(p, st) && Within(q, st, next)
    ensures Clean(p, next)
  {
    hide Owns, Takes;
    forall o | o in next.tables && IsBelow(next.tables[o], p.id)
      ensures !DefaultHolds(next, p.id, next.tables[o])
    {
      assert SameAt(st.tables, next.tables, o);
      if DefaultAttached(next.tables, p.id) {
        var d :| d in next.tables && next.tables[d] == DefaultPart(p.id);
        assert SameAt(st.tables, next.tables, d);
      }
    }
  }

  lemma PartIsOwned(p: Parent, id: TableId)
    requires IsPartId(p, id)
    ensures Owns(p, id)
  {
  }

  lemma NamesApart(p: Parent, q: Parent, name: string)
    requires Apart(p, q) && IsPartName(q, name)
    ensures !IsPartName(p, name)
  {
    hide IsPartName, IdOf;
    if IsPartName(p, name) {
      NamedIsPartId(p, name);
      NamedIsPartId(q, name);
    }
  }

  /* ----- adding a partition ----- */

  /** The store with one more partition. */
  function WithPartition(p: Parent, st: Store, row: PartRow): Store {
    st.(meta := st.meta + [row], tables := st.tables[IdOf(row.name) := AttachmentOf(p, row)],
        waiting := if row.isDefault then st.waiting[p.id := {}] else st.waiting)
  }

  /** The rows that were there stay in order when a table comes that is none of
      theirs. */
  lemma RowStaysOK(p: Parent, grid: Grid, st: Store, now: Instant, row: PartRow, r: PartRow)
    requires RowOK(p, grid, st, r, now) && RowFits(p, grid, TenantsOf(st, p.id), row) && r.name != row.name
    requires IdOf(row.name) !in st.tables
    ensures RowOK(p, grid, WithPartition(p, st, row), r, now)
  {
    hide RowFits, IdOf, Whole, IsPartName, IsRangeName, ArchiveId, AttachmentOf;
    RowSplits(p, grid, TenantsOf(st, p.id), r);
    RowSplits(p, grid, TenantsOf(st, p.id), row);
    IdsDiffer(r.name, row.name);
  }

  lemma AddPartition(p: Parent, grid: Grid, st: Store, now: Instant, row: PartRow)
    requires Consistent(p, grid, st, now) && row.parentId == p.id && row.status == Active
    requires RowFits(p, grid, TenantsOf(st, p.id), row)
    requires (forall r :: r in st.meta ==> r.name != row.name) && IdOf(row.name) !in st.tables
    requires !row.isDefault ==> !DefaultHolds(st, p.id, AttachmentOf(p, row))
    ensures Consistent(p, grid, WithPartition(p, st, row), now) && Within(p, st, WithPartition(p, st, row))
  {
    hide RowFits, IdOf, IsPartName, IsRangeName, IsPartId, IsRangeId, TenantsTold, Owns, RowOK, ChildrenKnown, NamesKnown,
      Clean, DefaultHolds, ArchiveId, Whole;
    StaysClean(p, st, row);
    var next := WithPartition(p, st, row);
    RowSplits(p, grid, TenantsOf(st, p.id), row);
    NamedIsPartId(p, row.name);
    TableKnown(p, st, row);
    assert TenantsOf(next, p.id) == TenantsOf(st, p.id);
    forall r | r in next.meta && r.parentId == p.id
      ensures RowOK(p, grid, next, r, now)
    {
      if r in st.meta {
        RowStaysOK(p, grid, st, now, row, r);
      } else {
        NewRowOK(p, grid, st, now, row);
      }
    }
  }

  lemma StaysClean(p: Parent, st: Store, row: PartRow)
    requires Clean(p, st) && IdOf(row.name) !in st.tables && row.parentId == p.id
    requires !row.isDefault ==> !DefaultHolds(st, p.id, AttachmentOf(p, row))
    ensures Clean(p, WithPartition(p, st, row))
    ensures !row.isDefault ==> (DefaultAttached(st.tables, p.id) <==> DefaultAttached(WithPartition(p, st, row).tables, p.id))
  {
    hide IdOf, Takes;
    var next := WithPartition(p, st, row);
    if !row.isDefault && DefaultAttached(next.tables, p.id) {
      var d :| d in next.tables && next.tables[d] == DefaultPart(p.id);
      assert d in st.tables && st.tables[d] == DefaultPart(p.id);
    }
    if !row.isDefault && DefaultAttached(st.tables, p.id) {
      var d :| d in st.tables && st.tables[d] == DefaultPart(p.id);
      assert d in next.tables && next.tables[d] == DefaultPart(p.id);
    }
  }

  lemma TableKnown(p: Parent, st: Store, row: PartRow)
    requires ChildrenKnown(p, st) && NamesKnown(p, st) && row.parentId == p.id && row.status == Active
    ensures ChildrenKnown(p, WithPartition(p, st, row)) && NamesKnown(p, WithPartition(p, st, row))
  {
    hide IdOf, IsPartId, AttachmentOf;
    var next := WithPartition(p, st, row);
    assert row in next.meta;
    forall o | o in next.tables && IsBelow(next.tables[o], p.id)
      ensures exists r :: r in next.meta && r.parentId == p.id && r.status == Active && IdOf(r.name) == o
    {
      if o != IdOf(row.name) {
        var r :| r in st.meta && r.parentId == p.id && r.status == Active && IdOf(r.name) == o;
        assert r in next.meta;
      }
    }
    forall o | o in next.tables && IsPartId(p, o)
      ensures exists r :: r in next.meta && r.parentId == p.id && IdOf(r.name) == o
    {
      if o != IdOf(row.name) {
        var r :| r in st.meta && r.parentId == p.id && IdOf(r.name) == o;
        assert r in next.meta;
      }
    }
  }

  lemma NewRowOK(p: Parent, grid: Grid, st: Store, now: Instant, row: PartRow)
    requires RowFits(p, grid, TenantsOf(st, p.id), row) && row.status == Active
    ensures RowOK(p, grid, WithPartition(p, st, row), row, now)
  {
    hide RowFits, IdOf;
  }

  /** The row a bounded partition gets. */
  function BoundedRow(p: Parent, tenant: Option<string>, b: Bounds, fq: string): PartRow {
    PartRow(fq, p.id, tenant, b, false, Active)
  }

  predicate Wanted(p: Parent, grid: Grid, st: Store, now: Instant, tenant: Option<string>, b: Bounds) {
    b == grid(b.from) && b.to > now && !HasActive(p, st.meta, tenant, b) && NameFits(p, tenant, b)
  }

  /** Two rows of one name have the same tenant and range. */
  lemma SameNameSameRange(p: Parent, grid: Grid, tenants: set<string>, r: PartRow, tenant: Option<string>, b: Bounds)
    requires DayGrid(grid) && TenantsTold(tenants) && TenantOK(p, tenants, tenant) && b == grid(b.from)
    requires RowFits(p, grid, tenants, r) && PartName(p, TextOf(tenant), b, false) == Ok(r.name)
    ensures !r.isDefault && r.tenant == tenant && r.bounds == b
  {
    hide BuildName, ToUpper, Tiling, Fits;
    assert r.isDefault ==> IsDefaultName(p, r.name);
    var mine := PartOf(p, TextOf(tenant), b, false);
    var other := if r.isDefault then PartOf(p, "", ZERO_BOUNDS, true) else PartOf(p, TextOf(r.tenant), r.bounds, false);
    BuiltNamesDiffer(mine, other);
    assert IsMidnight(grid(b.from).from);
    assert !r.isDefault ==> IsMidnight(grid(r.bounds.from).from);
  }

  lemma GridTiles(grid: Grid)
    requires DayGrid(grid)
    ensures Tiling(grid)
  {
  }

  /** A partition's name that no row has is the name of no table. */
  lemma FreeNameFreeTable(p: Parent, grid: Grid, st: Store, now: Instant, fq: string)
    requires Consistent(p, grid, st, now) && IsPartName(p, fq)
    requires forall r :: r in st.meta && r.parentId == p.id ==> r.name != fq
    ensures IdOf(fq) !in st.tables && forall r :: r in st.meta ==> r.name != fq
  {
    hide RowFits, Placed, IsPartName, IsPartId, Whole, IdOf, UniqueNames, TenantsTold;
    NamedIsPartId(p, fq);
    if IdOf(fq) in st.tables {
      var r :| r in st.meta && r.parentId == p.id && IdOf(r.name) == IdOf(fq);
      assert RowOK(p, grid, st, r, now);
      RowSplits(p, grid, TenantsOf(st, p.id), r);
      PartNameFacts(p, fq);
      IdsDiffer(r.name, fq);
    }
  }

  /** A child of the parent that stands where another is to come has that one's
      tenant and a window of its own. */
  lemma SiblingsDisjoint(p: Parent, grid: Grid, st: Store, now: Instant, tenant: Option<string>, b: Bounds, o: TableId)
    requires DayGrid(grid) && Consistent(p, grid, st, now) && b == grid(b.from) && !HasActive(p, st.meta, tenant, b)
    requires o in st.tables
    ensures !Clash(st.tables[o], Ranged(p.id, tenant, b))
  {
    hide PartName, IdOf, DayGrid, UniqueNames, TenantsTold, TenantOK, Fits, NamesKnown, NamesFree;
    if IsBelow(st.tables[o], p.id) && st.tables[o].Ranged? {
      var r :| r in st.meta && r.parentId == p.id && r.status == Active && IdOf(r.name) == o;
      assert RowOK(p, grid, st, r, now);
      assert r.tenant == tenant && r.bounds == b ==> IsActiveFor(r, tenant, b);
      GridTiles(grid);
      EqualOrDisjoint(grid, r.bounds.from, b.from);
    }
  }

  lemma ShapeOfOK(p: Parent, tenants: set<string>, tenant: Option<string>)
    requires TenantOK(p, tenants, tenant)
    ensures TenantShape(p, tenant)
  {
  }

  /** No row of the parent has the name. */
  predicate Unnamed(p: Parent, meta: seq<PartRow>, name: string) {
    forall r :: r in meta && r.parentId == p.id ==> r.name != name
  }

  lemma WantedIsUnnamed(p: Parent, grid: Grid, st: Store, now: Instant, tenant: Option<string>, b: Bounds, fq: string)
    requires DayGrid(grid) && Consistent(p, grid, st, now) && TenantOK(p, TenantsOf(st, p.id), tenant)
    requires Wanted(p, grid, st, now, tenant, b) && PartName(p, TextOf(tenant), b, false) == Ok(fq)
    ensures Unnamed(p, st.meta, fq)
  {
    hide PartName, IdOf, DayGrid, UniqueNames, TenantsTold, ChildrenKnown, NamesKnown, NamesFree, Fits, TenantOK,
      Placed, Clean;
    forall r | r in st.meta && r.parentId == p.id
      ensures r.name != fq
    {
      assert RowOK(p, grid, st, r, now);
      if r.name == fq {
        SameNameSameRange(p, grid, TenantsOf(st, p.id), r, tenant, b);
      }
      assert r.tenant == tenant && r.bounds == b && !r.isDefault && r.status == Active ==> IsActiveFor(r, tenant, b);
    }
  }

  /** The table of a window whose name no row has is free, no sibling overlaps it
      and no row conflicts with it. */
  lemma UnnamedIsFree(p: Parent, grid: Grid, st: Store, now: Instant, tenant: Option<string>, b: Bounds, fq: string)
    requires DayGrid(grid) && Consistent(p, grid, st, now) && TenantOK(p, TenantsOf(st, p.id), tenant)
    requires b == grid(b.from) && NameFits(p, tenant, b) && PartName(p, TextOf(tenant), b, false) == Ok(fq)
    requires Unnamed(p, st.meta, fq)
    ensures (forall r :: r in st.meta ==> r.name != fq) && IdOf(fq) !in st.tables && !HasActive(p, st.meta, tenant, b)
    ensures forall o :: o in st.tables ==> !Clash(st.tables[o], Ranged(p.id, tenant, b))
    ensures !Blocked(st.meta, BoundedRow(p, tenant, b, fq))
  {
    hide PartName, IdOf, DayGrid, IsRangeName, IsDefaultName, UniqueNames, TenantsTold, ChildrenKnown, NamesKnown,
      NamesFree, Clash, Fits, TenantOK, Placed, Clean;
    forall r | r in st.meta && r.parentId == p.id
      ensures !IsActiveFor(r, tenant, b)
      ensures r.tenant == tenant && r.bounds == b ==> r.isDefault
      ensures r.isDefault ==> r.tenant == None
    {
      assert RowOK(p, grid, st, r, now);
    }
    FromRangeName(p, tenant, b) by { ShapeOfOK(p, TenantsOf(st, p.id), tenant); }
    FreeNameFreeTable(p, grid, st, now, fq);
    forall o | o in st.tables
      ensures !Clash(st.tables[o], Ranged(p.id, tenant, b))
    {
      SiblingsDisjoint(p, grid, st, now, tenant, b, o);
    }
  }

  /** The name and the table of a wanted partition are free, no sibling overlaps
      it and no row conflicts with it. */
  lemma WantedIsFree(p: Parent, grid: Grid, st: Store, now: Instant, tenant: Option<string>, b: Bounds, fq: string)
    requires DayGrid(grid) && Consistent(p, grid, st, now) && TenantOK(p, TenantsOf(st, p.id), tenant)
    requires Wanted(p, grid, st, now, tenant, b) && PartName(p, TextOf(tenant), b, false) == Ok(fq)
    ensures (forall r :: r in st.meta ==> r.name != fq) && IdOf(fq) !in st.tables
    ensures forall o :: o in st.tables ==> !Clash(st.tables[o], Ranged(p.id, tenant, b))
    ensures !Blocked(st.meta, BoundedRow(p, tenant, b, fq))
  {
    hide PartName, IdOf, DayGrid, Consistent, Clash, NameFits, TenantOK, HasActive, Unnamed, Blocked;
    WantedIsUnnamed(p, grid, st, now, tenant, b, fq);
    UnnamedIsFree(p, grid, st, now, tenant, b, fq);
  }

  /** Nothing in the way of a table and its row: both come, unless the default
      holds a row that belongs into the new partition. */
  lemma CreatesNew(p: Parent, st: Store, id: TableId, part: Attachment, row: PartRow)
    requires Named(id) == id && id !in st.tables && FitsKey(p, part)
    requires forall o :: o in st.tables ==> !Clash(st.tables[o], part)
    requires (row.tenant.Some? ==> row.tenant.value in TenantsOf(st, row.parentId)) && !Blocked(st.meta, row)
    ensures Created(p, st, id, part, row)
         == if DefaultHolds(st, p.id, part) then None
            else Some(st.(meta := st.meta + [row], tables := st.tables[id := part],
                          waiting := if part.DefaultPart? then st.waiting[p.id := {}] else st.waiting))
  {
    hide Blocked, Clash, FitsKey, Named, DefaultHolds;
  }

  lemma BoundedIs(p: Parent, st: Store, tenant: Option<string>, b: Bounds, fq: string)
    requires PartName(p, TextOf(tenant), b, false) == Ok(fq)
    requires NameFits(p, tenant, b) && (TextOf(tenant) == "" ==> tenant == None)
    ensures CreateBounded(p, st, tenant, b) == Created(p, st, IdOf(fq), Ranged(p.id, tenant, b), BoundedRow(p, tenant, b, fq))
    ensures Named(IdOf(fq)) == IdOf(fq)
  {
    hide Created, Fits, PartName, TableOf, Clip;
    PartNameSplits(p, TextOf(tenant), b, false);
  }

  lemma TenantIsWord(p: Parent, tenants: set<string>, tenant: Option<string>)
    requires TenantsTold(tenants) && TenantOK(p, tenants, tenant)
    ensures TextOf(tenant) == "" ==> tenant == None
  {
  }

  /** The server creates the partition of a window whose name no row has, if and
      only if an attached default holds no row that belongs into it; then its table
      and its row come, and nothing else. */
  lemma CreatesUnnamed(p: Parent, grid: Grid, st: Store, now: Instant, tenant: Option<string>, b: Bounds, fq: string)
    requires DayGrid(grid) && Consistent(p, grid, st, now) && TenantOK(p, TenantsOf(st, p.id), tenant)
    requires b == grid(b.from) && NameFits(p, tenant, b) && PartName(p, TextOf(tenant), b, false) == Ok(fq)
    requires Unnamed(p, st.meta, fq)
    ensures var next := WithPartition(p, st, BoundedRow(p, tenant, b, fq));
      if DefaultHolds(st, p.id, Ranged(p.id, tenant, b)) then CreateBounded(p, st, tenant, b) == None
      else CreateBounded(p, st, tenant, b) == Some(next) && Consistent(p, grid, next, now) && Within(p, st, next)
  {
    var row := BoundedRow(p, tenant, b, fq);
    TenantIsWord(p, TenantsOf(st, p.id), tenant);
    hide Consistent, Blocked, Clash, Within, IdOf, Named, PartName, CreateBounded, DayGrid, TenantsTold, DefaultHolds, Fits,
      HasActive, Unnamed;
    UnnamedIsFree(p, grid, st, now, tenant, b, fq);
    BoundedIs(p, st, tenant, b, fq);
    GridTiles(grid);
    assert b.from < b.to by { WindowsAbut(grid, b.from); }
    CreatesNew(p, st, IdOf(fq), Ranged(p.id, tenant, b), row);
    if !DefaultHolds(st, p.id, Ranged(p.id, tenant, b)) {
      AddPartition(p, grid, st, now, row);
    }
  }

  /** So for a wanted partition; insert-or-ignore does not swallow its row. */
  lemma CreatesWanted(p: Parent, grid: Grid, st: Store, now: Instant, tenant: Option<string>, b: Bounds, fq: string)
    requires DayGrid(grid) && Consistent(p, grid, st, now) && TenantOK(p, TenantsOf(st, p.id), tenant)
    requires Wanted(p, grid, st, now, tenant, b) && PartName(p, TextOf(tenant), b, false) == Ok(fq)
    ensures var next := WithPartition(p, st, BoundedRow(p, tenant, b, fq));
      if DefaultHolds(st, p.id, Ranged(p.id, tenant, b)) then CreateBounded(p, st, tenant, b) == None
      else CreateBounded(p, st, tenant, b) == Some(next) && Consistent(p, grid, next, now) && Within(p, st, next)
  {
    hide Consistent, Within, PartName, CreateBounded, DayGrid, DefaultHolds, NameFits, HasActive, Unnamed, TenantOK;
    WantedIsUnnamed(p, grid, st, now, tenant, b, fq);
    CreatesUnnamed(p, grid, st, now, tenant, b, fq);
  }

  /** Which rows are active for a tenant once one is added. */
  lemma ActiveAfter(p: Parent, meta: seq<PartRow>, row: PartRow, tenant: Option<string>, b: Bounds)
    ensures HasActive(p, meta + [row], tenant, b)
      <==> HasActive(p, meta, tenant, b) || (row.parentId == p.id && IsActiveFor(row, tenant, b))
  {
    hide IsActiveFor;
    if HasActive(p, meta, tenant, b) {
      var r :| r in meta && r.parentId == p.id && IsActiveFor(r, tenant, b);
      assert r in meta + [row];
    }
    assert row in meta + [row];
  }

  /** Every name the tenant's partitions need can be built. */
  predicate WellNamed(p: Parent, tenant: Option<string>) {
    IsWord(p.schema) && IsWord(p.table) && (tenant.Some? ==> IsWord(tenant.value))
  }

  /** The windows `bs` are added to the active ones; every row stays, and no
      default comes. */
  ghost predicate Grown(p: Parent, st: Store, next: Store, tenant: Option<string>, bs: seq<Bounds>) {
    && (forall b :: HasActive(p, next.meta, tenant, b) <==> HasActive(p, st.meta, tenant, b) || b in bs)
    && (forall r :: r in st.meta ==> r in next.meta)
    && (forall r :: r in next.meta && r !in st.meta ==> !r.isDefault)
    && |next.meta| == |st.meta| + |bs| && next.tenants == st.tenants && next.waiting == st.waiting
    && (DefaultAttached(next.tables, p.id) <==> DefaultAttached(st.tables, p.id))
  }

  lemma GrownByOne(p: Parent, st: Store, tenant: Option<string>, row: PartRow)
    requires row.parentId == p.id && IsActiveFor(row, tenant, row.bounds) && IdOf(row.name) !in st.tables
    ensures Grown(p, st, WithPartition(p, st, row), tenant, [row.bounds])
  {
    hide IdOf;
    var next := WithPartition(p, st, row);
    forall b
      ensures HasActive(p, next.meta, tenant, b) <==> HasActive(p, st.meta, tenant, b) || b in [row.bounds]
    {
      ActiveAfter(p, st.meta, row, tenant, b);
    }
    if DefaultAttached(st.tables, p.id) {
      var d :| d in st.tables && st.tables[d] == DefaultPart(p.id);
      assert next.tables[d] == DefaultPart(p.id);
    }
    if DefaultAttached(next.tables, p.id) {
      var d :| d in next.tables && next.tables[d] == DefaultPart(p.id);
      assert d in st.tables;
    }
  }

  /** An attached default holds no row that belongs into one of the windows. */
  ghost predicate NothingWaits(p: Parent, st: Store, tenant: Option<string>, bs: seq<Bounds>) {
    forall b :: b in bs ==> !DefaultHolds(st, p.id, Ranged(p.id, tenant, b))
  }

  lemma WaitsAlike(p: Parent, st: Store, next: Store, tenant: Option<string>, bs: seq<Bounds>)
    requires bs != [] && Grown(p, st, next, tenant, [bs[0]])
    ensures NothingWaits(p, st, tenant, bs)
      <==> !DefaultHolds(st, p.id, Ranged(p.id, tenant, bs[0])) && NothingWaits(p, next, tenant, bs[1..])
  {
    hide HasActive, Takes;
    assert forall b :: b in bs <==> b == bs[0] || b in bs[1..];
  }

  lemma GrownTwice(p: Parent, st: Store, mid: Store, next: Store, tenant: Option<string>, bs: seq<Bounds>)
    requires bs != [] && Grown(p, st, mid, tenant, [bs[0]]) && Grown(p, mid, next, tenant, bs[1..])
    ensures Grown(p, st, next, tenant, bs)
  {
    hide HasActive;
    assert forall b :: b in bs <==> b in [bs[0]] || b in bs[1..];
  }

  /** All the wanted windows are created, in one transaction.  If their names can
      be built, the server accepts it if and only if an attached default holds no
      row of any of them. */
  lemma {:induction false} CreatesAllWanted(p: Parent, grid: Grid, st: Store, now: Instant, tenant: Option<string>,
                                            bs: seq<Bounds>)
    requires DayGrid(grid) && Consistent(p, grid, st, now) && TenantOK(p, TenantsOf(st, p.id), tenant)
    requires Distinct(bs) && forall b :: b in bs ==> Wanted(p, grid, st, now, tenant, b)
    ensures var next := CreateAll(p, st, tenant, bs);
      && (next.Some? ==> NothingWaits(p, st, tenant, bs))
      && (WellNamed(p, tenant) && NothingWaits(p, st, tenant, bs) ==> next.Some?)
      && (next.Some? ==>
            Consistent(p, grid, next.value, now) && Within(p, st, next.value) && Grown(p, st, next.value, tenant, bs))
    decreases |bs|
  {
    if bs == [] {
      WithinItself(p, st);
      assert NothingWaits(p, st, tenant, bs);
    } else {
      hide *;
      match PartName(p, TextOf(tenant), bs[0], false) {
        case Err(_) => NamelessFails(p, st, tenant, bs);
        case Ok(fq) => CreatesFirstWanted(p, grid, st, now, tenant, bs, fq);
      }
      if CreateBounded(p, st, tenant, bs[0]).Some? {
        var next := CreateBounded(p, st, tenant, bs[0]).value;
        CreatesAllWanted(p, grid, next, now, tenant, bs[1..]);
        AllFromFirst(p, st, tenant, bs);
        WaitsAlike(p, st, next, tenant, bs);
        if CreateAll(p, next, tenant, bs[1..]).Some? {
          GrownTwice(p, st, next, CreateAll(p, next, tenant, bs[1..]).value, tenant, bs);
          WithinTwice(p, st, next, CreateAll(p, next, tenant, bs[1..]).value);
        }
      } else {
        AllFromFirst(p, st, tenant, bs);
      }
    }
  }

  lemma AllFromFirst(p: Parent, st: Store, tenant: Option<string>, bs: seq<Bounds>)
    requires bs != []
    ensures CreateAll(p, st, tenant, bs)
         == if CreateBounded(p, st, tenant, bs[0]).None? then None
            else CreateAll(p, CreateBounded(p, st, tenant, bs[0]).value, tenant, bs[1..])
    ensures DefaultHolds(st, p.id, Ranged(p.id, tenant, bs[0])) ==> !NothingWaits(p, st, tenant, bs)
  {
    hide CreateBounded, DefaultHolds;
    assert bs[0] in bs;
  }

  lemma CreatesFirstWanted(p: Parent, grid: Grid, st: Store, now: Instant, tenant: Option<string>, bs: seq<Bounds>,
                           fq: string)
    requires DayGrid(grid) && Consistent(p, grid, st, now) && TenantOK(p, TenantsOf(st, p.id), tenant)
    requires bs != [] && Distinct(bs) && forall b :: b in bs ==> Wanted(p, grid, st, now, tenant, b)
    requires PartName(p, TextOf(tenant), bs[0], false) == Ok(fq)
    ensures var next := CreateBounded(p, st, tenant, bs[0]);
      if DefaultHolds(st, p.id, Ranged(p.id, tenant, bs[0])) then next == None
      else
        && next.Some? && Consistent(p, grid, next.value, now) && Within(p, st, next.value)
        && Grown(p, st, next.value, tenant, [bs[0]]) && TenantsOf(next.value, p.id) == TenantsOf(st, p.id)
        && Distinct(bs[1..]) && forall b :: b in bs[1..] ==> Wanted(p, grid, next.value, now, tenant, b)
  {
    hide Consistent, DayGrid, HasActive, CreateBounded, Grown, PartName, Wanted, Within, TenantOK, DefaultHolds;
    var b := bs[0];
    CreatesWanted(p, grid, st, now, tenant, b, fq);
    if !DefaultHolds(st, p.id, Ranged(p.id, tenant, b)) {
      WantedIsFree(p, grid, st, now, tenant, b, fq);
      GrownByOne(p, st, tenant, BoundedRow(p, tenant, b, fq));
      OthersStayWanted(p, grid, st, CreateBounded(p, st, tenant, b).value, now, tenant, bs);
    }
  }

  lemma OthersStayWanted(p: Parent, grid: Grid, st: Store, next: Store, now: Instant, tenant: Option<string>,
                         bs: seq<Bounds>)
    requires bs != [] && Distinct(bs) && Grown(p, st, next, tenant, [bs[0]])
    requires forall b :: b in bs ==> Wanted(p, grid, st, now, tenant, b)
    ensures Distinct(bs[1..]) && forall b :: b in bs[1..] ==> Wanted(p, grid, next, now, tenant, b)
    ensures TenantsOf(next, p.id) == TenantsOf(st, p.id)
  {
    hide HasActive, NameFits;
    forall b | b in bs[1..]
      ensures Wanted(p, grid, next, now, tenant, b)
    {
      assert b in bs && b !in [bs[0]];
      assert Wanted(p, grid, st, now, tenant, b);
    }
  }

  lemma NamelessFails(p: Parent, st: Store, tenant: Option<string>, bs: seq<Bounds>)
    requires bs != [] && PartName(p, TextOf(tenant), bs[0], false).Err?
    ensures CreateBounded(p, st, tenant, bs[0]) == None
    ensures TenantOK(p, TenantsOf(st, p.id), tenant) ==> !WellNamed(p, tenant)
  {
  }

  lemma CreatesDefault(p: Parent, grid: Grid, st: Store, now: Instant)
    requires Consistent(p, grid, st, now) && !HasDefault(p, st.meta) && DefaultFits(p)
    ensures var next := CreateDefault(p, st);
      && (IsWord(p.schema) && IsWord(p.table) ==> next.Some?)
      && (next.Some? ==>
            && Consistent(p, grid, next.value, now) && Within(p, st, next.value) && HasDefault(p, next.value.meta)
            && (forall tenant, b :: HasActive(p, next.value.meta, tenant, b) <==> HasActive(p, st.meta, tenant, b))
            && (forall r :: r in st.meta ==> r in next.value.meta) && next.value.tenants == st.tenants
            && |next.value.meta| == |st.meta| + 1 && WaitingOf(next.value, p.id) == {})
  {
    hide BuildName, Consistent, Within, IsWord, Clash, Fits, TableOf;
    var name := PartName(p, "", ZERO_BOUNDS, true);
    if name.Ok? {
      var row := PartRow(name.value, p.id, None, ZERO_BOUNDS, true, Active);
      PartNameSplits(p, "", ZERO_BOUNDS, true);
      DefaultIsFree(p, grid, st, now, name.value);
      AddPartition(p, grid, st, now, row);
      assert HasDefault(p, st.meta + [row]) by { assert row in st.meta + [row]; }
      forall tenant, b
        ensures HasActive(p, st.meta + [row], tenant, b) <==> HasActive(p, st.meta, tenant, b)
      {
        ActiveAfter(p, st.meta, row, tenant, b);
      }
    } else {
      NoDefaultName(p);
    }
  }

  lemma NoDefaultName(p: Parent)
    requires PartName(p, "", ZERO_BOUNDS, true).Err?
    ensures !(IsWord(p.schema) && IsWord(p.table))
  {
  }

  lemma DefaultIsFree(p: Parent, grid: Grid, st: Store, now: Instant, fq: string)
    requires Consistent(p, grid, st, now) && !HasDefault(p, st.meta) && PartName(p, "", ZERO_BOUNDS, true) == Ok(fq)
    requires DefaultFits(p)
    ensures (forall r :: r in st.meta ==> r.name != fq) && IdOf(fq) !in st.tables
    ensures forall o :: o in st.tables ==> !Clash(st.tables[o], DefaultPart(p.id))
    ensures !Blocked(st.meta, PartRow(fq, p.id, None, ZERO_BOUNDS, true, Active))
  {
    hide BuildName, IdOf, IsRangeName, UniqueNames, TenantOK, ToUpper, Fits, Placed, ChildrenKnown, NamesKnown, NamesFree,
      TenantsTold;
    forall r | r in st.meta && r.parentId == p.id
      ensures r.name != fq && !r.isDefault
    {
      assert RowOK(p, grid, st, r, now);
      if r.name == fq && !r.isDefault {
        BuiltNamesDiffer(PartOf(p, "", ZERO_BOUNDS, true), PartOf(p, TextOf(r.tenant), r.bounds, false));
      }
    }
    FromDefaultName(p);
    FreeNameFreeTable(p, grid, st, now, fq);
    forall o | o in st.tables
      ensures !Clash(st.tables[o], DefaultPart(p.id))
    {
      NoStrayDefault(p, grid, st, now, o);
    }
  }

  lemma NoStrayDefault(p: Parent, grid: Grid, st: Store, now: Instant, o: TableId)
    requires Consistent(p, grid, st, now) && o in st.tables
    ensures st.tables[o] == DefaultPart(p.id) ==> HasDefault(p, st.meta)
  {
    hide IdOf, PartName, TenantOK, UniqueNames, NamesKnown, NamesFree, TenantsTold, Fits;
    if st.tables[o] == DefaultPart(p.id) {
      var r :| r in st.meta && r.parentId == p.id && r.status == Active && IdOf(r.name) == o;
      assert RowOK(p, grid, st, r, now);
    }
  }
}
