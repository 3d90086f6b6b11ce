/** Provisioning and retention together: what every run of the two keeps. */
module Maintenance {
  import opened Wrappers
  import opened Calendar
  import opened Periods
  import opened Text
  import opened Naming
  import opened Metadata
  import opened Catalog
  import opened Provisioner
  import opened Retention
  import opened Consistency

  /* ----- a whole EnsurePartitions ----- */

  lemma {:induction false} LaterWindows(grid: Grid, t: Instant, count: int, i: nat, j: nat)
    requires Tiling(grid) && i < j < count && |Windows(grid, t, count)| == count
    ensures Windows(grid, t, count)[i].to <= Windows(grid, t, count)[j].from
    decreases j
  {
    hide Tiling;
    var w := Windows(grid, t, count);
    WindowsTile(grid, t, count);
    if i < j - 1 {
      LaterWindows(grid, t, count, i, j - 1);
      WindowsAbut(grid, w[j - 1].from);
      assert w[j - 1] == grid(w[j - 1].from);
    }
    assert w[j - 1].to == w[j - 1 + 1].from;
  }

  /** The required windows are windows of the grid, all different, and none of
      them is over. */
  lemma RequiredWindows(grid: Grid, now: Instant, count: int)
    requires Tiling(grid)
    ensures Distinct(Windows(grid, now, count))
    ensures forall b :: b in Windows(grid, now, count) ==> b == grid(b.from) && b.to > now
  {
    hide Windows, Tiling;
    var w := Windows(grid, now, count);
    NoWindows(grid, now, count);
    if count > 0 {
      WindowsTile(grid, now, count);
      forall i | 0 <= i < count
        ensures w[i] == grid(w[i].from) && w[i].to > w[i].from && w[i].to > now
        ensures forall j :: i < j < count ==> w[i].to <= w[j].from
      {
        WindowsAbut(grid, w[i].from);
        OwnWindow(grid, now);
        forall j | i < j < count
          ensures w[i].to <= w[j].from
        {
          LaterWindows(grid, now, count, i, j);
        }
        if i > 0 {
          LaterWindows(grid, now, count, 0, i);
        }
      }
    }
  }

  lemma OwnWindow(grid: Grid, t: Instant)
    requires Tiling(grid)
    ensures grid(t).Contains(t)
  {
  }

  /** The server keeps the whole names of what a call may create. */
  predicate NamesFit(p: Parent, grid: Grid, now: Instant, tenant: Option<string>) {
    DefaultFits(p) && forall b :: b in Windows(grid, now, p.premake + 1) ==> NameFits(p, tenant, b)
  }

  /** What is to be created is what is required and not there, each wanted. */
  lemma PlanIsWanted(p: Parent, grid: Grid, st: Store, now: Instant, tenant: Option<string>)
    requires DayGrid(grid) && NamesFit(p, grid, now, tenant)
    ensures var todo := ToCreate(p, grid, st.meta, now, tenant);
      && Distinct(todo) && (forall b :: b in todo ==> Wanted(p, grid, st, now, tenant, b))
      && forall b :: b in Windows(grid, now, p.premake + 1) ==> b in todo || HasActive(p, st.meta, tenant, b)
  {
    hide Windows, HasActive, NameFits;
    GridTiles(grid);
    RequiredWindows(grid, now, p.premake + 1);
    FilterDistinct(Windows(grid, now, p.premake + 1), b => !HasActive(p, st.meta, tenant, b));
  }

  /** The server refuses a partition for a tenant that is not registered. */
  lemma StrangerFails(p: Parent, st: Store, tenant: Option<string>, bs: seq<Bounds>)
    requires bs != [] && tenant.Some? && tenant.value !in TenantsOf(st, p.id)
    ensures CreateAll(p, st, tenant, bs) == None
  {
    hide PartName, Clash, FitsKey, DefaultHolds, Named;
  }

  /** The parent's default is attached or not as it was, and holds the same. */
  ghost predicate WaitingSame(p: Parent, st: Store, after: Store) {
    && WaitingOf(after, p.id) == WaitingOf(st, p.id)
    && (DefaultAttached(after.tables, p.id) <==> DefaultAttached(st.tables, p.id))
  }

  /** The default is as it was, or it is new. */
  ghost predicate WaitingKept(p: Parent, st: Store, after: Store) {
    WaitingSame(p, st, after) || (!HasDefault(p, st.meta) && WaitingOf(after, p.id) == {})
  }

  lemma RegisteredOK(p: Parent, grid: Grid, st: Store, now: Instant, tenant: Option<string>)
    requires Consistent(p, grid, st, now) && TenantMatches(p, tenant)
    requires tenant.Some? ==> tenant.value in TenantsOf(st, p.id)
    ensures TenantOK(p, TenantsOf(st, p.id), tenant)
  {
    hide RowOK, ChildrenKnown, NamesKnown, NamesFree, Clean, UniqueNames;
  }

  /** Every EnsurePartitions keeps the invariant and touches nothing that is not
      the parent's; if it succeeds, all required windows have an active row and
      the default is there; and there are as many new rows as it reports. */
  lemma EnsureKeeps(p: Parent, grid: Grid, st: Store, after: Store, now: Instant, tenant: Option<string>,
                    err: Option<EnsureError>, report: EnsureReport)
    requires DayGrid(grid) && Consistent(p, grid, st, now) && NamesFit(p, grid, now, tenant)
    requires EnsureStep(p, grid, st, after, now, tenant, err, report)
    ensures Consistent(p, grid, after, now) && Within(p, st, after)
    ensures after.tenants == st.tenants && WaitingKept(p, st, after)
    ensures forall r :: r in st.meta ==> r in after.meta
    ensures err.None? ==> HasDefault(p, after.meta)
    ensures err.None? ==> forall b :: b in Windows(grid, now, p.premake + 1) ==> HasActive(p, after.meta, tenant, b)
    ensures |after.meta| == |st.meta| + report.boundedCreated + if report.defaultCreated then 1 else 0
  {
    hide Windows, HasActive, DayGrid, Consistent, ToCreate, CreateAll, CreateDefault, HasDefault, Wanted, Within, NamesFit;
    WithinItself(p, st);
    PlanIsWanted(p, grid, st, now, tenant);
    var todo := ToCreate(p, grid, st.meta, now, tenant);
    if err.None? && (todo != [] || !HasDefault(p, st.meta)) {
      var mid := CreateAll(p, st, tenant, todo).value;
      TodoCreated(p, grid, st, now, tenant, todo);
      DefaultsKept(p, st, mid, tenant, todo);
      if !HasDefault(p, st.meta) {
        CreatesDefault(p, grid, mid, now) by { NamesHaveDefault(p, grid, now, tenant); }
        WithinTwice(p, st, mid, after);
      }
    }
  }

  lemma NamesHaveDefault(p: Parent, grid: Grid, now: Instant, tenant: Option<string>)
    requires NamesFit(p, grid, now, tenant)
    ensures DefaultFits(p)
  {
  }

  /** Creating what is wanted, when it succeeds at all. */
  lemma TodoCreated(p: Parent, grid: Grid, st: Store, now: Instant, tenant: Option<string>, todo: seq<Bounds>)
    requires DayGrid(grid) && Consistent(p, grid, st, now) && TenantMatches(p, tenant) && CreateAll(p, st, tenant, todo).Some?
    requires Distinct(todo) && forall b :: b in todo ==> Wanted(p, grid, st, now, tenant, b)
    ensures var mid := CreateAll(p, st, tenant, todo).value;
      && Consistent(p, grid, mid, now) && Within(p, st, mid) && Grown(p, st, mid, tenant, todo)
      && NothingWaits(p, st, tenant, todo)
  {
    hide Consistent, DayGrid, HasActive, CreateBounded, Wanted, Within, Grown;
    if todo == [] {
      NothingGrown(p, st, tenant);
      WithinItself(p, st);
    } else {
      if tenant.Some? && tenant.value !in TenantsOf(st, p.id) {
        StrangerFails(p, st, tenant, todo);
      }
      RegisteredOK(p, grid, st, now, tenant);
      CreatesAllWanted(p, grid, st, now, tenant, todo);
    }
  }

  lemma NothingGrown(p: Parent, st: Store, tenant: Option<string>)
    ensures Grown(p, st, st, tenant, []) && NothingWaits(p, st, tenant, [])
  {
    hide HasActive;
  }

  lemma DefaultsKept(p: Parent, st: Store, next: Store, tenant: Option<string>, bs: seq<Bounds>)
    requires Grown(p, st, next, tenant, bs)
    ensures HasDefault(p, st.meta) <==> HasDefault(p, next.meta)
    ensures WaitingKept(p, st, next) && next.tenants == st.tenants && |next.meta| == |st.meta| + |bs|
    ensures forall r :: r in st.meta ==> r in next.meta
  {
    hide HasActive;
  }

  /** The server accepts the transaction of a call, if and only if an attached
      default holds no row of a window to be created. */
  lemma EnsureAcceptedIff(p: Parent, grid: Grid, st: Store, now: Instant, tenant: Option<string>)
    requires DayGrid(grid) && WellNamed(p, tenant) && Consistent(p, grid, st, now)
    requires TenantOK(p, TenantsOf(st, p.id), tenant) && NamesFit(p, grid, now, tenant)
    ensures var todo := ToCreate(p, grid, st.meta, now, tenant);
      CreateTx(p, st, tenant, todo, !HasDefault(p, st.meta)).Some? <==> NothingWaits(p, st, tenant, todo)
  {
    hide HasActive, DayGrid, Consistent, ToCreate, CreateAll, CreateDefault, HasDefault, Wanted, WellNamed, TenantOK,
      NamesFit, Within, NothingWaits;
    var todo := ToCreate(p, grid, st.meta, now, tenant);
    PlanIsWanted(p, grid, st, now, tenant);
    CreatesAllWanted(p, grid, st, now, tenant, todo);
    if NothingWaits(p, st, tenant, todo) && !HasDefault(p, st.meta) {
      var mid := CreateAll(p, st, tenant, todo).value;
      DefaultsKept(p, st, mid, tenant, todo);
      CreatesDefault(p, grid, mid, now) by { NamesHaveDefault(p, grid, now, tenant); }
      WellNamedParent(p, tenant);
    }
  }

  lemma WellNamedParent(p: Parent, tenant: Option<string>)
    requires WellNamed(p, tenant)
    ensures IsWord(p.schema) && IsWord(p.table)
  {
  }

  /** So a call can succeed exactly then: from the first one on, until a row
      comes before its partition does. */
  lemma EnsureSucceedsIff(p: Parent, grid: Grid, st: Store, now: Instant, tenant: Option<string>)
    requires DayGrid(grid) && WellNamed(p, tenant) && Consistent(p, grid, st, now)
    requires TenantOK(p, TenantsOf(st, p.id), tenant) && NamesFit(p, grid, now, tenant)
    ensures (exists after, report :: EnsureStep(p, grid, st, after, now, tenant, None, report))
      <==> NothingWaits(p, st, tenant, ToCreate(p, grid, st.meta, now, tenant))
  {
    hide DayGrid, Consistent, ToCreate, CreateTx, HasDefault, WellNamed, NamesFit, NothingWaits;
    EnsureAcceptedIff(p, grid, st, now, tenant);
    var todo, need := ToCreate(p, grid, st.meta, now, tenant), !HasDefault(p, st.meta);
    NothingGrown(p, st, tenant);
    if NothingWaits(p, st, tenant, todo) {
      var after := if todo == [] && !need then st else CreateTx(p, st, tenant, todo, need).value;
      assert EnsureStep(p, grid, st, after, now, tenant, None, EnsureReport(|todo|, need));
    }
  }

  /** An active partition takes the rows of its window. */
  lemma ActiveTakes(p: Parent, grid: Grid, st: Store, now: Instant, s: Slot, r: PartRow)
    requires Tiling(grid) && Consistent(p, grid, st, now) && SlotFits(p, s)
    requires r in st.meta && r.parentId == p.id && IsActiveFor(r, s.tenant, grid(s.at))
    ensures var id := IdOf(r.name);
      id in st.tables && IsBelow(st.tables[id], p.id) && Takes(st.tables[id], s)
  {
    hide PartName, Fits, UniqueNames, ChildrenKnown, NamesKnown, NamesFree, IdOf, Clean;
    OwnWindow(grid, s.at);
    assert RowOK(p, grid, st, r, now);
  }

  /** No tenant has an active partition for a row that its attached default
      holds. */
  lemma WaitingHasNone(p: Parent, grid: Grid, st: Store, now: Instant, s: Slot)
    requires Tiling(grid) && Consistent(p, grid, st, now) && DefaultAttached(st.tables, p.id) && s in WaitingOf(st, p.id)
    ensures !HasActive(p, st.meta, s.tenant, grid(s.at))
  {
    hide Tiling, RowOK, UniqueNames, ChildrenKnown, NamesKnown, NamesFree, IdOf, SlotFits, IsActiveFor, Takes;
    forall r | r in st.meta && r.parentId == p.id
      ensures !IsActiveFor(r, s.tenant, grid(s.at))
    {
      if IsActiveFor(r, s.tenant, grid(s.at)) {
        ActiveTakes(p, grid, st, now, s, r);
      }
    }
  }

  /** Once a row waits in the attached default, every call that requires its
      window fails. */
  lemma WaitingBlocks(p: Parent, grid: Grid, st: Store, after: Store, now: Instant, err: Option<EnsureError>,
                      report: EnsureReport, s: Slot)
    requires DayGrid(grid) && Consistent(p, grid, st, now) && NamesFit(p, grid, now, s.tenant)
    requires DefaultAttached(st.tables, p.id) && s in WaitingOf(st, p.id) && grid(s.at) in Windows(grid, now, p.premake + 1)
    requires EnsureStep(p, grid, st, after, now, s.tenant, err, report)
    ensures err.Some? && after == st
  {
    hide Windows, HasActive, DayGrid, Consistent, ToCreate, CreateAll, CreateDefault, HasDefault, Wanted, Within,
      NamesFit, Grown;
    GridTiles(grid);
    OwnWindow(grid, s.at);
    assert Takes(Ranged(p.id, s.tenant, grid(s.at)), s);
    if err.None? {
      PlanIsWanted(p, grid, st, now, s.tenant);
      WaitingHasNone(p, grid, st, now, s);
      TodoCreated(p, grid, st, now, s.tenant, ToCreate(p, grid, st.meta, now, s.tenant));
    }
  }

  /** A second call at the same instant does nothing. */
  lemma EnsureTwice(p: Parent, grid: Grid, st: Store, once: Store, twice: Store, now: Instant, tenant: Option<string>,
                    report: EnsureReport, err: Option<EnsureError>, again: EnsureReport)
    requires DayGrid(grid) && Consistent(p, grid, st, now) && NamesFit(p, grid, now, tenant)
    requires EnsureStep(p, grid, st, once, now, tenant, None, report)
    requires EnsureStep(p, grid, once, twice, now, tenant, err, again)
    ensures ToCreate(p, grid, once.meta, now, tenant) == [] && HasDefault(p, once.meta)
    ensures twice == once && again == NOTHING_CREATED
  {
    hide HasActive, DayGrid, HasDefault, CreateTx, Consistent, Within, NamesFit;
    EnsureKeeps(p, grid, st, once, now, tenant, None, report);
    FilterNone(Windows(grid, now, p.premake + 1), b => !HasActive(p, once.meta, tenant, b));
  }

  /** After a successful call no instant from the start of the current window to
      the end of the last premade one is without an active partition. */
  lemma EnsureCovers(p: Parent, grid: Grid, st: Store, after: Store, now: Instant, tenant: Option<string>,
                     report: EnsureReport, u: Instant)
    requires DayGrid(grid) && Consistent(p, grid, st, now) && NamesFit(p, grid, now, tenant) && p.premake >= 0
    requires EnsureStep(p, grid, st, after, now, tenant, None, report)
    requires |Windows(grid, now, p.premake + 1)| == p.premake + 1
    requires grid(now).from <= u < Windows(grid, now, p.premake + 1)[p.premake].to
    ensures exists r :: r in after.meta && r.parentId == p.id && IsActiveFor(r, tenant, grid(u)) && r.bounds.Contains(u)
  {
    hide Windows, DayGrid, Consistent, CreateTx, ToCreate, Within, NamesFit;
    EnsureKeeps(p, grid, st, after, now, tenant, None, report);
    GridTiles(grid);
    WindowsCover(grid, now, p.premake + 1, u);
    OwnWindow(grid, u);
    assert HasActive(p, after.meta, tenant, grid(u));
    var r :| r in after.meta && r.parentId == p.id && IsActiveFor(r, tenant, grid(u));
  }

  /* ----- retiring a partition ----- */

  /** The tables after one child is retired: it is gone or loose, its siblings
      are as they were, and a new table is a loose one in the archive. */
  predicate Retires(p: Parent, before: map<TableId, Attachment>, after: map<TableId, Attachment>, id: TableId) {
    && (id in after ==> after[id] == Loose)
    && (forall o :: o in before && o != id ==> o in after && after[o] == before[o])
    && (forall o :: o in after && o !in before ==> after[o] == Loose && o == ArchiveId(p, id) && o.schema != id.schema)
  }

  /** The rows after one is marked. */
  lemma MarkedRows(meta: seq<PartRow>, row: PartRow, status: Status)
    requires UniqueNames(meta) && row in meta
    ensures UniqueNames(MarkPartition(meta, row.name, status))
    ensures forall x :: x in MarkPartition(meta, row.name, status) <==>
      (x in meta && x.name != row.name) || x == row.(status := status)
  {
    var after := MarkPartition(meta, row.name, status);
    forall x | x in after
      ensures (x in meta && x.name != row.name) || x == row.(status := status)
    {
      var i :| 0 <= i < |meta| && after[i] == x;
      NameIsUnique(meta, row, meta[i]);
    }
    forall x | (x in meta && x.name != row.name) || x == row.(status := status)
      ensures x in after
    {
      var y := if x == row.(status := status) then row else x;
      var i :| 0 <= i < |meta| && meta[i] == y;
      assert after[i] == x;
    }
  }

  /** The store once a row is marked and its table retired. */
  function Retired(st: Store, row: PartRow, status: Status, tables: map<TableId, Attachment>): Store {
    st.(meta := MarkPartition(st.meta, row.name, status), tables := tables)
  }

  /** Every table that was some row's still is. */
  lemma TablesStayKnown(p: Parent, st: Store, row: PartRow, status: Status, tables: map<TableId, Attachment>)
    requires UniqueNames(st.meta) && row in st.meta && row.parentId == p.id && ChildrenKnown(p, st) && NamesKnown(p, st)
    requires Retires(p, st.tables, tables, IdOf(row.name)) && IdOf(row.name).schema == p.schema
    ensures ChildrenKnown(p, Retired(st, row, status, tables)) && NamesKnown(p, Retired(st, row, status, tables))
  {
    hide IdOf, IsPartId, UniqueNames, MarkPartition, ArchiveId;
    var next := Retired(st, row, status, tables);
    MarkedRows(st.meta, row, status);
    forall o | o in tables && IsBelow(tables[o], p.id)
      ensures exists r :: r in next.meta && r.parentId == p.id && r.status == Active && IdOf(r.name) == o
    {
      var r :| r in st.meta && r.parentId == p.id && r.status == Active && IdOf(r.name) == o;
      assert r in next.meta by { NameIsUnique(st.meta, r, row); }
    }
    forall o | o in tables && IsPartId(p, o)
      ensures exists r :: r in next.meta && r.parentId == p.id && IdOf(r.name) == o
    {
      PartIdSchema(p, o);
      var r :| r in st.meta && r.parentId == p.id && IdOf(r.name) == o;
      var x := if r.name == row.name then row.(status := status) else r;
      NameIsUnique(st.meta, r, row);
      assert x in next.meta && IdOf(x.name) == o;
    }
  }

  lemma Retire(p: Parent, grid: Grid, st: Store, now: Instant, row: PartRow, status: Status, tables: map<TableId,
               Attachment>)
    requires Consistent(p, grid, st, now) && Retirable(p, st, now, row) && status != Active
    requires Retires(p, st.tables, tables, IdOf(row.name)) && Placed(p, tables, row.(status := status))
    ensures Consistent(p, grid, Retired(st, row, status, tables), now)
  {
    hide RowFits, IdOf, IsPartId, IsPartName, IsRangeName, UniqueNames, MarkPartition, ChildrenKnown, NamesKnown,
      TenantsTold, Retires, Placed, Whole, Clean;
    var next := Retired(st, row, status, tables);
    MarkedRows(st.meta, row, status);
    assert RowOK(p, grid, st, row, now);
    RowSplits(p, grid, TenantsOf(st, p.id), row);
    TablesStayKnown(p, st, row, status, tables);
    StillClean(p, st, row, status, tables) by { PlacedIsRanged(p, grid, st, now, row); }
    assert TenantsOf(next, p.id) == TenantsOf(st, p.id);
    forall r | r in next.meta && r.parentId == p.id
      ensures RowOK(p, grid, next, r, now)
    {
      if r == row.(status := status) {
        MarkedFits(p, grid, TenantsOf(st, p.id), row, status);
      } else {
        UnmarkedStays(p, grid, st, now, row, status, tables, r);
      }
    }
  }

  lemma PlacedIsRanged(p: Parent, grid: Grid, st: Store, now: Instant, row: PartRow)
    requires RowOK(p, grid, st, row, now) && row.status == Active && !row.isDefault
    ensures IdOf(row.name) in st.tables && st.tables[IdOf(row.name)].Ranged?
  {
    hide RowFits, IdOf;
  }

  /** The siblings that are left take no row of the default either. */
  lemma StillClean(p: Parent, st: Store, row: PartRow, status: Status, tables: map<TableId, Attachment>)
    requires Clean(p, st) && Retires(p, st.tables, tables, IdOf(row.name))
    requires IdOf(row.name) in st.tables && st.tables[IdOf(row.name)].Ranged?
    ensures Clean(p, Retired(st, row, status, tables)) && WaitingSame(p, st, Retired(st, row, status, tables))
  {
    hide IdOf, Takes, ArchiveId, MarkPartition;
    var id := IdOf(row.name);
    if DefaultAttached(tables, p.id) {
      var d :| d in tables && tables[d] == DefaultPart(p.id);
      assert d in st.tables && st.tables[d] == DefaultPart(p.id);
    }
    if DefaultAttached(st.tables, p.id) {
      var d :| d in st.tables && st.tables[d] == DefaultPart(p.id);
      assert d in tables && tables[d] == DefaultPart(p.id);
    }
    forall o | o in tables && IsBelow(tables[o], p.id)
      ensures !DefaultHolds(Retired(st, row, status, tables), p.id, tables[o])
    {
      assert o in st.tables && st.tables[o] == tables[o];
    }
  }

  lemma UnmarkedStays(p: Parent, grid: Grid, st: Store, now: Instant, row: PartRow, status: Status,
                      tables: map<TableId, Attachment>, r: PartRow)
    requires RowOK(p, grid, st, r, now) && RowOK(p, grid, st, row, now) && r.name != row.name
    requires Retires(p, st.tables, tables, IdOf(row.name))
    ensures RowOK(p, grid, Retired(st, row, status, tables), r, now)
  {
    hide RowFits, IdOf, IsPartName, IsRangeName, Whole;
    DefaultIsActive(p, grid, TenantsOf(st, p.id), r);
    RowSplits(p, grid, TenantsOf(st, p.id), r);
    RowSplits(p, grid, TenantsOf(st, p.id), row);
    IdsDiffer(r.name, row.name);
    assert IdOf(row.name).schema == IdOf(r.name).schema;
  }

  lemma MarkedFits(p: Parent, grid: Grid, tenants: set<string>, row: PartRow, status: Status)
    requires RowFits(p, grid, tenants, row) && !row.isDefault
    ensures RowFits(p, grid, tenants, row.(status := status))
  {
  }

  lemma PartIdSchema(p: Parent, id: TableId)
    requires IsPartId(p, id)
    ensures id.schema == p.schema
  {
    hide IsPartName, IdOf;
    var name :| IsPartName(p, name) && IdOf(name) == id;
    PartNameFacts(p, name);
  }

  /** The status a decision leaves. */
  function StatusFor(f: Fate): Status {
    match f
    case WasDropped => Status.Dropped
    case WasDetached => Status.Detached
    case WasArchived => Status.Detached
    case WasSkipped => Active
  }

  predicate Retirable(p: Parent, st: Store, now: Instant, row: PartRow) {
    row in st.meta && row.parentId == p.id && row.status == Active && !row.isDefault && row.bounds.to <= now
  }

  /** Every statement of a decision retires the table of its row. */
  lemma DecisionRetires(p: Parent, st: Store, next: Store, row: PartRow, d: Decision)
    requires ApplyDecision(p, st, row, d) == Some(next) && Intent(p, row, d) != WasSkipped
    requires Whole(row.name) && row.status == Active && !row.isDefault && Placed(p, st.tables, row)
    ensures var status := StatusFor(Intent(p, row, d));
      && next == Retired(st, row, status, next.tables)
      && Retires(p, st.tables, next.tables, IdOf(row.name)) && Placed(p, next.tables, row.(status := status))
  {
    hide MarkPartition, SplitFQ, Clip;
    assert Named(SplitFQ(row.name).value) == IdOf(row.name);
  }

  /** What one parent's retirement touches. */
  lemma RetiredWithin(p: Parent, st: Store, row: PartRow, status: Status, tables: map<TableId, Attachment>)
    requires UniqueNames(st.meta) && row in st.meta && row.parentId == p.id && IsRangeName(p, row.name)
    requires Retires(p, st.tables, tables, IdOf(row.name))
    ensures Within(p, st, Retired(st, row, status, tables))
  {
    hide IdOf, IsRangeName, UniqueNames, MarkPartition, ArchiveId, Owns;
    var next := Retired(st, row, status, tables);
    MarkedRows(st.meta, row, status);
    NamedIsPartId(p, row.name);
    forall r: PartRow | r.parentId != p.id
      ensures r in st.meta <==> r in next.meta
    {
      if r in st.meta {
        NameIsUnique(st.meta, r, row);
      }
    }
  }

  /** What becomes of a table: dropped, it is gone; detached, it hangs below
      nothing where it was; archived, below nothing in the archive, and it is gone
      from where it was unless that is the archive.  Nothing else of its name is
      touched. */
  predicate TableWent(p: Parent, before: map<TableId, Attachment>, after: map<TableId, Attachment>, id: TableId, f: Fate) {
    var other := TableId(if HasArchive(p) then Clip(p.archiveSchema.value) else id.schema, id.table);
    match f
    case WasDropped => id !in after && (other != id ==> SameAt(before, after, other))
    case WasDetached => IsLoose(after, id) && (other != id ==> SameAt(before, after, other))
    case WasArchived => IsLoose(after, other) && (other != id ==> id !in after && other !in before)
    case WasSkipped => SameAt(before, after, id) && SameAt(before, after, other)
  }

  lemma ApplyWent(p: Parent, st: Store, next: Store, row: PartRow, d: Decision)
    requires ApplyDecision(p, st, row, d) == Some(next) && Intent(p, row, d) != WasSkipped && Whole(row.name)
    ensures TableWent(p, st.tables, next.tables, IdOf(row.name), Intent(p, row, d))
  {
    hide MarkPartition, SplitFQ, Clip;
    assert Named(SplitFQ(row.name).value) == IdOf(row.name);
  }

  /** Dropping, detaching or archiving an expired partition keeps the invariant
      and marks its row only. */
  lemma ApplyKeeps(p: Parent, grid: Grid, st: Store, next: Store, now: Instant, row: PartRow, d: Decision)
    requires Consistent(p, grid, st, now) && Retirable(p, st, now, row) && ApplyDecision(p, st, row, d) == Some(next)
    requires Intent(p, row, d) != WasSkipped
    ensures Consistent(p, grid, next, now) && Within(p, st, next)
    ensures next.meta == MarkPartition(st.meta, row.name, StatusFor(Intent(p, row, d))) && next.tenants == st.tenants
    ensures WaitingSame(p, st, next)
    ensures SplitFQ(row.name).Some? && TableIs(p, row, Intent(p, row, d), st, next)
    ensures TableWent(p, st.tables, next.tables, IdOf(row.name), Intent(p, row, d))
  {
    ApplyGives(p, st, row, d);
    hide TableIs, TableWent;
    hide RowFits, IsRangeName, Clean, UniqueNames, MarkPartition, ChildrenKnown, NamesKnown, ApplyDecision, Retires,
      IsPartName, IsPartId, IdOf, Whole, TenantsTold, Placed, NamesFree, Within;
    assert RowOK(p, grid, st, row, now);
    RowSplits(p, grid, TenantsOf(st, p.id), row);
    var status := StatusFor(Intent(p, row, d));
    DecisionRetires(p, st, next, row, d);
    Retire(p, grid, st, now, row, status, next.tables);
    RetiredWithin(p, st, row, status, next.tables);
    ApplyWent(p, st, next, row, d);
    StillClean(p, st, row, status, next.tables) by { PlacedIsRanged(p, grid, st, now, row); }
  }

  /* ----- a whole Sweep ----- */

  /** Candidates: different expired rows. */
  predicate Candidates(p: Parent, st: Store, now: Instant, rows: seq<PartRow>) {
    UniqueNames(rows) && forall r :: r in rows ==> Retirable(p, st, now, r)
  }

  /** The row of a candidate once its fate is decided. */
  function Settled(r: PartRow, f: Fate): PartRow { r.(status := StatusFor(f)) }

  predicate Listed(rows: seq<PartRow>, name: string) { exists i :: 0 <= i < |rows| && rows[i].name == name }

  /** Each candidate's row is left as its fate says, and no other row changes. */
  ghost predicate SettledAll(meta: seq<PartRow>, after: seq<PartRow>, rows: seq<PartRow>, fates: seq<Fate>)
    requires |fates| == |rows|
  {
    && (forall i :: 0 <= i < |rows| ==> Settled(rows[i], fates[i]) in after)
    && (forall r :: r in meta && !Listed(rows, r.name) ==> r in after)
    && (forall r :: r in after && !Listed(rows, r.name) ==> r in meta)
  }

  lemma SettleNext(meta: seq<PartRow>, mid: seq<PartRow>, after: seq<PartRow>, rows: seq<PartRow>, fates: seq<Fate>,
                   f: Fate)
    requires rows != [] && |fates| == |rows| - 1 && UniqueNames(rows) && UniqueNames(mid)
    requires SettledAll(meta, mid, rows[..|rows| - 1], fates)
    requires rows[|rows| - 1] in mid && rows[|rows| - 1].status == Active
    requires after == if f == WasSkipped then mid else MarkPartition(mid, rows[|rows| - 1].name, StatusFor(f))
    ensures SettledAll(meta, after, rows, fates + [f])
  {
    hide MarkPartition, UniqueNames, Listed, Settled;
    var n := |rows| - 1;
    var front := rows[..n];
    SettleOne(mid, after, rows[n], f);
    LastIsNew(rows);
    forall i | 0 <= i < n
      ensures Settled(rows[i], (fates + [f])[i]) in after
    {
      assert Settled(front[i], fates[i]) in mid && front[i] == rows[i];
      NamesListed(front, i);
      SettledName(rows[i], fates[i]);
    }
  }

  lemma SettleOne(mid: seq<PartRow>, after: seq<PartRow>, row: PartRow, f: Fate)
    requires UniqueNames(mid) && row in mid && row.status == Active
    requires after == if f == WasSkipped then mid else MarkPartition(mid, row.name, StatusFor(f))
    ensures Settled(row, f) in after && forall x: PartRow :: x.name != row.name ==> (x in mid <==> x in after)
  {
    hide MarkPartition, UniqueNames;
    MarkedRows(mid, row, StatusFor(f));
    if f == WasSkipped {
      assert Settled(row, f) == row;
    }
  }

  lemma SettledName(r: PartRow, f: Fate)
    ensures Settled(r, f).name == r.name
  {
  }

  lemma NamesListed(rows: seq<PartRow>, i: nat)
    requires i < |rows|
    ensures Listed(rows, rows[i].name)
  {
  }

  /** The names listed are those before the last, and the last, a new one. */
  lemma LastIsNew(rows: seq<PartRow>)
    requires rows != [] && UniqueNames(rows)
    ensures var n := |rows| - 1;
      && !Listed(rows[..n], rows[n].name)
      && forall name :: Listed(rows, name) <==> Listed(rows[..n], name) || name == rows[n].name
  {
    var n := |rows| - 1;
    forall i | 0 <= i < n
      ensures rows[..n][i].name != rows[n].name
    {
      assert rows[i].name != rows[n].name;
    }
    forall name
      ensures Listed(rows, name) <==> Listed(rows[..n], name) || name == rows[n].name
    {
      if Listed(rows[..n], name) {
        var i :| 0 <= i < n && rows[..n][i].name == name;
        assert rows[i].name == name;
      }
      if Listed(rows, name) && name != rows[n].name {
        var i :| 0 <= i < |rows| && rows[i].name == name;
        assert rows[..n][i].name == name;
      }
    }
  }

  /* ----- where the tables of candidates go ----- */

  /** What a hook is shown of a bounded partition in order. */
  function Shown(p: Parent, row: PartRow): PartitionRef {
    PartitionRef(row.bounds, p.schema, p.table, if row.tenant.Some? then row.tenant.value else "", false)
  }

  lemma ShownRef(p: Parent, grid: Grid, tenants: set<string>, row: PartRow)
    requires RowFits(p, grid, tenants, row) && !row.isDefault
    ensures BuildPartitionRef(p, row) == Shown(p, row)
  {
    hide Fits, TenantOK;
    PartNameSplits(p, TextOf(row.tenant), row.bounds, false) by { hide PartName, SplitFQ, IdOf; }
  }

  /** The fate of a candidate whose transaction gets through: no hook drops, and a
      hook has its way, except that archiving needs an archive where no table of the
      name is yet.  Any other answer skips. */
  function FateFor(p: Parent, tables: map<TableId, Attachment>, row: PartRow, hook: Hook, i: nat): Fate {
    if hook.None? then WasDropped
    else match hook.value(i, Shown(p, row))
      case HookDrop => WasDropped
      case HookDetach => WasDetached
      case HookArchive =>
        if !HasArchive(p) then WasSkipped
        else
          var to := Clip(p.archiveSchema.value);
          if to == p.schema || TableId(to, IdOf(row.name).table) !in tables then WasArchived else WasSkipped
      case _ => WasSkipped
  }

  /** One candidate, whose table is still where its row says. */
  lemma OneGoes(p: Parent, st: Store, row: PartRow, hook: Hook, i: nat, goes: bool)
    requires Whole(row.name) && IdOf(row.name).schema == p.schema && row.status == Active && !row.isDefault
    requires Placed(p, st.tables, row) && BuildPartitionRef(p, row) == Shown(p, row)
    ensures var one := SweepOne(p, st, row, DecisionFor(p, hook, i, row), goes);
      && one.1 == (if goes then FateFor(p, st.tables, row, hook, i) else WasSkipped)
      && (one.1 == WasSkipped ==> one.0 == st)
      && TableWent(p, st.tables, one.0.tables, IdOf(row.name), one.1)
      && (one.1 != WasSkipped ==> Retires(p, st.tables, one.0.tables, IdOf(row.name)))
  {
    hide MarkPartition, SplitFQ, Clip, BuildPartitionRef;
    assert Named(SplitFQ(row.name).value) == IdOf(row.name);
  }

  /** A sweep keeps the invariant for every hook and every pattern of failures. */
  lemma {:induction false} SweepAllKeeps(p: Parent, grid: Grid, st: Store, now: Instant, rows: seq<PartRow>,
                                         hook: Hook, goes: nat -> bool)
    requires Consistent(p, grid, st, now) && Candidates(p, st, now, rows)
    ensures var r := SweepAll(p, st, rows, hook, goes);
      && Consistent(p, grid, r.0, now) && Within(p, st, r.0) && r.0.tenants == st.tenants && WaitingSame(p, st, r.0)
      && SettledAll(st.meta, r.0.meta, rows, r.1)
    decreases |rows|
  {
    hide Consistent, SettledAll, ApplyDecision, Intent, DecisionFor, MarkPartition, Within, TableIs, TableWent, UniqueNames;
    if rows == [] {
      NoneSettled(st.meta);
      WithinItself(p, st);
    } else {
      var n := |rows| - 1;
      var front := rows[..n];
      FewerCandidates(p, st, now, rows, n);
      SweepAllKeeps(p, grid, st, now, front, hook, goes);
      var before := SweepAll(p, st, front, hook, goes);
      var row, mid := rows[n], before.0;
      var d := DecisionFor(p, hook, n, row);
      assert row in rows && Retirable(p, st, now, row);
      StillThere(st.meta, mid.meta, rows, before.1);
      ConsistentNames(p, grid, mid, now);
      var one := SweepOne(p, mid, row, d, goes(n));
      WithinItself(p, mid);
      if one.1 != WasSkipped {
        ApplyKeeps(p, grid, mid, one.0, now, row, d);
      }
      WithinTwice(p, st, mid, one.0);
      SettleNext(st.meta, mid.meta, one.0.meta, rows, before.1, one.1);
    }
  }

  lemma NoneSettled(meta: seq<PartRow>)
    ensures SettledAll(meta, meta, [], [])
  {
  }

  lemma ConsistentNames(p: Parent, grid: Grid, st: Store, now: Instant)
    requires Consistent(p, grid, st, now)
    ensures UniqueNames(st.meta)
  {
  }

  lemma StillThere(meta: seq<PartRow>, mid: seq<PartRow>, rows: seq<PartRow>, fates: seq<Fate>)
    requires rows != [] && |fates| == |rows| - 1 && UniqueNames(rows) && rows[|rows| - 1] in meta
    requires SettledAll(meta, mid, rows[..|rows| - 1], fates)
    ensures rows[|rows| - 1] in mid
  {
    LastIsNew(rows);
  }

  lemma {:induction false} CountUnique(meta: seq<PartRow>, r: PartRow)
    requires UniqueNames(meta)
    ensures multiset(meta)[r] <= 1
  {
    if meta != [] {
      var n := |meta| - 1;
      CountUnique(meta[..n], r);
      assert meta == meta[..n] + [meta[n]];
      if meta[n] == r {
        assert forall i :: 0 <= i < n ==> meta[..n][i].name != r.name;
        assert r !in multiset(meta[..n]);
      }
    }
  }

  /** A listing of selected rows lists different names. */
  lemma ListingIsUnique(meta: seq<PartRow>, keep: PartRow -> bool, rows: seq<PartRow>)
    requires UniqueNames(meta) && multiset(rows) == multiset(Filter(meta, keep))
    ensures UniqueNames(rows) && forall r :: r in rows <==> r in meta && keep(r)
  {
    assert forall r :: r in rows <==> r in multiset(rows);
    assert forall r :: r in Filter(meta, keep) <==> r in multiset(Filter(meta, keep));
    forall i, j | 0 <= i < j < |rows|
      ensures rows[i].name != rows[j].name
    {
      NameIsUnique(meta, rows[i], rows[j]);
      if rows[i] == rows[j] {
        CountUnique(meta, rows[i]);
        FilterCounts(meta, keep, rows[i]);
        Twice(rows, i, j);
      }
    }
  }

  lemma Twice<T>(s: seq<T>, i: nat, j: nat)
    requires i < j < |s| && s[i] == s[j]
    ensures multiset(s)[s[i]] >= 2
  {
    assert s == s[..i] + [s[i]] + s[i + 1..j] + [s[j]] + s[j + 1..];
  }

  lemma ListedCandidates(p: Parent, grid: Grid, st: Store, now: Instant, rows: seq<PartRow>)
    requires Consistent(p, grid, st, now) && Reasonable(p.retention)
    requires Lists(Expired(p, st.meta, ComputeCutoff(now, p.retention)), rows)
    ensures Candidates(p, st, now, rows)
    ensures forall r :: r in rows <==> r in st.meta && IsExpired(p, ComputeCutoff(now, p.retention), r)
  {
    hide ComputeCutoff, UniqueNames, RowOK, ChildrenKnown, NamesKnown, NamesFree, TenantsTold, Reasonable;
    var cutoff := ComputeCutoff(now, p.retention);
    CutoffNotAfterNow(now, p.retention);
    ListingIsUnique(st.meta, (r: PartRow) => IsExpired(p, cutoff, r), rows);
  }

  /** Acting on expired candidates keeps the invariant, the default, and the
      ranges that are not over; nothing becomes active. */
  lemma SettlingKeeps(p: Parent, grid: Grid, st: Store, now: Instant, rows: seq<PartRow>, hook: Hook, goes: nat -> bool)
    requires Consistent(p, grid, st, now) && Candidates(p, st, now, rows)
    ensures var after := SweepAll(p, st, rows, hook, goes).0;
      && Consistent(p, grid, after, now) && Within(p, st, after) && after.tenants == st.tenants && WaitingSame(p, st, after)
      && (forall r :: r in st.meta && (r.isDefault || r.bounds.to > now) ==> r in after.meta)
      && (forall r :: r in after.meta && r.status == Active ==> r in st.meta)
  {
    hide Consistent, SweepAll, Within;
    var (after, fates) := SweepAll(p, st, rows, hook, goes);
    SweepAllKeeps(p, grid, st, now, rows, hook, goes);
    ConsistentNames(p, grid, st, now);
    ConsistentNames(p, grid, after, now);
    forall r | r in st.meta && (r.isDefault || r.bounds.to > now)
      ensures r in after.meta
    {
      NotListed(p, st, now, rows, r);
    }
    forall r | r in after.meta && r.status == Active
      ensures r in st.meta
    {
      ActiveIsOld(p, st, after, now, rows, fates, r);
    }
  }

  /** The last candidate of a list, after those before it. */
  lemma LastGoes(p: Parent, grid: Grid, st: Store, now: Instant, rows: seq<PartRow>, hook: Hook, goes: nat -> bool)
    requires Consistent(p, grid, st, now) && Candidates(p, st, now, rows) && rows != []
    ensures var n := |rows| - 1;
      var mid, r := SweepAll(p, st, rows[..n], hook, goes), SweepAll(p, st, rows, hook, goes);
      && r.1 == mid.1 + [if goes(n) then FateFor(p, mid.0.tables, rows[n], hook, n) else WasSkipped]
      && TableWent(p, mid.0.tables, r.0.tables, IdOf(rows[n].name), r.1[n])
      && (r.0.tables == mid.0.tables || Retires(p, mid.0.tables, r.0.tables, IdOf(rows[n].name)))
  {
    hide Consistent, SettledAll, SweepOne, DecisionFor, Within, SweepAll, RowFits, Placed, FateFor, TableWent, Retires,
      IdOf, Whole, IsPartName, IsRangeName, UniqueNames;
    var n := |rows| - 1;
    FewerCandidates(p, st, now, rows, n);
    SweepAllKeeps(p, grid, st, now, rows[..n], hook, goes);
    var mid := SweepAll(p, st, rows[..n], hook, goes);
    assert rows[n] in rows && Retirable(p, st, now, rows[n]);
    StillThere(st.meta, mid.0.meta, rows, mid.1);
    RowInOrder(p, grid, mid.0, now, rows[n]);
    RowSplits(p, grid, TenantsOf(mid.0, p.id), rows[n]);
    ShownRef(p, grid, TenantsOf(mid.0, p.id), rows[n]);
    OneGoes(p, mid.0, rows[n], hook, n, goes(n));
    SweepNext(p, st, rows, hook, goes, n);
    assert rows[..n + 1] == rows;
  }

  lemma RowInOrder(p: Parent, grid: Grid, st: Store, now: Instant, row: PartRow)
    requires Consistent(p, grid, st, now) && row in st.meta && row.parentId == p.id
    ensures RowFits(p, grid, TenantsOf(st, p.id), row) && Placed(p, st.tables, row)
  {
    hide RowFits, Placed, UniqueNames, ChildrenKnown, NamesKnown, NamesFree, Clean, TenantsTold;
    assert RowOK(p, grid, st, row, now);
  }

  /** Retiring one partition leaves another's table and its place in the archive
      as they are. */
  lemma RetiresElsewhere(p: Parent, before: map<TableId, Attachment>, after: map<TableId, Attachment>, name: string,
                         other: string)
    requires Retires(p, before, after, IdOf(name)) && Whole(name) && Whole(other) && name != other
    requires IdOf(name).schema == IdOf(other).schema == p.schema
    ensures SameAt(before, after, IdOf(other)) && SameAt(before, after, ArchiveId(p, IdOf(other)))
  {
    hide IdOf, Whole;
    IdsDiffer(name, other);
  }

  lemma {:induction false} SweepElsewhere(p: Parent, grid: Grid, st: Store, now: Instant, rows: seq<PartRow>, hook: Hook,
                                          goes: nat -> bool, name: string)
    requires Consistent(p, grid, st, now) && Candidates(p, st, now, rows)
    requires IsPartName(p, name) && !Listed(rows, name)
    ensures var after := SweepAll(p, st, rows, hook, goes).0;
      SameAt(st.tables, after.tables, IdOf(name)) && SameAt(st.tables, after.tables, ArchiveId(p, IdOf(name)))
    decreases |rows|
  {
    hide Consistent, Retires, IdOf, IsPartName, Whole, UniqueNames, FateFor, TableWent, ArchiveId, RowFits, Placed;
    if rows != [] {
      var n := |rows| - 1;
      FewerCandidates(p, st, now, rows, n);
      assert !Listed(rows[..n], name) by {
        forall i | 0 <= i < n ensures rows[..n][i].name != name { assert rows[i].name != name; }
      }
      SweepElsewhere(p, grid, st, now, rows[..n], hook, goes, name);
      hide SweepAll;
      LastGoes(p, grid, st, now, rows, hook, goes);
      assert rows[n] in rows && Retirable(p, st, now, rows[n]);
      RowInOrder(p, grid, st, now, rows[n]);
      RowSplits(p, grid, TenantsOf(st, p.id), rows[n]);
      PartNameFacts(p, name);
      NamesListed(rows, n);
      var mid, after := SweepAll(p, st, rows[..n], hook, goes).0, SweepAll(p, st, rows, hook, goes).0;
      if after.tables != mid.tables {
        RetiresElsewhere(p, mid.tables, after.tables, rows[n].name, name);
      }
    }
  }

  /** Where a sweep leaves every candidate's table and row: each has the fate its
      answer asks for, judged by the tables from before the sweep, or is skipped
      when its transaction does not get through; what it is shown is the partition
      itself, and what is reported of it is what happened. */
  lemma {:induction false} SweepPlaces(p: Parent, grid: Grid, st: Store, now: Instant, rows: seq<PartRow>, hook: Hook,
                                       goes: nat -> bool, i: nat)
    requires Consistent(p, grid, st, now) && Candidates(p, st, now, rows) && i < |rows|
    ensures var (after, fates) := SweepAll(p, st, rows, hook, goes);
      && fates[i] == (if goes(i) then FateFor(p, st.tables, rows[i], hook, i) else WasSkipped)
      && TableWent(p, st.tables, after.tables, IdOf(rows[i].name), fates[i])
    decreases |rows|
  {
    hide Consistent, Retires, IdOf, IsPartName, IsRangeName, Whole, UniqueNames, RowFits, Placed, TableWent, FateFor,
      ArchiveId, SameAt, Listed;
    var n := |rows| - 1;
    FewerCandidates(p, st, now, rows, n);
    LastGoes(p, grid, st, now, rows, hook, goes);
    assert rows[n] in rows && Retirable(p, st, now, rows[n]);
    assert rows[i] in rows && Retirable(p, st, now, rows[i]);
    RowInOrder(p, grid, st, now, rows[n]);
    RowInOrder(p, grid, st, now, rows[i]);
    RowSplits(p, grid, TenantsOf(st, p.id), rows[n]);
    RowSplits(p, grid, TenantsOf(st, p.id), rows[i]);
    hide SweepAll;
    var mid, after := SweepAll(p, st, rows[..n], hook, goes), SweepAll(p, st, rows, hook, goes);
    if i < n {
      SweepPlaces(p, grid, st, now, rows[..n], hook, goes, i);
      assert rows[i].name != rows[n].name by { NamesDiffer(rows, i, n); }
      if after.0.tables != mid.0.tables {
        RetiresElsewhere(p, mid.0.tables, after.0.tables, rows[n].name, rows[i].name);
        WentThenSame(p, st.tables, mid.0.tables, after.0.tables, IdOf(rows[i].name), after.1[i]);
      }
    } else {
      LastIsNew(rows);
      SweepElsewhere(p, grid, st, now, rows[..n], hook, goes, rows[n].name);
      SameThenWent(p, st.tables, mid.0.tables, after.0.tables, rows[n], hook, n, after.1[n]);
    }
  }

  lemma WentThenSame(p: Parent, before: map<TableId, Attachment>, mid: map<TableId, Attachment>,
                     after: map<TableId, Attachment>, id: TableId, f: Fate)
    requires TableWent(p, before, mid, id, f) && SameAt(mid, after, id) && SameAt(mid, after, ArchiveId(p, id))
    ensures TableWent(p, before, after, id, f)
  {
  }

  lemma SameThenWent(p: Parent, before: map<TableId, Attachment>, mid: map<TableId, Attachment>,
                     after: map<TableId, Attachment>, row: PartRow, hook: Hook, i: nat, f: Fate)
    requires IdOf(row.name).schema == p.schema
    requires SameAt(before, mid, IdOf(row.name)) && SameAt(before, mid, ArchiveId(p, IdOf(row.name)))
    ensures TableWent(p, mid, after, IdOf(row.name), f) ==> TableWent(p, before, after, IdOf(row.name), f)
    ensures FateFor(p, mid, row, hook, i) == FateFor(p, before, row, hook, i)
  {
    hide IdOf;
  }

  function ListOf(report: SweepReport, f: Fate): seq<PartitionRef> {
    match f
    case WasDropped => report.dropped
    case WasDetached => report.detached
    case WasArchived => report.archived
    case WasSkipped => report.skipped
  }

  lemma {:induction false} ChosenMembers(p: Parent, rows: seq<PartRow>, fates: seq<Fate>, f: Fate, ref: PartitionRef)
    requires |fates| == |rows|
    ensures ref in Chosen(p, rows, fates, f) <==>
      exists i :: 0 <= i < |rows| && fates[i] == f && BuildPartitionRef(p, rows[i]) == ref
    decreases |rows|
  {
    hide BuildPartitionRef;
    if rows != [] {
      var n := |rows| - 1;
      ChosenMembers(p, rows[..n], fates[..n], f, ref);
    }
  }

  /** A partition that is due, and what became of it. */
  ghost predicate Reported(p: Parent, st: Store, after: Store, cutoff: Instant, report: SweepReport, r: PartRow, f: Fate) {
    && r in st.meta && r.parentId == p.id && !r.isDefault && r.status == Active && r.bounds.to <= cutoff
    && Shown(p, r) in ListOf(report, f) && TableWent(p, st.tables, after.tables, IdOf(r.name), f)
    && r.(status := match f
                    case WasDropped => Status.Dropped
                    case WasSkipped => Active
                    case _ => Status.Detached) in after.meta
  }

  /** The report of a sweep is true and complete: whatever it lists as dropped,
      detached, archived or skipped is a partition that was due and is now just
      that, and every partition that was due is listed. */
  lemma SweepReportsAll(p: Parent, grid: Grid, st: Store, after: Store, now: Instant, hook: Hook, goes: nat -> bool,
                        report: SweepReport)
    requires Consistent(p, grid, st, now) && Reasonable(p.retention)
    requires SweepStep(p, st, after, now, false, hook, goes, report)
    ensures var cutoff := ComputeCutoff(now, p.retention);
      && (forall f, ref :: ref in ListOf(report, f) ==>
            exists r :: Reported(p, st, after, cutoff, report, r, f) && Shown(p, r) == ref)
      && forall r :: r in st.meta && r.parentId == p.id && !r.isDefault && r.status == Active && r.bounds.to <= cutoff ==>
           exists f :: Reported(p, st, after, cutoff, report, r, f)
  {
    hide Consistent, Lists, SweepAll, Chosen, TableWent, IdOf, FateFor, Reported, ComputeCutoff, Expired, Candidates,
      BuildPartitionRef, Reasonable;
    var cutoff := ComputeCutoff(now, p.retention);
    var rows :| Lists(Expired(p, st.meta, cutoff), rows) && Swept(p, st, after, rows, false, hook, goes, report);
    var fates := SweepAll(p, st, rows, hook, goes).1;
    ListedCandidates(p, grid, st, now, rows);
    SweepAllKeeps(p, grid, st, now, rows, hook, goes);
    forall f
      ensures ListOf(report, f) == Chosen(p, rows, fates, f)
    {
    }
    forall i | 0 <= i < |rows|
      ensures Reported(p, st, after, cutoff, report, rows[i], fates[i])
      ensures BuildPartitionRef(p, rows[i]) == Shown(p, rows[i])
    {
      CandidateReported(p, grid, st, after, now, rows, hook, goes, report, i);
    }
    forall f, ref | ref in ListOf(report, f)
      ensures exists r :: Reported(p, st, after, cutoff, report, r, f) && Shown(p, r) == ref
    {
      ChosenMembers(p, rows, fates, f, ref);
    }
    forall r | r in st.meta && r.parentId == p.id && !r.isDefault && r.status == Active && r.bounds.to <= cutoff
      ensures exists f :: Reported(p, st, after, cutoff, report, r, f)
    {
      assert r in rows;
      var i :| 0 <= i < |rows| && rows[i] == r;
      assert Reported(p, st, after, cutoff, report, rows[i], fates[i]);
    }
  }

  lemma CandidateReported(p: Parent, grid: Grid, st: Store, after: Store, now: Instant, rows: seq<PartRow>, hook: Hook,
                          goes: nat -> bool, report: SweepReport, i: nat)
    requires Consistent(p, grid, st, now) && Candidates(p, st, now, rows) && i < |rows|
    requires forall r :: r in rows ==> IsExpired(p, ComputeCutoff(now, p.retention), r)
    requires Swept(p, st, after, rows, false, hook, goes, report)
    ensures var f := SweepAll(p, st, rows, hook, goes).1[i];
      Reported(p, st, after, ComputeCutoff(now, p.retention), report, rows[i], f)
    ensures BuildPartitionRef(p, rows[i]) == Shown(p, rows[i])
  {
    hide Consistent, SweepAll, Chosen, TableWent, IdOf, FateFor, ComputeCutoff, UniqueNames, BuildPartitionRef, RowFits,
      Placed, Within, Shown;
    var (_, fates) := SweepAll(p, st, rows, hook, goes);
    assert rows[i] in rows && Retirable(p, st, now, rows[i]);
    RowInOrder(p, grid, st, now, rows[i]);
    ShownRef(p, grid, TenantsOf(st, p.id), rows[i]);
    SweepPlaces(p, grid, st, now, rows, hook, goes, i);
    SweepAllKeeps(p, grid, st, now, rows, hook, goes);
    ChosenMembers(p, rows, fates, fates[i], Shown(p, rows[i]));
    assert Settled(rows[i], fates[i]) in after.meta;
  }

  lemma NamesDiffer(rows: seq<PartRow>, i: nat, j: nat)
    requires UniqueNames(rows) && i < j < |rows|
    ensures rows[i].name != rows[j].name
  {
  }

  /** Every sweep keeps the invariant, whatever the hook decides and whichever
      transactions fail: the default and the ranges that are not over stay, and
      nothing becomes active. */
  lemma SweepKeeps(p: Parent, grid: Grid, st: Store, after: Store, now: Instant, dryRun: bool, hook: Hook,
                   goes: nat -> bool, report: SweepReport)
    requires Consistent(p, grid, st, now) && Reasonable(p.retention)
    requires SweepStep(p, st, after, now, dryRun, hook, goes, report)
    ensures Consistent(p, grid, after, now) && Within(p, st, after)
    ensures after.tenants == st.tenants && WaitingSame(p, st, after)
    ensures forall r :: r in st.meta && (r.isDefault || r.bounds.to > now) ==> r in after.meta
    ensures forall r :: r in after.meta && r.status == Active ==> r in st.meta
  {
    hide ComputeCutoff, Consistent, Expired, Lists, SweepAll, ReportOf, Candidates, Within;
    WithinItself(p, st);
    var rows :| Lists(Expired(p, st.meta, ComputeCutoff(now, p.retention)), rows)
                && Swept(p, st, after, rows, dryRun, hook, goes, report);
    ListedCandidates(p, grid, st, now, rows);
    SettlingKeeps(p, grid, st, now, rows, hook, goes);
  }

  /** So does a sweep that a panic of its hook cuts short. */
  lemma SweepCutKeeps(p: Parent, grid: Grid, st: Store, after: Store, now: Instant, dryRun: bool, hook: Hook,
                      goes: nat -> bool)
    requires Consistent(p, grid, st, now) && Reasonable(p.retention)
    requires SweepCut(p, st, after, now, dryRun, hook, goes)
    ensures Consistent(p, grid, after, now) && Within(p, st, after)
    ensures after.tenants == st.tenants && WaitingSame(p, st, after)
    ensures forall r :: r in st.meta && (r.isDefault || r.bounds.to > now) ==> r in after.meta
    ensures forall r :: r in after.meta && r.status == Active ==> r in st.meta
  {
    hide ComputeCutoff, Consistent, Expired, Lists, SweepAll, Candidates, Within;
    WithinItself(p, st);
    var rows, n: nat :| Lists(Expired(p, st.meta, ComputeCutoff(now, p.retention)), rows)
                        && SweptUpTo(p, st, after, rows, n, dryRun, hook, goes);
    ListedCandidates(p, grid, st, now, rows);
    FewerCandidates(p, st, now, rows, n);
    SettlingKeeps(p, grid, st, now, rows[..n], hook, goes);
  }

  lemma FewerCandidates(p: Parent, st: Store, now: Instant, rows: seq<PartRow>, n: nat)
    requires Candidates(p, st, now, rows) && n <= |rows|
    ensures Candidates(p, st, now, rows[..n])
  {
    assert forall r :: r in rows[..n] ==> r in rows;
  }

  lemma NotListed(p: Parent, st: Store, now: Instant, rows: seq<PartRow>, r: PartRow)
    requires Candidates(p, st, now, rows) && UniqueNames(st.meta) && r in st.meta && (r.isDefault || r.bounds.to > now)
    ensures !Listed(rows, r.name)
  {
    forall i | 0 <= i < |rows|
      ensures rows[i].name != r.name
    {
      assert Retirable(p, st, now, rows[i]);
      NameIsUnique(st.meta, rows[i], r);
    }
  }

  lemma ActiveIsOld(p: Parent, st: Store, after: Store, now: Instant, rows: seq<PartRow>, fates: seq<Fate>, r: PartRow)
    requires |fates| == |rows| && Candidates(p, st, now, rows) && UniqueNames(after.meta)
    requires SettledAll(st.meta, after.meta, rows, fates) && r in after.meta && r.status == Active
    ensures r in st.meta
  {
    if Listed(rows, r.name) {
      var i :| 0 <= i < |rows| && rows[i].name == r.name;
      NameIsUnique(after.meta, Settled(rows[i], fates[i]), r);
      assert Retirable(p, st, now, rows[i]);
    }
  }

  /** After a real sweep the candidates that are still active are exactly those
      reported as skipped. */
  lemma SkippedAreStillActive(p: Parent, grid: Grid, st: Store, now: Instant, rows: seq<PartRow>, hook: Hook,
                              goes: nat -> bool)
    requires Consistent(p, grid, st, now) && Candidates(p, st, now, rows)
    ensures var (after, fates) := SweepAll(p, st, rows, hook, goes);
      Chosen(p, rows, fates, WasSkipped) == RefsOf(p, Filter(rows, (r: PartRow) => r in after.meta))
  {
    hide Consistent, SweepAll, Chosen, UniqueNames;
    var (after, fates) := SweepAll(p, st, rows, hook, goes);
    SweepAllKeeps(p, grid, st, now, rows, hook, goes);
    ConsistentNames(p, grid, after, now);
    forall i | 0 <= i < |rows|
      ensures rows[i] in after.meta <==> fates[i] == WasSkipped
    {
      assert Retirable(p, st, now, rows[i]);
      if rows[i] in after.meta {
        NameIsUnique(after.meta, Settled(rows[i], fates[i]), rows[i]);
      }
    }
    ChosenIsFilter(p, rows, fates, WasSkipped, (r: PartRow) => r in after.meta);
  }

  /** Without a hook, and with transactions that get through, every candidate
      is dropped. */
  lemma {:induction false} AllDropped(p: Parent, grid: Grid, st: Store, now: Instant, rows: seq<PartRow>,
                                      goes: nat -> bool, i: nat)
    requires Consistent(p, grid, st, now) && Candidates(p, st, now, rows) && i < |rows| && forall n: nat :: goes(n)
    ensures SweepAll(p, st, rows, None, goes).1[i] == WasDropped
  {
    hide Consistent, SweepAll, UniqueNames, SettledAll, SplitFQ;
    FewerCandidates(p, st, now, rows, i);
    FewerCandidates(p, st, now, rows, i + 1);
    var mid := SweepAll(p, st, rows[..i], None, goes);
    SweepAllKeeps(p, grid, st, now, rows[..i], None, goes);
    assert rows[..i + 1][..i] == rows[..i];
    assert Retirable(p, st, now, rows[i]);
    StillThere(st.meta, mid.0.meta, rows[..i + 1], mid.1);
    ActiveHasTable(p, grid, mid.0, now, rows[i]);
    FateAt(p, st, rows, None, goes, i);
  }

  lemma ActiveHasTable(p: Parent, grid: Grid, st: Store, now: Instant, r: PartRow)
    requires Consistent(p, grid, st, now) && r in st.meta && r.parentId == p.id && r.status == Active
    ensures SplitFQ(r.name).Some? && Named(SplitFQ(r.name).value) in st.tables
  {
    hide SplitFQ, RowFits, IsPartName, Clip;
    assert RowOK(p, grid, st, r, now);
    RowSplits(p, grid, TenantsOf(st, p.id), r);
  }

  /** Then no expired partition is left. */
  lemma SweepClears(p: Parent, grid: Grid, st: Store, after: Store, now: Instant, goes: nat -> bool,
                    report: SweepReport, r: PartRow)
    requires Consistent(p, grid, st, now) && Reasonable(p.retention) && (forall n: nat :: goes(n))
    requires SweepStep(p, st, after, now, false, None, goes, report) && r in after.meta
    ensures !IsExpired(p, ComputeCutoff(now, p.retention), r)
  {
    hide ComputeCutoff, Consistent, Expired, Lists, SweepAll, ReportOf, UniqueNames;
    var rows :| Lists(Expired(p, st.meta, ComputeCutoff(now, p.retention)), rows)
                && Swept(p, st, after, rows, false, None, goes, report);
    ListedCandidates(p, grid, st, now, rows);
    SettlingKeeps(p, grid, st, now, rows, None, goes);
    if IsExpired(p, ComputeCutoff(now, p.retention), r) {
      var i :| 0 <= i < |rows| && rows[i] == r;
      AllDropped(p, grid, st, now, rows, goes, i);
      SweepAllKeeps(p, grid, st, now, rows, None, goes);
      ConsistentNames(p, grid, after, now);
      NameIsUnique(after.meta, r, Settled(r, WasDropped));
    }
  }
}
