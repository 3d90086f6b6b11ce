/** EnsurePartitions without the lock: its plan and its transaction are two
    steps, and anything may happen in between. */
module Races {
  import opened Wrappers
  import opened Calendar
  import opened Periods
  import opened Text
  import opened Naming
  import opened Metadata
  import opened Catalog
  import opened Provisioner
  import opened Consistency
  import opened Maintenance

  /** What a plan holds, however old it is: different windows whose names fit. */
  ghost predicate IsPlan(p: Parent, grid: Grid, tenant: Option<string>, planned: seq<Bounds>) {
    && DefaultFits(p) && TenantMatches(p, tenant) && Distinct(planned)
    && forall b :: b in planned ==> b == grid(b.from) && NameFits(p, tenant, b)
  }

  /** A call plans this. */
  lemma ToCreateIsPlan(p: Parent, grid: Grid, st: Store, now: Instant, tenant: Option<string>)
    requires DayGrid(grid) && NamesFit(p, grid, now, tenant) && TenantMatches(p, tenant)
    ensures IsPlan(p, grid, tenant, ToCreate(p, grid, st.meta, now, tenant))
  {
    hide DayGrid, NameFits, HasActive, ToCreate, DefaultFits;
    PlanIsWanted(p, grid, st, now, tenant);
    NamesHaveDefault(p, grid, now, tenant);
  }

  /** The partition of the window has not been retired away: if a row has its
      name, a table has it too. */
  predicate Intact(p: Parent, st: Store, tenant: Option<string>, b: Bounds) {
    var fq := PartName(p, TextOf(tenant), b, false);
    fq.Ok? ==> forall r :: r in st.meta && r.name == fq.value ==> IdOf(r.name) in st.tables
  }

  /** A window that is not over has not been retired. */
  lemma InTimeIsIntact(p: Parent, grid: Grid, st: Store, now: Instant, tenant: Option<string>, b: Bounds)
    requires DayGrid(grid) && Consistent(p, grid, st, now) && TenantOK(p, TenantsOf(st, p.id), tenant)
    requires b == grid(b.from) && NameFits(p, tenant, b) && b.to > now
    ensures Intact(p, st, tenant, b)
  {
    hide DayGrid, PartName, IdOf, UniqueNames, ChildrenKnown, NamesKnown, Clean, TenantOK, NameFits, TenantsTold,
      IsRangeName, IsDefaultName;
    var fq := PartName(p, TextOf(tenant), b, false);
    if fq.Ok? {
      FromRangeName(p, tenant, b) by { ShapeOfOK(p, TenantsOf(st, p.id), tenant); }
      forall r | r in st.meta && r.name == fq.value
        ensures IdOf(r.name) in st.tables
      {
        assert r.parentId == p.id;
        assert RowOK(p, grid, st, r, now);
        SameNameSameRange(p, grid, TenantsOf(st, p.id), r, tenant, b);
      }
    }
  }

  /** A table below the parent under a name whose row is not active. */
  ghost predicate Dangling(p: Parent, st: Store, fq: string) {
    && Whole(fq) && IdOf(fq) in st.tables && IsBelow(st.tables[IdOf(fq)], p.id)
    && (exists r :: r in st.meta && r.name == fq) && forall r :: r in st.meta && r.name == fq ==> r.status != Active
  }

  lemma DanglingBreaks(p: Parent, grid: Grid, st: Store, now: Instant, fq: string)
    requires Dangling(p, st, fq)
    ensures !Consistent(p, grid, st, now)
  {
    hide RowFits, Placed, UniqueNames, NamesKnown, NamesFree, Clean, TenantsTold, Whole, IdOf, IsPartName, IsRangeName;
    if Consistent(p, grid, st, now) {
      var r :| r in st.meta && r.parentId == p.id && r.status == Active && IdOf(r.name) == IdOf(fq);
      RowIsWhole(p, grid, st, now, r);
      IdsDiffer(r.name, fq);
    }
  }

  lemma RowIsWhole(p: Parent, grid: Grid, st: Store, now: Instant, r: PartRow)
    requires Consistent(p, grid, st, now) && r in st.meta && r.parentId == p.id
    ensures Whole(r.name)
  {
    hide RowFits, Placed, UniqueNames, ChildrenKnown, NamesKnown, NamesFree, Clean, TenantsTold, Whole, IsPartName,
      IsRangeName;
    assert RowOK(p, grid, st, r, now);
    RowSplits(p, grid, TenantsOf(st, p.id), r);
  }

  /** No later statement repairs it. */
  lemma CreatedKeepsDangling(p: Parent, st: Store, next: Store, id: TableId, part: Attachment, row: PartRow, fq: string)
    requires Dangling(p, st, fq) && Created(p, st, id, part, row) == Some(next)
    ensures Dangling(p, next, fq)
  {
    hide Whole, IdOf, Clash, FitsKey, DefaultHolds, Named;
    var r :| r in st.meta && r.name == fq;
    assert row.name == fq ==> Conflicts(r, row);
    assert r in next.meta;
  }

  lemma {:induction false} AllKeepDangling(p: Parent, st: Store, tenant: Option<string>, bs: seq<Bounds>, fq: string)
    requires Dangling(p, st, fq) && CreateAll(p, st, tenant, bs).Some?
    ensures Dangling(p, CreateAll(p, st, tenant, bs).value, fq)
    decreases |bs|
  {
    hide Dangling, Created, PartName, SplitFQ;
    if bs != [] {
      var b := bs[0];
      var next := CreateBounded(p, st, tenant, b).value;
      var name := PartName(p, TextOf(tenant), b, false).value;
      CreatedKeepsDangling(p, st, next, SplitFQ(name).value, Ranged(p.id, if TextOf(tenant) == "" then None else tenant, b),
                           PartRow(name, p.id, tenant, b, false, Active), fq);
      AllKeepDangling(p, next, tenant, bs[1..], fq);
    }
  }

  /** One planned window: it is created, or found as it is, or its table comes
      without its row. */
  lemma CommitOne(p: Parent, grid: Grid, st: Store, next: Store, now: Instant, tenant: Option<string>, b: Bounds,
                  fq: string)
    requires DayGrid(grid) && Consistent(p, grid, st, now) && TenantOK(p, TenantsOf(st, p.id), tenant)
    requires b == grid(b.from) && NameFits(p, tenant, b) && PartName(p, TextOf(tenant), b, false) == Ok(fq)
    requires CreateBounded(p, st, tenant, b) == Some(next)
    ensures Intact(p, st, tenant, b) ==> Consistent(p, grid, next, now) && Within(p, st, next)
    ensures Intact(p, st, tenant, b) ==> next == st || next == WithPartition(p, st, BoundedRow(p, tenant, b, fq))
    ensures Intact(p, st, tenant, b) ==> WaitingSame(p, st, next)
    ensures !Intact(p, st, tenant, b) ==> Dangling(p, next, fq)
  {
    hide DayGrid, Consistent, PartName, IdOf, TenantOK, NameFits, Created, Within, DefaultHolds, HasActive, Whole,
      WithPartition;
    if Unnamed(p, st.meta, fq) {
      CreatesUnnamed(p, grid, st, now, tenant, b, fq);
      UnnamedIsFree(p, grid, st, now, tenant, b, fq);
      ClearStaysSame(p, grid, st, now, tenant, b, fq);
    } else {
      TenantIsWord(p, TenantsOf(st, p.id), tenant) by { ConsistentTenants(p, grid, st, now); }
      BoundedIs(p, st, tenant, b, fq);
      var r :| r in st.meta && r.parentId == p.id && r.name == fq;
      NamedRow(p, grid, st, now, r);
      if IdOf(fq) in st.tables {
        FoundAsIs(p, st, next, Ranged(p.id, tenant, b), BoundedRow(p, tenant, b, fq), r);
        WithinItself(p, st);
      } else {
        ComesWithoutRow(p, st, next, Ranged(p.id, tenant, b), BoundedRow(p, tenant, b, fq), r);
      }
    }
  }

  lemma ClearStaysSame(p: Parent, grid: Grid, st: Store, now: Instant, tenant: Option<string>, b: Bounds, fq: string)
    requires Consistent(p, grid, st, now) && IdOf(fq) !in st.tables && !DefaultHolds(st, p.id, Ranged(p.id, tenant, b))
    ensures WaitingSame(p, st, WithPartition(p, st, BoundedRow(p, tenant, b, fq)))
  {
    hide RowOK, ChildrenKnown, NamesKnown, NamesFree, UniqueNames, TenantsTold, IdOf, Clean, DefaultHolds;
    StaysClean(p, st, BoundedRow(p, tenant, b, fq));
  }

  lemma ConsistentTenants(p: Parent, grid: Grid, st: Store, now: Instant)
    requires Consistent(p, grid, st, now)
    ensures TenantsTold(TenantsOf(st, p.id)) && UniqueNames(st.meta)
  {
  }

  /** The one row of a name, and what it says of its table. */
  lemma NamedRow(p: Parent, grid: Grid, st: Store, now: Instant, r: PartRow)
    requires Consistent(p, grid, st, now) && r in st.meta && r.parentId == p.id
    ensures Whole(r.name) && forall q :: q in st.meta && q.name == r.name ==> q == r
    ensures IdOf(r.name) !in st.tables ==> r.status != Active
  {
    hide RowFits, ChildrenKnown, NamesKnown, NamesFree, Clean, TenantsTold, Whole, IsPartName, IsRangeName, IdOf;
    assert RowOK(p, grid, st, r, now);
    RowSplits(p, grid, TenantsOf(st, p.id), r);
    forall q | q in st.meta && q.name == r.name ensures q == r {
      NameIsUnique(st.meta, r, q);
    }
  }

  lemma FoundAsIs(p: Parent, st: Store, next: Store, part: Attachment, row: PartRow, r: PartRow)
    requires r in st.meta && r.name == row.name && Named(IdOf(row.name)) == IdOf(row.name) && IdOf(row.name) in st.tables
    requires Created(p, st, IdOf(row.name), part, row) == Some(next)
    ensures next == st
  {
    hide IdOf, Named;
    assert Conflicts(r, row);
  }

  lemma ComesWithoutRow(p: Parent, st: Store, next: Store, part: Attachment, row: PartRow, r: PartRow)
    requires r in st.meta && r.name == row.name && r.status != Active && Whole(row.name)
    requires forall q :: q in st.meta && q.name == r.name ==> q == r
    requires Named(IdOf(row.name)) == IdOf(row.name) && IdOf(row.name) !in st.tables && IsBelow(part, p.id)
    requires Created(p, st, IdOf(row.name), part, row) == Some(next)
    ensures Dangling(p, next, row.name)
  {
    hide IdOf, Named, Clash, FitsKey, DefaultHolds, Whole;
    assert Conflicts(r, row);
  }

  /** Different windows of a tenant have different names, so one that comes does
      not bear on another. */
  lemma IntactStays(p: Parent, grid: Grid, st: Store, tenant: Option<string>, b: Bounds, c: Bounds, fq: string)
    requires DayGrid(grid) && b == grid(b.from) && c == grid(c.from) && b != c
    requires NameFits(p, tenant, b) && NameFits(p, tenant, c) && PartName(p, TextOf(tenant), b, false) == Ok(fq)
    ensures Intact(p, st, tenant, c) <==> Intact(p, WithPartition(p, st, BoundedRow(p, tenant, b, fq)), tenant, c)
  {
    hide BuildName, IdOf, Whole, Tiling, Fits, ToUpper;
    var next := WithPartition(p, st, BoundedRow(p, tenant, b, fq));
    var other := PartName(p, TextOf(tenant), c, false);
    assert IsMidnight(grid(b.from).from) && IsMidnight(grid(c.from).from);
    if other.Ok? {
      PartNameSplits(p, TextOf(tenant), b, false);
      PartNameSplits(p, TextOf(tenant), c, false);
      IdsDiffer(fq, other.value);
      if other.value == fq {
        BuiltNamesDiffer(PartOf(p, TextOf(tenant), b, false), PartOf(p, TextOf(tenant), c, false));
      } else {
        assert forall r: PartRow :: r.name == other.value ==> (r in st.meta <==> r in next.meta);
      }
    }
  }

  /** The invariant is kept, and so is what a commit may not touch. */
  ghost predicate Committed(p: Parent, grid: Grid, st: Store, after: Store, now: Instant) {
    Consistent(p, grid, after, now) && Within(p, st, after) && after.tenants == st.tenants && st.meta <= after.meta
  }

  /** A plan commits well exactly when none of its windows was retired away
      since. */
  lemma {:induction false} AllCommitIff(p: Parent, grid: Grid, st: Store, now: Instant, tenant: Option<string>,
                                        planned: seq<Bounds>)
    requires DayGrid(grid) && Consistent(p, grid, st, now) && TenantOK(p, TenantsOf(st, p.id), tenant)
    requires IsPlan(p, grid, tenant, planned) && CreateAll(p, st, tenant, planned).Some?
    ensures var after := CreateAll(p, st, tenant, planned).value;
      if forall b :: b in planned ==> Intact(p, st, tenant, b)
      then Committed(p, grid, st, after, now) && WaitingSame(p, st, after)
      else exists fq :: Dangling(p, after, fq)
    decreases |planned|
  {
    hide Consistent, DayGrid, TenantOK, Intact, Within, Dangling, CreateBounded, PartName, NameFits, DefaultFits,
      WithPartition, DefaultAttached;
    if planned == [] {
      WithinItself(p, st);
    } else {
      var b, rest := planned[0], planned[1..];
      var next := CreateBounded(p, st, tenant, b).value;
      var fq := BuiltName(p, st, tenant, b);
      CommitOne(p, grid, st, next, now, tenant, b, fq);
      assert b in planned && forall c :: c in rest ==> c in planned;
      if Intact(p, st, tenant, b) {
        SameTenants(p, st, tenant, b, fq);
        forall c | c in rest
          ensures Intact(p, st, tenant, c) <==> Intact(p, next, tenant, c)
        {
          if next != st {
            IntactStays(p, grid, st, tenant, b, c, fq);
          }
        }
        assert forall c :: c in planned <==> c == b || c in rest;
        AllCommitIff(p, grid, next, now, tenant, rest);
        if forall c :: c in planned ==> Intact(p, st, tenant, c) {
          WithinTwice(p, st, next, CreateAll(p, next, tenant, rest).value);
        }
      } else {
        AllKeepDangling(p, next, tenant, rest, fq);
      }
    }
  }

  lemma BuiltName(p: Parent, st: Store, tenant: Option<string>, b: Bounds) returns (fq: string)
    requires CreateBounded(p, st, tenant, b).Some?
    ensures PartName(p, TextOf(tenant), b, false) == Ok(fq)
  {
    fq := PartName(p, TextOf(tenant), b, false).value;
  }

  lemma SameTenants(p: Parent, st: Store, tenant: Option<string>, b: Bounds, fq: string)
    ensures var next := WithPartition(p, st, BoundedRow(p, tenant, b, fq));
      next.tenants == st.tenants && TenantsOf(next, p.id) == TenantsOf(st, p.id) && st.meta <= next.meta
  {
  }

  /** A transaction whose plan is old keeps the invariant, if and only if no
      planned window was retired away since: its row is there and its table is
      not.  Otherwise the table comes back without an active row. */
  lemma CommitKeepsIff(p: Parent, grid: Grid, st: Store, after: Store, now: Instant, tenant: Option<string>,
                       planned: seq<Bounds>, need: bool)
    requires DayGrid(grid) && Consistent(p, grid, st, now) && IsPlan(p, grid, tenant, planned)
    requires CreateTx(p, st, tenant, planned, need) == Some(after)
    ensures Consistent(p, grid, after, now) <==> forall b :: b in planned ==> Intact(p, st, tenant, b)
    ensures Consistent(p, grid, after, now) ==> Committed(p, grid, st, after, now) && WaitingKept(p, st, after)
  {
    hide DayGrid, Consistent, WaitingSame, CreateAll, CreateDefault, Intact, Within, Dangling;
    var mid := CreateAll(p, st, tenant, planned).value;
    PlanCommits(p, grid, st, now, tenant, planned);
    if forall b :: b in planned ==> Intact(p, st, tenant, b) {
      if need {
        DefaultCommits(p, grid, mid, after, now) by { hide *; PlanHasDefault(p, grid, tenant, planned); }
        WithinTwice(p, st, mid, after);
        KeptTwice(p, st, mid, after);
      }
    } else {
      var fq :| Dangling(p, mid, fq);
      if need {
        DefaultKeepsDangling(p, mid, after, fq);
      }
      DanglingBreaks(p, grid, after, now, fq);
    }
  }

  lemma KeptTwice(p: Parent, st: Store, mid: Store, after: Store)
    requires WaitingSame(p, st, mid) && WaitingKept(p, mid, after) && st.meta <= mid.meta
    ensures WaitingKept(p, st, after)
  {
    if HasDefault(p, st.meta) {
      var r :| r in st.meta && r.parentId == p.id && r.tenant == None && r.isDefault;
      assert r in mid.meta;
    }
  }

  lemma PlanHasDefault(p: Parent, grid: Grid, tenant: Option<string>, planned: seq<Bounds>)
    requires IsPlan(p, grid, tenant, planned)
    ensures DefaultFits(p)
  {
  }

  lemma PlanCommits(p: Parent, grid: Grid, st: Store, now: Instant, tenant: Option<string>, planned: seq<Bounds>)
    requires DayGrid(grid) && Consistent(p, grid, st, now)
    requires IsPlan(p, grid, tenant, planned) && CreateAll(p, st, tenant, planned).Some?
    ensures var after := CreateAll(p, st, tenant, planned).value;
      if forall b :: b in planned ==> Intact(p, st, tenant, b)
      then Committed(p, grid, st, after, now) && WaitingSame(p, st, after)
      else exists fq :: Dangling(p, after, fq)
  {
    hide Consistent, DayGrid, Intact, Within, Dangling, CreateBounded, NameFits;
    if planned == [] {
      WithinItself(p, st);
    } else {
      if tenant.Some? && tenant.value !in TenantsOf(st, p.id) {
        StrangerFails(p, st, tenant, planned);
      }
      RegisteredOK(p, grid, st, now, tenant);
      AllCommitIff(p, grid, st, now, tenant, planned);
    }
  }

  lemma DefaultCommits(p: Parent, grid: Grid, st: Store, after: Store, now: Instant)
    requires Consistent(p, grid, st, now) && DefaultFits(p) && CreateDefault(p, st) == Some(after)
    ensures Committed(p, grid, st, after, now) && WaitingKept(p, st, after)
  {
    hide Consistent, Within, DefaultFits, Named;
    if HasDefault(p, st.meta) {
      DefaultAgain(p, grid, st, after, now);
      WithinItself(p, st);
    } else {
      CreatesDefault(p, grid, st, now);
      MetaGrows(p, st, after);
    }
  }

  lemma MetaGrows(p: Parent, st: Store, after: Store)
    requires CreateDefault(p, st) == Some(after)
    ensures st.meta <= after.meta
  {
  }

  lemma DefaultAgain(p: Parent, grid: Grid, st: Store, after: Store, now: Instant)
    requires Consistent(p, grid, st, now) && HasDefault(p, st.meta) && CreateDefault(p, st) == Some(after)
    ensures after == st
  {
    hide BuildName, UniqueNames, ChildrenKnown, NamesKnown, NamesFree, Clean, TenantsTold, Fits, Clip, TableOf;
    var r :| r in st.meta && r.parentId == p.id && r.tenant == None && r.isDefault;
    assert RowOK(p, grid, st, r, now);
    PartNameSplits(p, "", ZERO_BOUNDS, true);
    assert Conflicts(r, PartRow(r.name, p.id, None, ZERO_BOUNDS, true, Active));
  }

  lemma DefaultKeepsDangling(p: Parent, st: Store, after: Store, fq: string)
    requires Dangling(p, st, fq) && CreateDefault(p, st) == Some(after)
    ensures Dangling(p, after, fq)
  {
    hide Dangling, Created, PartName, SplitFQ;
    var name := PartName(p, "", ZERO_BOUNDS, true).value;
    CreatedKeepsDangling(p, st, after, SplitFQ(name).value, DefaultPart(p.id),
                         PartRow(name, p.id, None, ZERO_BOUNDS, true, Active), fq);
  }

  /** A transaction that commits while none of its windows is over is always
      safe. */
  lemma CommitInTime(p: Parent, grid: Grid, st: Store, after: Store, now: Instant, tenant: Option<string>,
                     planned: seq<Bounds>, need: bool)
    requires DayGrid(grid) && Consistent(p, grid, st, now) && IsPlan(p, grid, tenant, planned)
    requires CreateTx(p, st, tenant, planned, need) == Some(after) && forall b :: b in planned ==> b.to > now
    ensures Consistent(p, grid, after, now)
  {
    hide DayGrid, Consistent, CreateAll, CreateDefault, Intact, NameFits, DefaultFits;
    if planned != [] {
      if tenant.Some? && tenant.value !in TenantsOf(st, p.id) {
        StrangerFails(p, st, tenant, planned);
      }
      RegisteredOK(p, grid, st, now, tenant);
      forall b | b in planned
        ensures Intact(p, st, tenant, b)
      {
        InTimeIsIntact(p, grid, st, now, tenant, b);
      }
    }
    CommitKeepsIff(p, grid, st, after, now, tenant, planned, need);
  }
}
