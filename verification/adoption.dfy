/** Importing a parent whose children nobody has tracked: when the metadata that
    comes out is in order. */
module Adoption {
  import opened Wrappers
  import opened Calendar
  import opened Periods
  import opened Text
  import opened Naming
  import opened BoundText
  import opened Metadata
  import opened Catalog
  import opened Provisioner
  import opened Consistency
  import opened Reimport
  import Importer

  /** A parent without rows: what the server sees to holds, and no other parent
      has taken its names. */
  ghost predicate Untracked(p: Parent, st: Store) {
    && UniqueNames(st.meta) && (forall r :: r in st.meta ==> r.parentId != p.id) && NamesFree(p, st) && Clean(p, st)
    && forall a, b :: a in st.tables && b in st.tables && a != b ==> !Clash(st.tables[a], st.tables[b])
  }

  function NameAt(id: TableId): string { id.schema + "." + id.table }

  /** A child that is aligned, a window of the parent's grid under the name the
      parent gives it, and whose tenant, if any, is in upper case; or the default
      under its name. */
  ghost predicate Adoptable(p: Parent, grid: Grid, st: Store, zone: Zone, id: TableId)
    requires IsChild(p, st.tables, zone, id)
  {
    var a := st.tables[id];
    && ItemAt(p, st.tables, zone, id).verdict.Aligned?
    && if a.DefaultPart? then IsDefaultName(p, NameAt(id))
       else
         && TenantShape(p, a.tenant) && ToUpper(TextOf(a.tenant)) == TextOf(a.tenant) && a.bounds == grid(a.bounds.from)
         && PartName(p, TextOf(a.tenant), a.bounds, false) == Ok(NameAt(id)) && NameFits(p, a.tenant, a.bounds)
  }

  /** Every child is fit, and every table named like a partition is a child. */
  ghost predicate AllAdoptable(p: Parent, grid: Grid, st: Store, zone: Zone) {
    && (forall id :: IsChild(p, st.tables, zone, id) ==> Adoptable(p, grid, st, zone, id))
    && forall id :: id in st.tables && IsPartId(p, id) ==> IsBelow(st.tables[id], p.id)
  }

  /** The row such a child gets. */
  function RowOfChild(p: Parent, id: TableId, a: Attachment): PartRow
    requires a != Loose
  {
    if a.DefaultPart? then PartRow(NameAt(id), p.id, None, ZERO_BOUNDS, true, Active)
    else PartRow(NameAt(id), p.id, a.tenant, a.bounds, false, Active)
  }

  lemma OneDot(a: string, b: string, c: string, d: string)
    requires a + "." + b == c + "." + d && '.' !in a && '.' !in b
    ensures a == c && b == d
  {
    var s := a + "." + b;
    forall i | 0 <= i < |a| ensures s[i] != '.' {
      assert s[i] == a[i];
    }
    forall i | |a| < i < |s| ensures s[i] != '.' {
      assert s[i] == b[i - |a| - 1];
    }
    assert (c + "." + d)[|c|] == '.';
    assert s[..|a|] == a && s[|a| + 1..] == b;
    assert (c + "." + d)[..|c|] == c && (c + "." + d)[|c| + 1..] == d;
  }

  /** A name the parent gives is the name of one table. */
  lemma NamedAt(p: Parent, id: TableId, name: string)
    requires IsPartName(p, name) && name == NameAt(id)
    ensures IdOf(name) == id
  {
    hide IdOf, Whole, PartName, IsRangeName, IsDefaultName;
    PartNameFacts(p, name);
    NameJoins(name);
    NoDots(p, name);
    OneDot(IdOf(name).schema, IdOf(name).table, id.schema, id.table);
  }

  lemma NoDots(p: Parent, name: string)
    requires IsPartName(p, name)
    ensures '.' !in IdOf(name).schema && '.' !in IdOf(name).table
  {
    hide IdOf, Whole, Fits;
    if IsRangeName(p, name) {
      var tenant, b :| TenantShape(p, tenant) && PartName(p, TextOf(tenant), b, false) == Ok(name) && NameFits(p, tenant, b);
      PartNameSplits(p, TextOf(tenant), b, false);
      TableHasNoDot(PartOf(p, TextOf(tenant), b, false));
    } else {
      PartNameSplits(p, "", ZERO_BOUNDS, true);
      TableHasNoDot(PartOf(p, "", ZERO_BOUNDS, true));
    }
  }

  lemma TableHasNoDot(tn: TableName)
    requires BuildName(tn).Ok?
    ensures '.' !in tn.schema && '.' !in TableOf(tn)
  {
    hide FormatDate;
    if tn.tenant != "" {
      ToUpperOfWord(tn.tenant);
    }
    WordHasNoDot(tn.schema);
    WordHasNoDot(tn.parent);
    if tn.tenant != "" {
      WordHasNoDot(ToUpper(tn.tenant));
    }
  }

  lemma WordHasNoDot(s: string)
    requires IsWord(s)
    ensures '.' !in s
  {
  }

  /* ----- the rows an import adds ----- */

  lemma {:induction false} AbsorbedRows(v: Importer.Store, parentId: string, items: seq<Importer.Item>)
    ensures var w := Importer.AbsorbAll(v, parentId, items);
      && (forall r :: r in v.meta ==> r in w.meta)
      && (forall r :: r in w.meta && r !in v.meta ==>
            exists x :: x in items && x.verdict.Aligned? && r == Importer.RowFor(parentId, x))
      && (UniqueNames(v.meta) ==> UniqueNames(w.meta))
      && (forall x :: x in items ==> Importer.TenantOf(x) <= w.tenants) && v.tenants <= w.tenants
    decreases |items|
  {
    hide Conflicts, Importer.RowFor, Importer.TenantOf, UniqueNames;
    if items != [] {
      var x, rest := items[0], items[1..];
      var next := Importer.Absorb(v, parentId, x);
      AbsorbedRows(next, parentId, rest);
      AbsorbedOne(v, parentId, x);
      forall r | r in Importer.AbsorbAll(v, parentId, items).meta && r !in v.meta
        ensures exists y :: y in items && y.verdict.Aligned? && r == Importer.RowFor(parentId, y)
      {
        if r in next.meta {
          assert x in items;
        } else {
          var y :| y in rest && y.verdict.Aligned? && r == Importer.RowFor(parentId, y);
          assert y in items;
        }
      }
      forall y | y in items
        ensures Importer.TenantOf(y) <= Importer.AbsorbAll(v, parentId, items).tenants
      {
        assert y == x || y in rest;
      }
    }
  }

  lemma AbsorbedOne(v: Importer.Store, parentId: string, x: Importer.Item)
    ensures var w := Importer.Absorb(v, parentId, x);
      && (forall r :: r in v.meta ==> r in w.meta)
      && (forall r :: r in w.meta && r !in v.meta ==> x.verdict.Aligned? && r == Importer.RowFor(parentId, x))
      && (UniqueNames(v.meta) ==> UniqueNames(w.meta)) && Importer.TenantOf(x) <= w.tenants && v.tenants <= w.tenants
  {
    hide Importer.RowFor;
    if x.verdict.Aligned? {
      var row := Importer.RowFor(parentId, x);
      if !Blocked(v.meta, row) {
        forall r | r in v.meta
          ensures r.name != row.name
        {
          assert !Conflicts(r, row);
        }
      }
    }
  }

  /** What a complete import leaves. */
  function Imported(p: Parent, st: Store, children: seq<Importer.Child>): Store {
    WithView(p, st, Importer.AbsorbAll(View(p, st), p.id, Importer.Items(children)))
  }

  lemma CompleteImport(p: Parent, st: Store, after: Store, zone: Zone, children: seq<Importer.Child>)
    requires ImportStep(p, st, after, zone, children, |WritesOf(p, st, children)|)
    ensures after == Imported(p, st, children)
  {
    hide Importer.Writes, Importer.ApplyAll, Importer.AbsorbAll, ListsChildren;
    var v, items, ws := View(p, st), Importer.Items(children), WritesOf(p, st, children);
    Importer.CutRunConverges(v, p.id, items, Importer.NamesOf(v.meta, p.id), v.tenants, |ws|);
    assert ws[..|ws|] == ws;
  }

  /** The items of an import are those of the children. */
  lemma ItemsOfChildren(p: Parent, st: Store, zone: Zone, children: seq<Importer.Child>)
    requires ListsChildren(p, st.tables, zone, children)
    ensures forall x :: x in Importer.Items(children) ==>
      exists id :: IsChild(p, st.tables, zone, id) && x == ItemAt(p, st.tables, zone, id)
    ensures forall id :: IsChild(p, st.tables, zone, id) ==> ItemAt(p, st.tables, zone, id) in Importer.Items(children)
  {
    hide ChildAt, Printable, Importer.Classify;
    var items := Importer.Items(children);
    forall x | x in items
      ensures exists id :: IsChild(p, st.tables, zone, id) && x == ItemAt(p, st.tables, zone, id)
    {
      var i :| 0 <= i < |items| && items[i] == x;
      assert children[i] in children;
      var id :| IsChild(p, st.tables, zone, id) && children[i] == ChildAt(id, st.tables[id], zone);
      assert x == ItemAt(p, st.tables, zone, id);
    }
    forall id | IsChild(p, st.tables, zone, id)
      ensures ItemAt(p, st.tables, zone, id) in items
    {
      BelowListed(p, st.tables, zone, children, id);
      var i :| 0 <= i < |children| && children[i] == ChildAt(id, st.tables[id], zone);
      assert items[i] in items;
    }
  }

  lemma ItemName(p: Parent, st: Store, zone: Zone, id: TableId)
    requires IsChild(p, st.tables, zone, id)
    ensures ItemAt(p, st.tables, zone, id).fq == NameAt(id)
  {
    hide RenderBound, Importer.Classify, Printable;
  }

  /* ----- fit children ----- */

  /** The row, the tenant and the table of a fit child. */
  lemma AdoptedRow(p: Parent, grid: Grid, st: Store, zone: Zone, id: TableId)
    requires IsChild(p, st.tables, zone, id) && Adoptable(p, grid, st, zone, id)
    ensures var x, a := ItemAt(p, st.tables, zone, id), st.tables[id];
      && Importer.RowFor(p.id, x) == RowOfChild(p, id, a) && IdOf(NameAt(id)) == id && IsPartName(p, NameAt(id))
      && (a.Ranged? && a.tenant.Some? ==> a.tenant.value in Importer.TenantOf(x))
      && (a.Ranged? && Tiling(grid) ==> a.bounds.from < a.bounds.to)
  {
    hide RenderBound, ParseBoundExpr, ParseName, Printable, InWholeHours, Fits, Stem, Suffix, IsWord, IdOf, NameAt, Tiling;
    var a := st.tables[id];
    ItemName(p, st, zone, id);
    if a.DefaultPart? {
      DefaultReadsDefault();
      NamedAt(p, id, NameAt(id));
    } else {
      BuildsTenant(p, a.tenant, a.bounds);
      RenderedBoundReads(TextOf(a.tenant), a.bounds, zone);
      FromRangeName(p, a.tenant, a.bounds);
      NamedAt(p, id, NameAt(id));
      if Tiling(grid) {
        WindowsAbut(grid, a.bounds.from);
      }
    }
  }

  lemma DefaultReadsDefault()
    ensures ParseBoundExpr("DEFAULT").Ok? && ParseBoundExpr("DEFAULT").value.isDefault
  {
    assert TrimLeft("DEFAULT") == "DEFAULT" && TrimRight("DEFAULT") == "DEFAULT";
  }

  /** Rows of different fit children are not in each other's way. */
  lemma AdoptedApart(p: Parent, grid: Grid, st: Store, zone: Zone, a: TableId, b: TableId)
    requires Tiling(grid) && Untracked(p, st) && a != b
    requires IsChild(p, st.tables, zone, a) && Adoptable(p, grid, st, zone, a)
    requires IsChild(p, st.tables, zone, b) && Adoptable(p, grid, st, zone, b)
    ensures !Conflicts(RowOfChild(p, a, st.tables[a]), RowOfChild(p, b, st.tables[b]))
  {
    hide Adoptable, IdOf, Clean, NamesFree, UniqueNames, NameAt, Tiling, ItemAt, Importer.RowFor, Importer.TenantOf,
      IsPartName, Printable, RowOfChild, Conflicts, Clash;
    AdoptedRow(p, grid, st, zone, a);
    AdoptedRow(p, grid, st, zone, b);
    assert !Clash(st.tables[a], st.tables[b]);
    ChildrenApart(p, a, st.tables[a], b, st.tables[b]);
  }

  lemma ChildrenApart(p: Parent, a: TableId, x: Attachment, b: TableId, y: Attachment)
    requires IsBelow(x, p.id) && IsBelow(y, p.id) && !Clash(x, y) && NameAt(a) != NameAt(b)
    requires (x.Ranged? ==> x.bounds.from < x.bounds.to) && (y.Ranged? ==> y.bounds.from < y.bounds.to)
    ensures !Conflicts(RowOfChild(p, a, x), RowOfChild(p, b, y))
  {
    hide NameAt;
  }

  /** With all children fit, nothing obstructs the import. */
  lemma NothingObstructs(p: Parent, grid: Grid, st: Store, zone: Zone, children: seq<Importer.Child>)
    requires Tiling(grid) && Untracked(p, st) && AllAdoptable(p, grid, st, zone)
    requires ListsChildren(p, st.tables, zone, children)
    requires Importer.DistinctFQs(Importer.Items(children))
    ensures Importer.Unobstructed(View(p, st), p.id, Importer.Items(children))
  {
    hide Adoptable, ItemAt, ListsChildren, Clean, UniqueNames, Importer.RowFor, Conflicts, RowOfChild, Clash, Printable;
    var items := Importer.Items(children);
    ItemsOfChildren(p, st, zone, children);
    forall i | 0 <= i < |items|
      ensures Importer.Fresh(View(p, st), p.id, items[i]) ==> !Blocked(st.meta, Importer.RowFor(p.id, items[i]))
    {
      assert items[i] in items;
      var id :| IsChild(p, st.tables, zone, id) && items[i] == ItemAt(p, st.tables, zone, id);
      AdoptedIsFree(p, grid, st, zone, id);
    }
    forall i, j | 0 <= i < j < |items| && items[i].verdict.Aligned? && items[j].verdict.Aligned?
      ensures !Conflicts(Importer.RowFor(p.id, items[i]), Importer.RowFor(p.id, items[j]))
    {
      assert items[i] in items && items[j] in items;
      var a :| IsChild(p, st.tables, zone, a) && items[i] == ItemAt(p, st.tables, zone, a);
      var b :| IsChild(p, st.tables, zone, b) && items[j] == ItemAt(p, st.tables, zone, b);
      AdoptedRow(p, grid, st, zone, a);
      AdoptedRow(p, grid, st, zone, b);
      AdoptedApart(p, grid, st, zone, a, b);
    }
  }

  lemma AdoptedIsFree(p: Parent, grid: Grid, st: Store, zone: Zone, id: TableId)
    requires Untracked(p, st) && IsChild(p, st.tables, zone, id) && Adoptable(p, grid, st, zone, id)
    ensures !Blocked(st.meta, Importer.RowFor(p.id, ItemAt(p, st.tables, zone, id)))
  {
    hide Adoptable, ItemAt, IdOf, Clean, UniqueNames, IsPartName, NameAt, Importer.RowFor, Clash, Printable;
    AdoptedRow(p, grid, st, zone, id);
  }

  /** Then every child has its row afterwards, and every row of the parent is a
      child's. */
  lemma AdoptedAll(p: Parent, grid: Grid, st: Store, zone: Zone, children: seq<Importer.Child>)
    requires Tiling(grid) && Untracked(p, st) && AllAdoptable(p, grid, st, zone)
    requires ListsChildren(p, st.tables, zone, children)
    requires Importer.DistinctFQs(Importer.Items(children))
    ensures var after := Imported(p, st, children);
      && UniqueNames(after.meta) && (forall r :: r in after.meta && r.parentId != p.id ==> r in st.meta)
      && (forall r :: r in after.meta && r.parentId == p.id ==>
            exists id :: IsChild(p, st.tables, zone, id) && r == RowOfChild(p, id, st.tables[id]))
      && (forall id :: IsChild(p, st.tables, zone, id) ==> RowOfChild(p, id, st.tables[id]) in after.meta)
      && (forall id :: IsChild(p, st.tables, zone, id) && st.tables[id].Ranged? && st.tables[id].tenant.Some? ==>
            st.tables[id].tenant.value in TenantsOf(after, p.id))
  {
    hide Importer.AbsorbAll, Importer.Items, ListsChildren, Adoptable, ItemAt, Imported, View, RowOfChild, NameAt,
      UniqueNames, Printable, Untracked, Importer.RowFor, Importer.TenantOf, Importer.Unobstructed,
      Importer.AllPresent, AllAdoptable, Tiling, IdOf, Importer.DistinctFQs;
    var v, items := View(p, st), Importer.Items(children);
    var after := Imported(p, st, children);
    NothingObstructs(p, grid, st, zone, children);
    Importer.PresentIffUnobstructed(v, p.id, items);
    ImportedParts(p, st, children);
    AbsorbedRows(v, p.id, items);
    UntrackedParts(p, st);
    forall r | r in after.meta && r !in st.meta
      ensures r.parentId == p.id && exists id :: IsChild(p, st.tables, zone, id) && r == RowOfChild(p, id, st.tables[id])
    {
      var id := RowIsChilds(p, grid, st, zone, children, r);
    }
    forall id | IsChild(p, st.tables, zone, id)
      ensures RowOfChild(p, id, st.tables[id]) in after.meta
      ensures st.tables[id].Ranged? && st.tables[id].tenant.Some? ==> st.tables[id].tenant.value in TenantsOf(after, p.id)
    {
      AdoptedPresent(p, grid, st, after, zone, children, id);
    }
  }

  lemma UntrackedParts(p: Parent, st: Store)
    requires Untracked(p, st)
    ensures UniqueNames(st.meta) && forall r :: r in st.meta ==> r.parentId != p.id
  {
  }

  lemma ImportedParts(p: Parent, st: Store, children: seq<Importer.Child>)
    ensures var (v, after) := (Importer.AbsorbAll(View(p, st), p.id, Importer.Items(children)), Imported(p, st, children));
      && after.meta == v.meta && TenantsOf(after, p.id) == v.tenants && View(p, st).meta == st.meta
      && after.tables == st.tables && after.waiting == st.waiting
  {
    hide Importer.AbsorbAll, Importer.Items;
  }

  /** A row that an import of fit children adds is a child's. */
  lemma RowIsChilds(p: Parent, grid: Grid, st: Store, zone: Zone, children: seq<Importer.Child>,
                    r: PartRow) returns (id: TableId)
    requires AllAdoptable(p, grid, st, zone) && ListsChildren(p, st.tables, zone, children)
    requires r in Imported(p, st, children).meta && r !in st.meta
    ensures IsChild(p, st.tables, zone, id) && r == RowOfChild(p, id, st.tables[id]) && r.parentId == p.id
    ensures r.name == NameAt(id) && IdOf(r.name) == id
  {
    hide Importer.AbsorbAll, Importer.Items, Importer.RowFor, ListsChildren, Adoptable, ItemAt, Imported, View,
      RowOfChild, NameAt, IdOf, Importer.TenantOf, UniqueNames, Printable, IsPartName, IsPartId;
    var items := Importer.Items(children);
    ImportedParts(p, st, children);
    AbsorbedRows(View(p, st), p.id, items);
    ItemsOfChildren(p, st, zone, children);
    var x :| x in items && x.verdict.Aligned? && r == Importer.RowFor(p.id, x);
    id :| IsChild(p, st.tables, zone, id) && x == ItemAt(p, st.tables, zone, id);
    AdoptedRow(p, grid, st, zone, id);
    OwnRow(p, id, st.tables[id]);
  }

  lemma OwnRow(p: Parent, id: TableId, a: Attachment)
    requires a != Loose
    ensures RowOfChild(p, id, a).parentId == p.id && RowOfChild(p, id, a).name == NameAt(id)
    ensures RowOfChild(p, id, a).status == Active && RowOfChild(p, id, a).isDefault == a.DefaultPart?
  {
  }

  lemma AdoptedPresent(p: Parent, grid: Grid, st: Store, after: Store, zone: Zone, children: seq<Importer.Child>,
                       id: TableId)
    requires AllAdoptable(p, grid, st, zone) && ListsChildren(p, st.tables, zone, children) && Untracked(p, st)
    requires after == Imported(p, st, children) && IsChild(p, st.tables, zone, id)
    requires var items := Importer.Items(children);
      Importer.AllPresent(Importer.AbsorbAll(View(p, st), p.id, items), p.id, items)
    ensures RowOfChild(p, id, st.tables[id]) in after.meta
    ensures st.tables[id].Ranged? && st.tables[id].tenant.Some? ==> st.tables[id].tenant.value in TenantsOf(after, p.id)
  {
    hide Importer.AbsorbAll, Importer.Items, ListsChildren, Adoptable, ItemAt, Imported, View, RowOfChild, NameAt, IdOf,
      Importer.TenantOf, UniqueNames, Printable, IsPartName, IsPartId, Untracked, Importer.RowFor;
    var items := Importer.Items(children);
    var x := ItemAt(p, st.tables, zone, id);
    ImportedParts(p, st, children);
    UntrackedParts(p, st);
    ItemsOfChildren(p, st, zone, children);
    AbsorbedRows(View(p, st), p.id, items);
    AdoptedRow(p, grid, st, zone, id);
    AlignedAdoptable(p, grid, st, zone, id);
    ItemName(p, st, zone, id);
    var i :| 0 <= i < |items| && items[i] == x;
    var r :| r in after.meta && r.parentId == p.id && r.name == NameAt(id);
    var o := RowIsChilds(p, grid, st, zone, children, r);
  }

  lemma AlignedAdoptable(p: Parent, grid: Grid, st: Store, zone: Zone, id: TableId)
    requires IsChild(p, st.tables, zone, id) && Adoptable(p, grid, st, zone, id)
    ensures ItemAt(p, st.tables, zone, id).verdict.Aligned?
  {
    hide ItemAt, PartName, Printable;
  }

  /* ----- what comes out ----- */

  lemma AdoptedRowOK(p: Parent, grid: Grid, st: Store, after: Store, now: Instant, zone: Zone, id: TableId)
    requires IsChild(p, st.tables, zone, id) && Adoptable(p, grid, st, zone, id) && after.tables == st.tables
    requires var a := st.tables[id]; a.Ranged? && a.tenant.Some? ==> a.tenant.value in TenantsOf(after, p.id)
    ensures RowOK(p, grid, after, RowOfChild(p, id, st.tables[id]), now)
  {
    hide PartName, Fits, IdOf, NameAt, Importer.RowFor, Importer.TenantOf, Printable, ItemAt, IsPartName;
    AdoptedRow(p, grid, st, zone, id);
  }

  /** Fit children become metadata in order. */
  lemma FitIsInOrder(p: Parent, grid: Grid, st: Store, now: Instant, zone: Zone, children: seq<Importer.Child>)
    requires Tiling(grid) && Untracked(p, st) && AllAdoptable(p, grid, st, zone)
    requires ListsChildren(p, st.tables, zone, children)
    requires Importer.DistinctFQs(Importer.Items(children))
    ensures var after := Imported(p, st, children);
      TenantsTold(TenantsOf(after, p.id)) ==> Consistent(p, grid, after, now)
  {
    hide Adoptable, Imported, RowOfChild, NameAt, UniqueNames, Printable, Importer.Items, Importer.DistinctFQs,
      Tiling, ItemAt, RowOK, IsPartName, TenantsTold, ListsChildren, Untracked, AllAdoptable, ChildrenKnown,
      NamesKnown, NamesFree, Clean;
    var after := Imported(p, st, children);
    AdoptedAll(p, grid, st, zone, children);
    FitTablesKnown(p, grid, st, zone, children);
    FitElsewhere(p, grid, st, zone, children);
    ImportedParts(p, st, children);
    forall r | r in after.meta && r.parentId == p.id
      ensures RowOK(p, grid, after, r, now)
    {
      var id :| IsChild(p, st.tables, zone, id) && r == RowOfChild(p, id, st.tables[id]);
      FitAt(p, grid, st, zone, id);
      AdoptedRowOK(p, grid, st, after, now, zone, id);
    }
  }

  lemma FitAt(p: Parent, grid: Grid, st: Store, zone: Zone, id: TableId)
    requires AllAdoptable(p, grid, st, zone) && IsChild(p, st.tables, zone, id)
    ensures Adoptable(p, grid, st, zone, id)
  {
    hide Adoptable, Printable;
  }

  lemma FitTablesKnown(p: Parent, grid: Grid, st: Store, zone: Zone, children: seq<Importer.Child>)
    requires Tiling(grid) && Untracked(p, st) && AllAdoptable(p, grid, st, zone)
    requires ListsChildren(p, st.tables, zone, children)
    requires Importer.DistinctFQs(Importer.Items(children))
    ensures ChildrenKnown(p, Imported(p, st, children)) && NamesKnown(p, Imported(p, st, children))
  {
    hide Adoptable, Imported, RowOfChild, NameAt, UniqueNames, Printable, Importer.Items, Importer.DistinctFQs,
      Tiling, IdOf, ItemAt, IsPartId, IsPartName, ListsChildren, Untracked, Importer.RowFor, Importer.TenantOf;
    var after := Imported(p, st, children);
    AdoptedAll(p, grid, st, zone, children);
    ImportedParts(p, st, children);
    ChildListed(p, st, zone, children);
    forall id | id in after.tables && IsBelow(after.tables[id], p.id)
      ensures exists r :: r in after.meta && r.parentId == p.id && r.status == Active && IdOf(r.name) == id
    {
      var r := RowOfChild(p, id, st.tables[id]);
      AdoptedRow(p, grid, st, zone, id);
      OwnRow(p, id, st.tables[id]);
      assert r in after.meta;
    }
  }

  /** The rows of other parents and the default's are as they were. */
  lemma FitElsewhere(p: Parent, grid: Grid, st: Store, zone: Zone, children: seq<Importer.Child>)
    requires Tiling(grid) && Untracked(p, st) && AllAdoptable(p, grid, st, zone)
    requires ListsChildren(p, st.tables, zone, children)
    requires Importer.DistinctFQs(Importer.Items(children))
    ensures NamesFree(p, Imported(p, st, children)) && Clean(p, Imported(p, st, children))
  {
    hide Adoptable, Imported, RowOfChild, NameAt, UniqueNames, Printable, Importer.Items, Importer.DistinctFQs,
      Tiling, IdOf, ItemAt, IsPartId, IsPartName, ListsChildren, AllAdoptable, Takes, SlotFits;
    AdoptedAll(p, grid, st, zone, children);
    ImportedParts(p, st, children);
  }

  lemma ChildListed(p: Parent, st: Store, zone: Zone, children: seq<Importer.Child>)
    requires ListsChildren(p, st.tables, zone, children)
    ensures forall id :: id in st.tables && IsBelow(st.tables[id], p.id) ==> IsChild(p, st.tables, zone, id)
  {
    hide ChildAt, Printable;
  }

  /** The child that a row of an import is for. */
  lemma ChildOfRow(p: Parent, st: Store, zone: Zone, children: seq<Importer.Child>, r: PartRow) returns (o: TableId)
    requires Untracked(p, st) && ListsChildren(p, st.tables, zone, children)
    requires r in Imported(p, st, children).meta && r.parentId == p.id
    ensures IsChild(p, st.tables, zone, o) && r.name == NameAt(o)
    ensures var x := ItemAt(p, st.tables, zone, o); x.verdict.Aligned? && r == Importer.RowFor(p.id, x)
  {
    hide Importer.AbsorbAll, Importer.Items, Importer.RowFor, ListsChildren, ItemAt, Imported, View, NameAt,
      Importer.TenantOf, UniqueNames, Printable, Untracked;
    var items := Importer.Items(children);
    ImportedParts(p, st, children);
    UntrackedParts(p, st);
    AbsorbedRows(View(p, st), p.id, items);
    ItemsOfChildren(p, st, zone, children);
    var x :| x in items && x.verdict.Aligned? && r == Importer.RowFor(p.id, x);
    o :| IsChild(p, st.tables, zone, o) && x == ItemAt(p, st.tables, zone, o);
    ItemName(p, st, zone, o);
    RowNames(p, x);
  }

  /** A row in order that an import added tells that its child is fit. */
  lemma InOrderIsFit(p: Parent, grid: Grid, st: Store, now: Instant, zone: Zone, children: seq<Importer.Child>, id: TableId)
    requires Untracked(p, st) && ListsChildren(p, st.tables, zone, children) && IsChild(p, st.tables, zone, id)
    requires Consistent(p, grid, Imported(p, st, children), now)
    ensures Adoptable(p, grid, st, zone, id)
  {
    hide Importer.RowFor, ListsChildren, ItemAt, Imported, NameAt, IdOf, UniqueNames, Printable, IsPartName, IsPartId,
      Untracked, RowOK, NamesKnown, NamesFree, Clean, TenantsTold, Adoptable;
    var after := Imported(p, st, children);
    ImportedParts(p, st, children);
    var r :| r in after.meta && r.parentId == p.id && r.status == Active && IdOf(r.name) == id;
    var o := ChildOfRow(p, st, zone, children, r);
    RowAtItsTable(p, grid, after, now, r, o);
    RowTellsFit(p, grid, st, after, now, zone, id, r);
  }

  lemma RowNames(p: Parent, x: Importer.Item)
    requires x.verdict.Aligned?
    ensures Importer.RowFor(p.id, x).name == x.fq
  {
  }

  lemma RowAtItsTable(p: Parent, grid: Grid, st: Store, now: Instant, r: PartRow, o: TableId)
    requires Consistent(p, grid, st, now) && r in st.meta && r.parentId == p.id && r.name == NameAt(o)
    ensures IdOf(r.name) == o && RowOK(p, grid, st, r, now) && IsPartName(p, r.name)
  {
    hide RowFits, Placed, UniqueNames, ChildrenKnown, NamesKnown, NamesFree, Clean, TenantsTold, IsPartName, IdOf,
      NameAt, Whole, IsRangeName;
    assert RowOK(p, grid, st, r, now);
    RowSplits(p, grid, TenantsOf(st, p.id), r);
    NamedAt(p, o, r.name);
  }

  lemma RowTellsFit(p: Parent, grid: Grid, st: Store, after: Store, now: Instant, zone: Zone, id: TableId, r: PartRow)
    requires IsChild(p, st.tables, zone, id) && after.tables == st.tables && RowOK(p, grid, after, r, now)
    requires r.parentId == p.id && r.status == Active && r.name == NameAt(id) && IdOf(r.name) == id
    requires ItemAt(p, st.tables, zone, id).verdict.Aligned? && r == Importer.RowFor(p.id, ItemAt(p, st.tables, zone, id))
    ensures Adoptable(p, grid, st, zone, id)
  {
    hide RenderBound, ParseBoundExpr, ParseName, Printable, InWholeHours, Fits, Stem, Suffix, IsWord, IdOf, NameAt;
    var a := st.tables[id];
    if a.Ranged? {
      BuildsTenant(p, r.tenant, r.bounds);
      RenderedBoundReads(TextOf(a.tenant), a.bounds, zone);
    } else {
      DefaultReadsDefault();
    }
  }

  /** A complete import of a parent that nobody has tracked puts its metadata in
      order, if and only if every child is fit, no other table has a partition's
      name, and the tenants are told apart. */
  lemma ImportAdoptsIff(p: Parent, grid: Grid, st: Store, after: Store, now: Instant, zone: Zone,
                        children: seq<Importer.Child>)
    requires Tiling(grid) && Untracked(p, st) && Importer.DistinctFQs(Importer.Items(children))
    requires ImportStep(p, st, after, zone, children, |WritesOf(p, st, children)|)
    ensures Consistent(p, grid, after, now) <==> AllAdoptable(p, grid, st, zone) && TenantsTold(TenantsOf(after, p.id))
  {
    hide Consistent, Adoptable, Imported, Untracked, TenantsTold, WritesOf, Importer.Items, Importer.DistinctFQs, Tiling,
      ListsChildren, WithView, Importer.ApplyAll, Printable;
    CompleteImport(p, st, after, zone, children);
    if Consistent(p, grid, after, now) {
      forall id | IsChild(p, st.tables, zone, id)
        ensures Adoptable(p, grid, st, zone, id)
      {
        InOrderIsFit(p, grid, st, now, zone, children, id);
      }
      NamedAreChildren(p, grid, st, now, zone, children);
    }
    if AllAdoptable(p, grid, st, zone) {
      FitIsInOrder(p, grid, st, now, zone, children);
    }
  }

  lemma NamedAreChildren(p: Parent, grid: Grid, st: Store, now: Instant, zone: Zone, children: seq<Importer.Child>)
    requires Untracked(p, st) && ListsChildren(p, st.tables, zone, children)
    requires Consistent(p, grid, Imported(p, st, children), now)
    ensures TenantsTold(TenantsOf(Imported(p, st, children), p.id))
    ensures forall id :: id in st.tables && IsPartId(p, id) ==> IsBelow(st.tables[id], p.id)
  {
    hide Importer.AbsorbAll, Importer.Items, Importer.RowFor, ListsChildren, ItemAt, Imported, View, NameAt, IdOf,
      Importer.TenantOf, UniqueNames, Printable, IsPartName, IsPartId, Untracked, RowOK, ChildrenKnown, NamesFree,
      Clean, TenantsTold;
    var after := Imported(p, st, children);
    ImportedParts(p, st, children);
    forall id | id in st.tables && IsPartId(p, id)
      ensures IsBelow(st.tables[id], p.id)
    {
      var r :| r in after.meta && r.parentId == p.id && IdOf(r.name) == id;
      var o := ChildOfRow(p, st, zone, children, r);
      RowAtItsTable(p, grid, after, now, r, o);
    }
  }
}
