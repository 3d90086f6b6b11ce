/** Importing a parent that is maintained: its children are all tracked, so only
    tenants are written, and those may be the wrong ones. */
module Reimport {
  import opened Wrappers
  import opened Calendar
  import opened Periods
  import opened Text
  import opened Naming
  import opened BoundText
  import opened Metadata
  import opened Catalog
  import opened Provisioner
  import opened Consistency
  import Importer

  /** A partition as the system catalog lists it to a session in some time
      zone. */
  function ChildAt(id: TableId, a: Attachment, zone: Zone): Importer.Child
    requires a != Loose && (a.Ranged? ==> Printable(a.bounds, zone))
  {
    Importer.Child(id.schema, id.table, if a.DefaultPart? then "DEFAULT" else RenderBound(TextOf(a.tenant), a.bounds, zone))
  }

  /** A table is below the parent, with a bound that can be printed. */
  predicate IsChild(p: Parent, tables: map<TableId, Attachment>, zone: Zone, id: TableId) {
    id in tables && IsBelow(tables[id], p.id) && (tables[id].Ranged? ==> Printable(tables[id].bounds, zone))
  }

  /** The parent's children, in any order. */
  ghost predicate ListsChildren(p: Parent, tables: map<TableId, Attachment>, zone: Zone, children: seq<Importer.Child>) {
    && (forall id :: id in tables && IsBelow(tables[id], p.id) ==>
          IsChild(p, tables, zone, id) && ChildAt(id, tables[id], zone) in children)
    && (forall c :: c in children ==> exists id :: IsChild(p, tables, zone, id) && c == ChildAt(id, tables[id], zone))
  }

  /** What an import reads and writes of the store. */
  function View(p: Parent, st: Store): Importer.Store { Importer.Store(st.meta, TenantsOf(st, p.id)) }

  function WithView(p: Parent, st: Store, v: Importer.Store): Store {
    st.(meta := v.meta, tenants := st.tenants[p.id := v.tenants])
  }

  function WritesOf(p: Parent, st: Store, children: seq<Importer.Child>): seq<Importer.Write> {
    Importer.ImportWrites(View(p, st), p.id, Importer.Items(children))
  }

  /** An import, complete or stopped after some of its writes. */
  ghost predicate ImportStep(p: Parent, st: Store, after: Store, zone: Zone, children: seq<Importer.Child>, n: nat) {
    && ListsChildren(p, st.tables, zone, children) && n <= |WritesOf(p, st, children)|
    && after == WithView(p, st, Importer.ApplyAll(View(p, st), WritesOf(p, st, children)[..n]))
  }

  /** No aligned child has a tenant that is not in upper case. */
  ghost predicate UpperTenants(p: Parent, st: Store, zone: Zone) {
    forall id :: IsChild(p, st.tables, zone, id) && st.tables[id].Ranged? && st.tables[id].tenant.Some?
                 && Importer.Classify(ChildAt(id, st.tables[id], zone)).Aligned? ==>
      ToUpper(st.tables[id].tenant.value) == st.tables[id].tenant.value
  }

  function ItemOf(c: Importer.Child): Importer.Item { Importer.Item(c.FQ(), Importer.Classify(c)) }

  function ItemAt(p: Parent, tables: map<TableId, Attachment>, zone: Zone, id: TableId): Importer.Item
    requires IsChild(p, tables, zone, id)
  {
    ItemOf(ChildAt(id, tables[id], zone))
  }

  /** The row of a child. */
  lemma ChildHasRow(p: Parent, grid: Grid, st: Store, now: Instant, id: TableId) returns (r: PartRow)
    requires Consistent(p, grid, st, now) && id in st.tables && IsBelow(st.tables[id], p.id)
    ensures r in st.meta && r.parentId == p.id && RowOK(p, grid, st, r, now)
    ensures r.name == id.schema + "." + id.table && st.tables[id] == AttachmentOf(p, r)
  {
    hide RowFits, IsPartName, NamesKnown, NamesFree, TenantsTold, UniqueNames, Clip;
    r :| r in st.meta && r.parentId == p.id && r.status == Active && IdOf(r.name) == id;
    assert RowOK(p, grid, st, r, now);
    RowSplits(p, grid, TenantsOf(st, p.id), r);
    NameJoins(r.name);
  }

  lemma NameJoins(name: string)
    requires Whole(name)
    ensures name == IdOf(name).schema + "." + IdOf(name).table
  {
    hide Clip;
    var i := Index(name, '.');
    assert name == name[..i] + "." + name[i + 1..];
  }

  /** The tenant an import registers for a child is its tenant in upper case. */
  lemma ChildTenant(p: Parent, grid: Grid, st: Store, now: Instant, zone: Zone, id: TableId)
    requires Consistent(p, grid, st, now) && IsChild(p, st.tables, zone, id)
    ensures var a, x := st.tables[id], ItemAt(p, st.tables, zone, id);
      && x.fq in Importer.NamesOf(st.meta, p.id)
      && (a.Ranged? && a.tenant.Some? ==> a.tenant.value in TenantsOf(st, p.id) && a.tenant.value != "")
      && Importer.TenantOf(x) == if x.verdict.Aligned? && a.Ranged? && a.tenant.Some? then {ToUpper(a.tenant.value)} else {}
  {
    hide Placed, RenderBound, ParseBoundExpr, ParseName, ChildrenKnown, NamesKnown, NamesFree, UniqueNames, IsWord, Stem,
      Suffix, Printable, InWholeHours, Fits;
    var r := ChildHasRow(p, grid, st, now, id);
    var a := st.tables[id];
    if a.Ranged? {
      RenderedBoundReads(TextOf(a.tenant), a.bounds, zone) by { BuildsTenant(p, r.tenant, r.bounds); }
      assert ToUpper("") == "";
    } else {
      DefaultReads();
    }
  }

  lemma BuildsTenant(p: Parent, tenant: Option<string>, b: Bounds)
    requires PartName(p, TextOf(tenant), b, false).Ok?
    ensures TextOf(tenant) == "" || IsWord(TextOf(tenant))
  {
    hide IsWord, Stem, Suffix;
  }

  lemma DefaultReads()
    ensures ParseBoundExpr("DEFAULT").Ok? ==> ParseBoundExpr("DEFAULT").value.tenant == ""
  {
    assert TrimLeft("DEFAULT") == "DEFAULT" && TrimRight("DEFAULT") == "DEFAULT";
  }

  /** With every child tracked, an import has only tenants to write. */
  lemma {:induction false} OnlyTenants(parentId: string, items: seq<Importer.Item>, existing: set<string>,
                                       known: set<string>)
    requires forall x :: x in items ==> x.fq in existing
    ensures var ws := Importer.Writes(parentId, items, existing, known);
      && (forall w :: w in ws ==> w.AddTenant? && exists x :: x in items && Importer.TenantOf(x) == {w.id})
      && forall x :: x in items ==> Importer.TenantOf(x) <= known + Ids(ws)
    decreases |items|
  {
    hide Importer.TenantOf;
    if items != [] {
      var x := items[0];
      var own := Importer.WritesFor(parentId, x, existing, known);
      var later := Importer.Writes(parentId, items[1..], existing, known + Importer.TenantOf(x));
      OnlyTenants(parentId, items[1..], existing, known + Importer.TenantOf(x));
      OwnTenant(parentId, x, existing, known);
      IdsJoin(own, later);
      forall y | y in items
        ensures Importer.TenantOf(y) <= known + Ids(own + later)
      {
        assert y == x || y in items[1..];
      }
    }
  }

  function Ids(ws: seq<Importer.Write>): set<string> { set w | w in ws && w.AddTenant? :: w.id }

  lemma IdsJoin(a: seq<Importer.Write>, b: seq<Importer.Write>)
    ensures Ids(a + b) == Ids(a) + Ids(b)
  {
    assert forall w :: w in a + b <==> w in a || w in b;
  }

  lemma OwnTenant(parentId: string, x: Importer.Item, existing: set<string>, known: set<string>)
    requires x.fq in existing
    ensures var ws := Importer.WritesFor(parentId, x, existing, known);
      && (forall w :: w in ws ==> w.AddTenant? && Importer.TenantOf(x) == {w.id})
      && Importer.TenantOf(x) <= known + Ids(ws)
  {
    var ws := Importer.WritesFor(parentId, x, existing, known);
    if !(Importer.TenantOf(x) <= known) {
      assert ws == [Importer.AddTenant(x.verdict.bound.tenant)];
      assert ws[0] in ws;
    }
  }

  lemma {:induction false} TenantsApplied(v: Importer.Store, ws: seq<Importer.Write>)
    requires forall w :: w in ws ==> w.AddTenant?
    ensures Importer.ApplyAll(v, ws) == v.(tenants := v.tenants + Ids(ws))
    decreases |ws|
  {
    if ws == [] {
      assert v.tenants + Ids(ws) == v.tenants;
    } else {
      TenantsApplied(Importer.Apply(v, ws[0]), ws[1..]);
      assert ws == [ws[0]] + ws[1..];
      IdsJoin([ws[0]], ws[1..]);
      assert Ids([ws[0]]) == {ws[0].id} by { assert ws[0] in [ws[0]]; }
      assert v.tenants + {ws[0].id} + Ids(ws[1..]) == v.tenants + Ids(ws);
    }
  }

  /** Some of the upper-cased tenants of the aligned children are added, after a
      complete import all of them; nothing else changes. */
  lemma ImportAdds(p: Parent, grid: Grid, st: Store, after: Store, now: Instant, zone: Zone,
                   children: seq<Importer.Child>, n: nat)
    requires Consistent(p, grid, st, now) && ImportStep(p, st, after, zone, children, n)
    ensures after.meta == st.meta && after.tables == st.tables && after.waiting == st.waiting
    ensures forall q :: q != p.id ==> TenantsOf(after, q) == TenantsOf(st, q)
    ensures TenantsOf(st, p.id) <= TenantsOf(after, p.id)
    ensures forall t :: t in TenantsOf(after, p.id) && t !in TenantsOf(st, p.id) ==>
      exists id :: IsChild(p, st.tables, zone, id) && Importer.TenantOf(ItemAt(p, st.tables, zone, id)) == {t}
    ensures n == |WritesOf(p, st, children)| ==> forall id :: IsChild(p, st.tables, zone, id) ==>
      Importer.TenantOf(ItemAt(p, st.tables, zone, id)) <= TenantsOf(after, p.id)
  {
    hide Consistent, Importer.Writes, Importer.TenantOf, ChildAt, Printable, Importer.ApplyAll, Importer.Classify;
    var items, ws := Importer.Items(children), WritesOf(p, st, children);
    ItemsTracked(p, grid, st, now, zone, children);
    OnlyTenants(p.id, items, Importer.NamesOf(st.meta, p.id), TenantsOf(st, p.id));
    TenantsApplied(View(p, st), ws[..n]);
    if n == |ws| {
      assert ws[..n] == ws;
    }
  }

  /** The items of an import are those of the children, all of them tracked. */
  lemma ItemsTracked(p: Parent, grid: Grid, st: Store, now: Instant, zone: Zone, children: seq<Importer.Child>)
    requires Consistent(p, grid, st, now) && ListsChildren(p, st.tables, zone, children)
    ensures forall x :: x in Importer.Items(children) ==>
      && x.fq in Importer.NamesOf(st.meta, p.id)
      && exists id :: IsChild(p, st.tables, zone, id) && x == ItemAt(p, st.tables, zone, id)
    ensures forall id :: IsChild(p, st.tables, zone, id) ==> ItemAt(p, st.tables, zone, id) in Importer.Items(children)
  {
    hide Consistent, Importer.TenantOf, ChildAt, Printable, Importer.Classify, Importer.NamesOf;
    var items := Importer.Items(children);
    forall x | x in items
      ensures x.fq in Importer.NamesOf(st.meta, p.id)
      ensures exists id :: IsChild(p, st.tables, zone, id) && x == ItemAt(p, st.tables, zone, id)
    {
      var i :| 0 <= i < |items| && items[i] == x;
      assert children[i] in children;
      var id :| IsChild(p, st.tables, zone, id) && children[i] == ChildAt(id, st.tables[id], zone);
      ChildTenant(p, grid, st, now, zone, id);
      assert x == ItemAt(p, st.tables, zone, id);
    }
    forall id | IsChild(p, st.tables, zone, id)
      ensures ItemAt(p, st.tables, zone, id) in items
    {
      BelowListed(p, st.tables, zone, children, id);
      var i :| 0 <= i < |children| && children[i] == ChildAt(id, st.tables[id], zone);
      assert items[i] in items;
    }
  }

  lemma BelowListed(p: Parent, tables: map<TableId, Attachment>, zone: Zone, children: seq<Importer.Child>, id: TableId)
    requires ListsChildren(p, tables, zone, children) && IsChild(p, tables, zone, id)
    ensures ChildAt(id, tables[id], zone) in children
  {
    hide ChildAt, Printable;
  }

  /** More tenants, told apart, leave everything else as it was. */
  lemma MoreTenants(p: Parent, grid: Grid, st: Store, after: Store, now: Instant)
    requires Consistent(p, grid, st, now)
    requires after.meta == st.meta && after.tables == st.tables && after.waiting == st.waiting
    requires TenantsOf(st, p.id) <= TenantsOf(after, p.id)
    ensures Consistent(p, grid, after, now) <==> TenantsTold(TenantsOf(after, p.id))
  {
    hide Placed, PartName, Fits, UniqueNames, ChildrenKnown, NamesKnown, NamesFree, TenantsTold;
    hide Clean;
    ChildrenStayKnown(p, st, after);
    forall r | r in after.meta && r.parentId == p.id
      ensures RowOK(p, grid, after, r, now)
    {
      assert RowOK(p, grid, st, r, now);
    }
  }

  lemma ChildrenStayKnown(p: Parent, st: Store, after: Store)
    requires after.meta == st.meta && after.tables == st.tables && after.waiting == st.waiting
    ensures Clean(p, st) <==> Clean(p, after)
    ensures ChildrenKnown(p, st) <==> ChildrenKnown(p, after)
    ensures NamesKnown(p, st) <==> NamesKnown(p, after)
    ensures NamesFree(p, st) <==> NamesFree(p, after)
  {
    hide IsPartId, IsPartName, IdOf, Takes;
  }

  /** A complete import keeps a maintained parent in order if and only if every
      aligned child's tenant is in upper case already; otherwise it registers a
      second spelling of a tenant. */
  lemma ImportKeepsIff(p: Parent, grid: Grid, st: Store, after: Store, now: Instant, zone: Zone,
                       children: seq<Importer.Child>)
    requires Consistent(p, grid, st, now) && ImportStep(p, st, after, zone, children, |WritesOf(p, st, children)|)
    ensures Consistent(p, grid, after, now) <==> UpperTenants(p, st, zone)
    ensures after.meta == st.meta && after.tables == st.tables && after.waiting == st.waiting
  {
    hide Consistent, Importer.TenantOf, ChildAt, Printable, Importer.Classify, WritesOf, ImportStep, TenantsTold;
    ImportAdds(p, grid, st, after, now, zone, children, |WritesOf(p, st, children)|);
    MoreTenants(p, grid, st, after, now);
    if UpperTenants(p, st, zone) {
      NothingNew(p, grid, st, after, now, zone);
    } else {
      var id := LowerTenant(p, st, zone);
      ChildTenant(p, grid, st, now, zone, id);
      SecondSpelling(TenantsOf(after, p.id), st.tables[id].tenant.value);
    }
  }

  lemma LowerTenant(p: Parent, st: Store, zone: Zone) returns (id: TableId)
    requires !UpperTenants(p, st, zone)
    ensures IsChild(p, st.tables, zone, id) && st.tables[id].Ranged? && st.tables[id].tenant.Some?
    ensures Importer.Classify(ChildAt(id, st.tables[id], zone)).Aligned?
    ensures ToUpper(st.tables[id].tenant.value) != st.tables[id].tenant.value
  {
    hide ChildAt, Importer.Classify, ToUpper, Printable;
    id :| IsChild(p, st.tables, zone, id) && st.tables[id].Ranged? && st.tables[id].tenant.Some?
          && Importer.Classify(ChildAt(id, st.tables[id], zone)).Aligned?
          && ToUpper(st.tables[id].tenant.value) != st.tables[id].tenant.value;
  }

  lemma SecondSpelling(tenants: set<string>, t: string)
    requires t in tenants && ToUpper(t) in tenants && ToUpper(t) != t
    ensures !TenantsTold(tenants)
  {
    assert ToUpper(ToUpper(t)) == ToUpper(t);
  }

  lemma NothingNew(p: Parent, grid: Grid, st: Store, after: Store, now: Instant, zone: Zone)
    requires Consistent(p, grid, st, now) && UpperTenants(p, st, zone) && TenantsOf(st, p.id) <= TenantsOf(after, p.id)
    requires forall t :: t in TenantsOf(after, p.id) && t !in TenantsOf(st, p.id) ==>
      exists id :: IsChild(p, st.tables, zone, id) && Importer.TenantOf(ItemAt(p, st.tables, zone, id)) == {t}
    ensures TenantsOf(after, p.id) == TenantsOf(st, p.id) && TenantsTold(TenantsOf(after, p.id))
  {
    hide ChildAt, Printable, Importer.TenantOf, Importer.Classify, RowOK, ChildrenKnown, NamesKnown, NamesFree, UniqueNames,
      TenantsTold, ToUpper;
    forall id | IsChild(p, st.tables, zone, id)
      ensures Importer.TenantOf(ItemAt(p, st.tables, zone, id)) <= TenantsOf(st, p.id)
    {
      ChildTenant(p, grid, st, now, zone, id);
    }
    assert forall t, id :: IsChild(p, st.tables, zone, id) && Importer.TenantOf(ItemAt(p, st.tables, zone, id)) == {t} ==>
      t in TenantsOf(st, p.id);
  }

  /** Then an import that stops anywhere keeps it too. */
  lemma ImportKeeps(p: Parent, grid: Grid, st: Store, after: Store, now: Instant, zone: Zone,
                    children: seq<Importer.Child>, n: nat)
    requires Consistent(p, grid, st, now) && ImportStep(p, st, after, zone, children, n) && UpperTenants(p, st, zone)
    ensures Consistent(p, grid, after, now) && Within(p, st, after)
    ensures after.meta == st.meta && after.tables == st.tables && after.waiting == st.waiting
  {
    hide Consistent, ChildAt, Printable, WritesOf, ImportStep, TenantsTold, UpperTenants, Owns, Importer.TenantOf,
      Importer.Classify;
    ImportAdds(p, grid, st, after, now, zone, children, n);
    NothingNew(p, grid, st, after, now, zone);
    MoreTenants(p, grid, st, after, now);
  }
}
