/** The state maintenance works on: the metadata, the tables and the registered
    tenants of a database, and the statements that change them. */
module Catalog {
  import opened Wrappers
  import opened Calendar
  import opened Periods
  import opened Text
  import opened Naming
  import opened Metadata

  datatype TableId = TableId(schema: string, table: string)

  /** The parent a table hangs below, by its id, and where; `Loose` is below
      none. */
  datatype Attachment =
    | Loose
    | Ranged(parentId: string, tenant: Option<string>, bounds: Bounds)
    | DefaultPart(parentId: string)

  predicate IsBelow(a: Attachment, parentId: string) { a != Loose && a.parentId == parentId }

  /** What routes a row: its tenant, and its control value if that is finite. */
  datatype Slot = Slot(tenant: Option<string>, at: Instant)

  /** Metadata, tables, the tenants registered for each parent, and what the rows
      in each parent's default would be routed by. */
  datatype Store = Store(meta: seq<PartRow>, tables: map<TableId, Attachment>, tenants: map<string, set<string>>,
                         waiting: map<string, set<Slot>>)

  function TenantsOf(st: Store, parentId: string): set<string> {
    if parentId in st.tenants then st.tenants[parentId] else {}
  }

  function WaitingOf(st: Store, parentId: string): set<Slot> {
    if parentId in st.waiting then st.waiting[parentId] else {}
  }

  type Int32 = x: int | -0x8000_0000 <= x < 0x8000_0000

  type Int64 = x: int | -0x8000_0000_0000_0000 <= x < 0x8000_0000_0000_0000

  /** A retention period, by component. */
  datatype Interval = Interval(months: Int32, days: Int32, micros: Int64)

  /** The parent's row. */
  datatype Parent = Parent(id: string, schema: string, table: string, tenanted: bool, interval: string, premake: int,
                           retention: Option<Interval>, archiveSchema: Option<string>)

  /** An archive schema is given. */
  predicate HasArchive(p: Parent) { p.archiveSchema.Some? && p.archiveSchema.value != "" }

  function TextOf(tenant: Option<string>): string { if tenant.Some? then tenant.value else "" }

  /** The components of a partition's name. */
  function PartOf(p: Parent, tenant: string, b: Bounds, isDefault: bool): TableName {
    TableName(p.schema, p.table, tenant, b, isDefault)
  }

  /** The name of a partition of the parent. */
  function PartName(p: Parent, tenant: string, b: Bounds, isDefault: bool): Result<string, NameError> {
    BuildName(PartOf(p, tenant, b, isDefault))
  }

  function SplitFQ(fq: string): Option<TableId> {
    var dot := Index(fq, '.');
    if dot < 0 then None else Some(TableId(fq[..dot], fq[dot + 1..]))
  }

  /* ----- statements ----- */

  /** The table a statement means by an identifier: the server clips both parts,
      without an error. */
  function Named(id: TableId): TableId { TableId(Clip(id.schema), Clip(id.table)) }

  /** Two partitions the server does not allow side by side. */
  predicate Clash(a: Attachment, b: Attachment) {
    && a != Loose && b != Loose && a.parentId == b.parentId
    && ((a.DefaultPart? && b.DefaultPart?)
        || (a.Ranged? && b.Ranged? && a.tenant == b.tenant && !Disjoint(a.bounds, b.bounds)))
  }

  /** The bound has the columns of the partition key, and is not empty. */
  predicate FitsKey(p: Parent, part: Attachment) {
    part.Ranged? ==> (part.tenant.Some? <==> p.tenanted) && part.bounds.from < part.bounds.to
  }

  /** A row that belongs into a partition. */
  predicate Takes(a: Attachment, s: Slot) { a.Ranged? && a.tenant == s.tenant && a.bounds.Contains(s.at) }

  predicate DefaultAttached(tables: map<TableId, Attachment>, parentId: string) {
    exists o :: o in tables && tables[o] == DefaultPart(parentId)
  }

  /** The attached default holds a row that belongs into the partition. */
  predicate DefaultHolds(st: Store, parentId: string, part: Attachment) {
    DefaultAttached(st.tables, parentId) && exists s :: s in WaitingOf(st, parentId) && Takes(part, s)
  }

  /** CREATE TABLE IF NOT EXISTS ... PARTITION OF: nothing when the name is
      taken, by whatever table; None when the server refuses. */
  function CreatePartitionOf(p: Parent, st: Store, id: TableId, part: Attachment): Option<Store> {
    if Named(id) in st.tables then Some(st)
    else if !FitsKey(p, part) || (exists o :: o in st.tables && Clash(st.tables[o], part)) then None
    else if DefaultHolds(st, p.id, part) then None
    else Some(st.(tables := st.tables[Named(id) := part],
                  waiting := if part.DefaultPart? then st.waiting[p.id := {}] else st.waiting))
  }

  /** Two ranges that are not empty overlap exactly when they have an instant in
      common. */
  lemma OverlapIff(a: Bounds, b: Bounds)
    requires a.from < a.to && b.from < b.to
    ensures !Disjoint(a, b) <==> exists t :: a.Contains(t) && b.Contains(t)
  {
    if !Disjoint(a, b) {
      var t := if a.from <= b.from then b.from else a.from;
      assert a.Contains(t) && b.Contains(t);
    }
  }

  /** What the server asks of a new partition: a tenant if and only if the parent
      has that column, a range that is not empty, no sibling of its tenant with an
      instant in common, no second default, and no row of its range and tenant in
      the attached default. */
  lemma CreateRefusedIff(p: Parent, st: Store, id: TableId, part: Attachment)
    requires part.Ranged? || part.DefaultPart?
    requires forall o :: o in st.tables && st.tables[o].Ranged? ==> st.tables[o].bounds.from < st.tables[o].bounds.to
    ensures CreatePartitionOf(p, st, id, part).None? <==>
      && TableId(Clip(id.schema), Clip(id.table)) !in st.tables
      && match part
         case DefaultPart(parentId) => exists o :: o in st.tables && st.tables[o] == DefaultPart(parentId)
         case Ranged(parentId, tenant, b) =>
           || tenant.Some? != p.tenanted || b.to <= b.from
           || (exists o, t :: o in st.tables && st.tables[o].Ranged? && st.tables[o].parentId == parentId
                              && st.tables[o].tenant == tenant && b.Contains(t) && st.tables[o].bounds.Contains(t))
           || ((exists o :: o in st.tables && st.tables[o] == DefaultPart(p.id))
               && exists s :: s in WaitingOf(st, p.id) && s.tenant == tenant && b.from <= s.at < b.to)
  {
    hide Clip;
    if part.Ranged? && part.bounds.from < part.bounds.to {
      forall o | o in st.tables && st.tables[o].Ranged?
        ensures !Disjoint(st.tables[o].bounds, part.bounds)
          <==> exists t :: st.tables[o].bounds.Contains(t) && part.bounds.Contains(t)
      {
        OverlapIff(st.tables[o].bounds, part.bounds);
      }
    }
  }

  /** INSERT ... ON CONFLICT DO NOTHING, behind the trigger that checks the
      tenant. */
  function UpsertPartition(st: Store, row: PartRow): Option<seq<PartRow>> {
    if row.tenant.Some? && row.tenant.value !in TenantsOf(st, row.parentId) then None
    else Some(InsertOrIgnore(st.meta, row))
  }

  /** DROP TABLE ... CASCADE. */
  function DropTable(tables: map<TableId, Attachment>, id: TableId): Option<map<TableId, Attachment>> {
    if Named(id) in tables then Some(tables - {Named(id)}) else None
  }

  /** ALTER TABLE ... DETACH PARTITION. */
  function DetachPartition(p: Parent, tables: map<TableId, Attachment>, id: TableId): Option<map<TableId, Attachment>> {
    if Named(id) in tables && IsBelow(tables[Named(id)], p.id) then Some(tables[Named(id) := Loose]) else None
  }

  /** ALTER TABLE ... SET SCHEMA. */
  function SetSchema(tables: map<TableId, Attachment>, id: TableId, schema: string): Option<map<TableId, Attachment>> {
    var source, target := Named(id), TableId(Clip(schema), Clip(id.table));
    if source !in tables then None
    else if target == source then Some(tables)
    else if target in tables then None
    else Some((tables - {source})[target := tables[source]])
  }

  function Marked(r: PartRow, name: string, status: Status): PartRow {
    if r.name == name then r.(status := status) else r
  }

  /** UPDATE ... SET status, for the row of that name. */
  function MarkPartition(meta: seq<PartRow>, name: string, status: Status): (r: seq<PartRow>)
    ensures |r| == |meta| && forall i :: 0 <= i < |meta| ==> r[i] == Marked(meta[i], name, status)
  {
    seq(|meta|, i requires 0 <= i < |meta| => Marked(meta[i], name, status))
  }

  /** The database, as far as maintenance sees it. */
  class Database {
    var meta: seq<PartRow>
    var tables: map<TableId, Attachment>
    var tenants: map<string, set<string>>
    var waiting: map<string, set<Slot>>

    constructor (st: Store)
      ensures Stored() == st
    {
      meta, tables, tenants, waiting := st.meta, st.tables, st.tenants, st.waiting;
    }

    function Stored(): Store
      reads this
    {
      Store(meta, tables, tenants, waiting)
    }

    /** Commits a transaction. */
    method Commit(st: Store)
      modifies this
      ensures Stored() == st
    {
      meta, tables, tenants, waiting := st.meta, st.tables, st.tenants, st.waiting;
    }
  }
}
