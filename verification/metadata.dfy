/** The rows of partman.partitions and the rules schema.sql puts on them. */
module Metadata {
  import opened Wrappers
  import opened Calendar
  import opened Periods

  datatype Status = Active | Detached | Dropped

  /** One row.  Names are unique, so a row is known by its name; `tenant` is
      NULL for an untenanted parent and for every default. */
  datatype PartRow = PartRow(name: string, parentId: string, tenant: Option<string>, bounds: Bounds,
                             isDefault: bool, status: Status)

  /** What a hook or a report sees of a partition. */
  datatype PartitionRef = PartitionRef(bounds: Bounds, schema: string, parent: string, tenant: string, isDefault: bool)

  /** The three uniqueness rules: the name; the tenant and range under one
      parent, where NULL tenants never clash; and one default per parent and
      tenant, where they do. */
  predicate Conflicts(a: PartRow, b: PartRow) {
    || a.name == b.name
    || (a.parentId == b.parentId && a.tenant.Some? && a.tenant == b.tenant && a.bounds == b.bounds)
    || (a.parentId == b.parentId && a.isDefault && b.isDefault && a.tenant == b.tenant)
  }

  predicate Blocked(meta: seq<PartRow>, row: PartRow) { exists r :: r in meta && Conflicts(r, row) }

  /** INSERT ... ON CONFLICT DO NOTHING. */
  function InsertOrIgnore(meta: seq<PartRow>, row: PartRow): seq<PartRow> {
    if Blocked(meta, row) then meta else meta + [row]
  }

  /** No two rows have the same key, of those that have one. */
  ghost predicate KeysDiffer<K(!new)>(meta: seq<PartRow>, key: PartRow -> Option<K>) {
    forall i, j :: 0 <= i < j < |meta| && key(meta[i]).Some? ==> key(meta[i]) != key(meta[j])
  }

  /** The schema's unique constraints: the name; the parent, tenant and range,
      unless the tenant is NULL; and of the defaults the parent and tenant, NULL or
      not. */
  ghost predicate Unique(meta: seq<PartRow>) {
    && KeysDiffer(meta, (r: PartRow) => Some(r.name))
    && KeysDiffer(meta, (r: PartRow) => if r.tenant.Some? then Some((r.parentId, r.tenant, r.bounds)) else None)
    && KeysDiffer(meta, (r: PartRow) => if r.isDefault then Some((r.parentId, r.tenant)) else None)
  }

  lemma DifferWith<K(!new)>(meta: seq<PartRow>, row: PartRow, key: PartRow -> Option<K>)
    requires KeysDiffer(meta, key)
    ensures KeysDiffer(meta + [row], key) <==> forall r :: r in meta && key(r).Some? ==> key(r) != key(row)
  {
    var more := meta + [row];
    if KeysDiffer(more, key) {
      forall r | r in meta && key(r).Some?
        ensures key(r) != key(row)
      {
        var i :| 0 <= i < |meta| && meta[i] == r;
        assert more[i] == r && more[|meta|] == row;
      }
    }
  }

  /** A row is inserted exactly when the constraints allow it. */
  lemma InsertIffUnique(meta: seq<PartRow>, row: PartRow)
    requires Unique(meta)
    ensures InsertOrIgnore(meta, row) == if Unique(meta + [row]) then meta + [row] else meta
  {
    hide KeysDiffer;
    DifferWith(meta, row, (r: PartRow) => Some(r.name));
    DifferWith(meta, row, (r: PartRow) => if r.tenant.Some? then Some((r.parentId, r.tenant, r.bounds)) else None);
    DifferWith(meta, row, (r: PartRow) => if r.isDefault then Some((r.parentId, r.tenant)) else None);
  }

  /** The rows of one parent, in storage order. */
  function RowsOf(meta: seq<PartRow>, parentId: string): seq<PartRow> {
    Filter(meta, (r: PartRow) => r.parentId == parentId)
  }

  function Filter<T(!new)>(s: seq<T>, keep: T -> bool): (r: seq<T>)
    ensures forall x :: x in r <==> x in s && keep(x)
  {
    if s == [] then []
    else if keep(s[0]) then [s[0]] + Filter(s[1..], keep)
    else Filter(s[1..], keep)
  }

  lemma {:induction false} FilterConcat<T(!new)>(a: seq<T>, b: seq<T>, keep: T -> bool)
    ensures Filter(a + b, keep) == Filter(a, keep) + Filter(b, keep)
  {
    if a == [] {
      assert a + b == b;
    } else {
      assert (a + b)[0] == a[0] && (a + b)[1..] == a[1..] + b;
      FilterConcat(a[1..], b, keep);
    }
  }

  lemma {:induction false} FilterCounts<T(!new)>(s: seq<T>, keep: T -> bool, x: T)
    ensures multiset(Filter(s, keep))[x] == if keep(x) then multiset(s)[x] else 0
  {
    if s != [] {
      assert s == [s[0]] + s[1..];
      FilterCounts(s[1..], keep, x);
    }
  }

  lemma {:induction false} FilterNone<T(!new)>(s: seq<T>, keep: T -> bool)
    requires forall x :: x in s ==> !keep(x)
    ensures Filter(s, keep) == []
  {
    if s != [] {
      FilterNone(s[1..], keep);
    }
  }

  predicate Distinct<T(==)>(s: seq<T>) { forall i, j :: 0 <= i < j < |s| ==> s[i] != s[j] }

  lemma {:induction false} FilterDistinct<T(!new)>(s: seq<T>, keep: T -> bool)
    requires Distinct(s)
    ensures Distinct(Filter(s, keep))
  {
    if s != [] {
      assert forall x :: x in s[1..] ==> x != s[0];
      FilterDistinct(s[1..], keep);
    }
  }

  /** Keeping the elements with a property forgets their order only. */
  lemma FilterPermutes<T(!new)>(a: seq<T>, b: seq<T>, keep: T -> bool)
    requires multiset(a) == multiset(b)
    ensures multiset(Filter(a, keep)) == multiset(Filter(b, keep))
  {
    forall x ensures multiset(Filter(a, keep))[x] == multiset(Filter(b, keep))[x] {
      FilterCounts(a, keep, x);
      FilterCounts(b, keep, x);
    }
  }

  /** The result of a query with ORDER BY partition_bounds_from: some order of
      the selected rows that is sorted by that column. */
  ghost predicate Lists(selected: seq<PartRow>, rows: seq<PartRow>) {
    && multiset(rows) == multiset(selected)
    && forall i, j :: 0 <= i < j < |rows| ==> rows[i].bounds.from <= rows[j].bounds.from
  }

  predicate Ascending(rows: seq<PartRow>) {
    forall i, j :: 0 <= i < j < |rows| ==> rows[i].bounds.from <= rows[j].bounds.from
  }

  predicate AllBefore(rows: seq<PartRow>, rest: seq<PartRow>) {
    forall x, y :: x in rows && y in rest ==> x.bounds.from <= y.bounds.from
  }

  /** Moving the first row of those left to the rows sorted. */
  lemma MoveRow(rows: seq<PartRow>, rest: seq<PartRow>, k: nat)
    requires k < |rest| && Ascending(rows) && AllBefore(rows, rest)
    requires forall x :: x in rest ==> rest[k].bounds.from <= x.bounds.from
    ensures var left := rest[..k] + rest[k + 1..];
      && multiset(rows + [rest[k]] + left) == multiset(rows + rest)
      && Ascending(rows + [rest[k]]) && AllBefore(rows + [rest[k]], left)
  {
    var left := rest[..k] + rest[k + 1..];
    assert rest == rest[..k] + [rest[k]] + rest[k + 1..];
    assert forall x :: x in left ==> x in rest;
    assert forall i :: 0 <= i < |rows| ==> rows[i] in rows && rest[k] in rest;
  }

  /** Answers an ORDER BY query, ties in any order. */
  method OrderByFrom(selected: seq<PartRow>) returns (rows: seq<PartRow>)
    ensures Lists(selected, rows)
  {
    hide AllBefore;
    rows := [];
    var rest := selected;
    assert rows + rest == selected;
    assert AllBefore(rows, rest) by { NoneBefore(rest); }
    while rest != []
      invariant multiset(rows + rest) == multiset(selected)
      invariant Ascending(rows) && AllBefore(rows, rest)
      decreases |rest|
    {
      hide Ascending;
      var k := LeastFrom(rest);
      MoveRow(rows, rest, k);
      rows, rest := rows + [rest[k]], rest[..k] + rest[k + 1..];
    }
    assert rows + rest == rows;
  }

  lemma NoneBefore(rest: seq<PartRow>)
    ensures AllBefore([], rest)
  {
  }

  /** The first row with the least start. */
  method LeastFrom(rows: seq<PartRow>) returns (k: nat)
    requires rows != []
    ensures k < |rows| && forall x :: x in rows ==> rows[k].bounds.from <= x.bounds.from
  {
    k := 0;
    for i := 1 to |rows|
      invariant k < |rows|
      invariant forall j :: 0 <= j < i ==> rows[k].bounds.from <= rows[j].bounds.from
    {
      if rows[i].bounds.from < rows[k].bounds.from {
        k := i;
      }
    }
  }
}
