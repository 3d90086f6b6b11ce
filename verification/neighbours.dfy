/** Which parents can have a table in common. */
module Neighbours {
  import opened Wrappers
  import opened Calendar
  import opened Periods
  import opened Text
  import opened Naming
  import opened Metadata
  import opened Catalog
  import opened Provisioner
  import opened Consistency

  /** Names of partitions can be built, and the server keeps the schema's. */
  predicate Nameable(p: Parent) { IsWord(p.schema) && IsWord(p.table) && |p.schema| <= NAME_LIMIT }

  /** The schemas the partitions of a parent's windows live in. */
  function RangeSchemas(p: Parent): set<string> { {p.schema} + if HasArchive(p) then {Clip(p.archiveSchema.value)} else {} }

  predicate IsDefaultTable(p: Parent, table: string) { table == p.table + "_default" && |table| <= NAME_LIMIT }

  ghost predicate IsRangeTable(p: Parent, table: string) {
    exists tenant, t :: IsTableOf(p, table, tenant, t)
  }

  /** The table of a window that starts on the day of `t`. */
  predicate IsTableOf(p: Parent, table: string, tenant: Option<string>, t: Instant) {
    && TenantShape(p, tenant) && (tenant.Some? ==> IsWord(tenant.value))
    && table == Stem(p.table, TextOf(tenant)) + "_" + FormatDate(t) && |table| <= NAME_LIMIT
  }

  /* ----- what a parent owns ----- */

  lemma BuiltWhen(p: Parent, tenant: Option<string>, b: Bounds)
    requires TenantShape(p, tenant)
    ensures PartName(p, TextOf(tenant), b, false).Ok? && NameFits(p, tenant, b)
      <==> Nameable(p) && IsTableOf(p, TableOf(PartOf(p, TextOf(tenant), b, false)), tenant, b.from)
    ensures PartName(p, "", ZERO_BOUNDS, true).Ok? && DefaultFits(p)
      <==> Nameable(p) && IsDefaultTable(p, p.table + "_default")
  {
    hide FormatDate, IsWord, Stem;
    assert Stem(p.table, "") == p.table by { NoTenant(p.table); }
    assert tenant.Some? ==> TextOf(tenant) != "";
  }

  lemma NoTenant(table: string)
    ensures Stem(table, "") == table
  {
  }

  lemma RangeIdIff(p: Parent, id: TableId)
    ensures IsRangeId(p, id) <==> Nameable(p) && id.schema == p.schema && IsRangeTable(p, id.table)
  {
    hide PartName, NameFits, IdOf, Whole, Stem, FormatDate, IsWord, TenantShape, Nameable, IsTableOf;
    if IsRangeId(p, id) {
      var name :| IsRangeName(p, name) && IdOf(name) == id;
      var tenant, b :| TenantShape(p, tenant) && PartName(p, TextOf(tenant), b, false) == Ok(name) && NameFits(p, tenant, b);
      BuiltWhen(p, tenant, b);
      PartNameSplits(p, TextOf(tenant), b, false) by { hide *; FitsIs(p, tenant, b); }
      FitsIs(p, tenant, b);
    }
    if Nameable(p) && id.schema == p.schema && IsRangeTable(p, id.table) {
      var tenant, t :| IsTableOf(p, id.table, tenant, t);
      var b := Bounds(t, t);
      DatedTable(p, id.table, tenant, t);
      BuiltWhen(p, tenant, b);
      PartNameSplits(p, TextOf(tenant), b, false);
      FitsIs(p, tenant, b);
      assert IsRangeName(p, PartName(p, TextOf(tenant), b, false).value);
    }
  }

  lemma FitsIs(p: Parent, tenant: Option<string>, b: Bounds)
    ensures NameFits(p, tenant, b) == Fits(PartOf(p, TextOf(tenant), b, false))
  {
    hide Fits;
  }

  lemma DatedTable(p: Parent, table: string, tenant: Option<string>, t: Instant)
    requires IsTableOf(p, table, tenant, t)
    ensures TenantShape(p, tenant) && table == TableOf(PartOf(p, TextOf(tenant), Bounds(t, t), false))
  {
    hide FormatDate, Stem, IsWord;
  }

  lemma DefaultNamed(p: Parent, name: string)
    requires IsDefaultName(p, name)
    ensures Nameable(p) && IdOf(name) == TableId(p.schema, p.table + "_default") && IsDefaultTable(p, p.table + "_default")
  {
    hide IdOf, Whole, IsWord, Stem, BuildName;
    NoTenant(p.table);
    PartNameSplits(p, "", ZERO_BOUNDS, true);
    BuiltWhen(p, if p.tenanted then Some("A") else None, ZERO_BOUNDS);
  }

  lemma DefaultIdIff(p: Parent, id: TableId)
    ensures (exists name :: IsDefaultName(p, name) && IdOf(name) == id)
      <==> Nameable(p) && id.schema == p.schema && IsDefaultTable(p, id.table)
  {
    hide PartName, IdOf, Nameable, DefaultFits, TenantShape, NameFits;
    if exists name :: IsDefaultName(p, name) && IdOf(name) == id {
      var name :| IsDefaultName(p, name) && IdOf(name) == id;
      DefaultNamed(p, name);
    }
    if Nameable(p) && id.schema == p.schema && IsDefaultTable(p, id.table) {
      var tenant := if p.tenanted then Some("A") else None;
      ShapeOfA(p);
      BuiltWhen(p, tenant, ZERO_BOUNDS);
      DefaultNamed(p, PartName(p, "", ZERO_BOUNDS, true).value);
    }
  }

  lemma ShapeOfA(p: Parent)
    ensures TenantShape(p, if p.tenanted then Some("A") else None)
  {
  }

  /** A parent owns its default's table and its windows' tables, these in its
      archive too. */
  lemma OwnsIff(p: Parent, id: TableId)
    ensures Owns(p, id) <==>
      Nameable(p) && ((id.schema == p.schema && IsDefaultTable(p, id.table))
                      || (id.schema in RangeSchemas(p) && IsRangeTable(p, id.table)))
  {
    hide IsRangeName, IsDefaultName, IdOf, Nameable, IsDefaultTable, IsRangeTable, Clip;
    RangeIdIff(p, id);
    DefaultIdIff(p, id);
    PartIdParts(p, id);
    if exists part :: IsRangeId(p, part) && ArchiveId(p, part) == id {
      var part :| IsRangeId(p, part) && ArchiveId(p, part) == id;
      RangeIdIff(p, part);
    }
    if Nameable(p) && id.schema in RangeSchemas(p) && IsRangeTable(p, id.table) {
      var part := TableId(p.schema, id.table);
      RangeIdIff(p, part);
      assert id.schema == p.schema || ArchiveId(p, part) == id;
    }
  }

  lemma PartIdParts(p: Parent, id: TableId)
    ensures IsPartId(p, id) <==> IsRangeId(p, id) || exists name :: IsDefaultName(p, name) && IdOf(name) == id
  {
    hide IsRangeName, IsDefaultName, IdOf;
    if IsPartId(p, id) {
      var name :| IsPartName(p, name) && IdOf(name) == id;
      assert IsRangeName(p, name) || IsDefaultName(p, name);
    }
    if exists name :: IsDefaultName(p, name) && IdOf(name) == id {
      var name :| IsDefaultName(p, name) && IdOf(name) == id;
      assert IsPartName(p, name);
    }
    if IsRangeId(p, id) {
      var name :| IsRangeName(p, name) && IdOf(name) == id;
      assert IsPartName(p, name);
    }
  }

  /* ----- what two parents share ----- */

  /** The length of the shortest table name of a window. */
  function Shortest(p: Parent): nat { |p.table| + 9 + if p.tenanted then 2 else 0 }

  /** One parent is named as a partition of another's tenant would begin. */
  predicate Under(p: Parent, q: Parent) {
    && p.tenanted && p.table + "_" <= q.table
    && var rest := q.table[|p.table| + 1..];
       ToUpper(rest) == rest && (q.tenanted || rest != "")
  }

  /** Two parents of one schema and table. */
  predicate SharesDefault(p: Parent, q: Parent) {
    p.schema == q.schema && p.table == q.table && |p.table| + 8 <= NAME_LIMIT
  }

  predicate SharesRanges(p: Parent, q: Parent) {
    && !(RangeSchemas(p) !! RangeSchemas(q)) && Shortest(p) <= NAME_LIMIT && Shortest(q) <= NAME_LIMIT
    && ((p.table == q.table && p.tenanted == q.tenanted) || Under(p, q) || Under(q, p))
  }

  /** Equal stems, whatever the tenants. */
  lemma StemsMeet(p: Parent, q: Parent, a: Option<string>, b: Option<string>)
    requires TenantShape(p, a) && TenantShape(q, b) && |q.table| >= |p.table|
    requires Stem(p.table, TextOf(a)) == Stem(q.table, TextOf(b))
    ensures (p.table == q.table && p.tenanted == q.tenanted) || Under(p, q)
  {
    hide ToUpper;
    var s := Stem(p.table, TextOf(a));
    assert s[..|p.table|] == p.table && s[..|q.table|] == q.table;
    assert (p.tenanted <==> |s| > |p.table|) && (q.tenanted <==> |s| > |q.table|);
    if |q.table| > |p.table| {
      assert a.Some? && s == p.table + "_" + ToUpper(a.value);
      var rest := q.table[|p.table| + 1..];
      assert p.table + "_" == s[..|p.table| + 1] == q.table[..|p.table| + 1];
      assert rest == ToUpper(a.value)[..|rest|];
      UpperPrefix(a.value, |rest|);
      assert b.None? ==> |rest| == |a.value|;
    }
  }

  lemma UpperPrefix(s: string, n: nat)
    requires n <= |s|
    ensures ToUpper(ToUpper(s)[..n]) == ToUpper(s)[..n]
  {
  }

  /** A common table of two windows. */
  lemma RangesMeet(p: Parent, q: Parent, table: string)
    requires IsRangeTable(p, table) && IsRangeTable(q, table) && |q.table| >= |p.table|
    ensures (p.table == q.table && p.tenanted == q.tenanted) || Under(p, q)
    ensures Shortest(p) <= NAME_LIMIT && Shortest(q) <= NAME_LIMIT
  {
    hide FormatDate, IsWord, Under, TenantShape, Stem;
    var a, t :| IsTableOf(p, table, a, t);
    var b, u :| IsTableOf(q, table, b, u);
    SplitTable(Stem(p.table, TextOf(a)), FormatDate(t));
    SplitTable(Stem(q.table, TextOf(b)), FormatDate(u));
    StemsMeet(p, q, a, b);
    LongEnough(p, table, a, t);
    LongEnough(q, table, b, u);
  }

  lemma SplitTable(stem: string, suffix: string)
    requires '_' !in suffix
    ensures var s := stem + "_" + suffix;
      LastIndex(s, '_') == |stem| && s[..|stem|] == stem && s[|stem| + 1..] == suffix
  {
    LastIndexOfJoin(stem, '_', suffix);
    assert stem + "_" + suffix == stem + ['_'] + suffix;
  }

  lemma LongEnough(p: Parent, table: string, tenant: Option<string>, t: Instant)
    requires IsTableOf(p, table, tenant, t)
    ensures Shortest(p) <= |table| <= NAME_LIMIT
  {
    hide FormatDate, IsWord;
    DateIsLong(t);
  }

  lemma DateIsLong(t: Instant)
    ensures |FormatDate(t)| >= 8
  {
    hide Fixed, MonthAt, DayOfMonth, MonthOf, MonthStart;
    YearIsLong(YearAt(t));
  }

  lemma YearIsLong(y: int)
    ensures |FormatYear(y)| >= 4
  {
    hide Fixed, Decimal;
    var n := if y < 0 then -y else y;
    if n >= 10000 {
      assert Pow10(3) <= n;
      DecimalLength(n, 3);
    }
  }

  /** The default's table is no window's. */
  lemma DefaultIsNoRange(p: Parent, q: Parent, table: string)
    requires IsDefaultTable(p, table)
    ensures !IsRangeTable(q, table)
  {
    hide FormatDate, IsWord, TenantShape, Stem;
    assert p.table + "_" + "default" == table;
    SplitTable(p.table, "default");
    forall tenant, t
      ensures !IsTableOf(q, table, tenant, t)
    {
      if IsTableOf(q, table, tenant, t) {
        SplitTable(Stem(q.table, TextOf(tenant)), FormatDate(t));
        DateIsNotDefault(t);
      }
    }
  }

  /** A table that both have, where the condition says there is one. */
  lemma CommonRange(p: Parent, q: Parent) returns (id: TableId)
    requires Nameable(p) && Nameable(q) && SharesRanges(p, q) && (p.table == q.table || Under(p, q))
    ensures Owns(p, id) && Owns(q, id)
  {
    hide Owns, FormatDate, IsWord, Stem, ToUpper, Under;
    var schema :| schema in RangeSchemas(p) && schema in RangeSchemas(q);
    YearZero();
    var b := if q.tenanted then Some("A") else None;
    var a := if p.table == q.table then b else ContinuedTenant(p, q);
    id := TableId(schema, Stem(q.table, TextOf(b)) + "_" + FormatDate(0));
    StemsAgree(p, q, a, b);
    ShortTenant(q);
    assert IsTableOf(p, id.table, a, 0) && IsTableOf(q, id.table, b, 0);
    OwnsIff(p, id);
    OwnsIff(q, id);
  }

  /** The tenant of one parent that leads to the other's windows. */
  ghost function ContinuedTenant(p: Parent, q: Parent): Option<string>
    requires Under(p, q)
  {
    var rest := q.table[|p.table| + 1..];
    Some(if q.tenanted then rest + "_" + "A" else rest)
  }

  lemma StemsAgree(p: Parent, q: Parent, a: Option<string>, b: Option<string>)
    requires Nameable(p) && Nameable(q) && SharesRanges(p, q) && b == if q.tenanted then Some("A") else None
    requires p.table == q.table || Under(p, q)
    requires a == if p.table == q.table then b else ContinuedTenant(p, q)
    ensures Stem(p.table, TextOf(a)) == Stem(q.table, TextOf(b))
    ensures TenantShape(p, a) && TenantShape(q, b) && (a.Some? ==> IsWord(a.value)) && (b.Some? ==> IsWord(b.value))
  {
    hide RangeSchemas, ToUpper;
    assert ToUpper("A") == "A" && IsWord("A") by { UpperA(); }
    if p.table == q.table {
      assert !Under(p, q) && !Under(q, p) by { NotUnderItself(p, q); NotUnderItself(q, p); }
    } else {
      var rest := q.table[|p.table| + 1..];
      assert q.table == p.table + "_" + rest;
      UpperJoins(rest, "A");
      assert IsWord(rest + "_" + "A") && (rest != "" ==> IsWord(rest)) by { WordRest(q.table, |p.table| + 1); }
      assert q.tenanted ==> Stem(p.table, TextOf(a)) == p.table + "_" + (rest + "_" + "A");
    }
  }

  lemma NotUnderItself(p: Parent, q: Parent)
    requires p.table == q.table
    ensures !Under(p, q)
  {
  }

  lemma UpperA()
    ensures ToUpper("A") == "A" && IsWord("A")
  {
  }

  lemma UpperJoins(x: string, y: string)
    requires ToUpper(x) == x && ToUpper(y) == y
    ensures ToUpper(x + "_" + y) == x + "_" + y
  {
    var s := x + "_" + y;
    forall i | 0 <= i < |s| ensures ToUpperChar(s[i]) == s[i] {
      if i < |x| {
        assert s[i] == x[i] == ToUpper(x)[i];
      } else if i > |x| {
        assert s[i] == y[i - |x| - 1] == ToUpper(y)[i - |x| - 1];
      }
    }
    assert ToUpper(s) == s;
  }

  lemma WordRest(s: string, n: nat)
    requires IsWord(s) && n <= |s|
    ensures s[n..] != "" ==> IsWord(s[n..])
    ensures IsWord(s[n..] + "_" + "A")
  {
  }

  lemma YearZero()
    ensures |FormatDate(0)| == 8
  {
    hide Fixed, MonthOf;
    PartsOfDate(0, 1, 0) by { assert MonthLength(0) == 31; }
    FormatDateLength(0) by { hide *; }
    assert MonthStart(0) == 0;
  }

  lemma ShortTenant(q: Parent)
    ensures var b := if q.tenanted then Some("A") else None;
      |Stem(q.table, TextOf(b))| + 9 == Shortest(q)
  {
  }

  /** Two parents never have a table in common, exactly when they are different
      and neither their defaults nor their windows can be named alike. */
  lemma ApartIff(p: Parent, q: Parent)
    ensures Apart(p, q) <==> p.id != q.id && !(Nameable(p) && Nameable(q) && (SharesDefault(p, q) || SharesRanges(p, q)))
  {
    hide Owns, Nameable, IsRangeTable, Under;
    if Nameable(p) && Nameable(q) && SharesDefault(p, q) {
      var id := TableId(p.schema, p.table + "_default");
      OwnsIff(p, id);
      OwnsIff(q, id);
    }
    if Nameable(p) && Nameable(q) && SharesRanges(p, q) {
      if p.table == q.table || Under(p, q) {
        var id := CommonRange(p, q);
      } else {
        var id := CommonRange(q, p);
      }
    }
    forall id | Owns(p, id) && Owns(q, id)
      ensures Nameable(p) && Nameable(q) && (SharesDefault(p, q) || SharesRanges(p, q))
    {
      CommonMeans(p, q, id);
    }
  }

  lemma CommonMeans(p: Parent, q: Parent, id: TableId)
    requires Owns(p, id) && Owns(q, id)
    ensures Nameable(p) && Nameable(q) && (SharesDefault(p, q) || SharesRanges(p, q))
  {
    hide Owns, Nameable, IsRangeTable, Under;
    OwnsIff(p, id);
    OwnsIff(q, id);
    if id.schema == p.schema && IsDefaultTable(p, id.table) {
      DefaultIsNoRange(p, q, id.table);
      assert p.table == id.table[..|id.table| - 8] && IsDefaultTable(q, id.table) ==> q.table == id.table[..|id.table| - 8];
    } else {
      if id.schema == q.schema && IsDefaultTable(q, id.table) {
        DefaultIsNoRange(q, p, id.table);
      } else {
        if |q.table| >= |p.table| {
          RangesMeet(p, q, id.table);
        } else {
          RangesMeet(q, p, id.table);
        }
      }
    }
  }

  /** A tenanted parent and one named like its tenant: the two use the same names
      for the same windows. */
  lemma TenantLikeParent(p: Parent, q: Parent, tenant: string, b: Bounds)
    requires p.tenanted && !q.tenanted
    requires p.schema == q.schema && IsWord(tenant) && q.table == p.table + "_" + ToUpper(tenant)
    requires PartName(p, tenant, b, false).Ok? && Fits(PartOf(p, tenant, b, false))
    ensures PartName(q, "", b, false) == PartName(p, tenant, b, false) && !Apart(p, q)
  {
    hide FormatDate, Owns, IsWord, ToUpper;
    ToUpperOfWord(tenant);
    WordIsNotEmpty(tenant);
    var name := PartName(p, tenant, b, false).value;
    assert Stem(q.table, "") == Stem(p.table, tenant);
    WordJoins(p.table, ToUpper(tenant));
    assert PartName(q, "", b, false) == Ok(name) && Fits(PartOf(q, "", b, false));
    assert TextOf(Some(tenant)) == tenant && TextOf(None) == "";
    FromRangeName(p, Some(tenant), b);
    FromRangeName(q, None, b);
    NamedIsPartId(p, name);
    NamedIsPartId(q, name);
  }

  lemma WordIsNotEmpty(s: string)
    requires IsWord(s)
    ensures s != ""
  {
  }

  lemma WordJoins(a: string, b: string)
    requires IsWord(a) && IsWord(b)
    ensures IsWord(a + "_" + b)
  {
  }
}
