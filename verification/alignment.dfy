/** What the provisioner creates, the importer reads: the two meet only in the
    names and the bound expressions of the partitions. */
module Alignment {
  import opened Wrappers
  import opened Calendar
  import opened Periods
  import opened Text
  import opened Naming
  import opened BoundText
  import opened Metadata
  import opened Importer

  /** The child the system catalog lists once the partition `tn` is created: the
      server has clipped its name, and prints its bound in the session's time
      zone. */
  function ChildOf(tn: TableName, zone: Zone): Child
    requires tn.isDefault || Printable(tn.bounds, zone)
  {
    Child(Clip(tn.schema), Clip(TableOf(tn)), if tn.isDefault then "DEFAULT" else RenderBound(tn.tenant, tn.bounds, zone))
  }

  /** What the importer makes of a partition that is in order. */
  function InOrder(tn: TableName): Verdict {
    Aligned(Canonical(tn), ParsedBound(tn.bounds, ToUpper(tn.tenant), false))
  }

  /** A provisioned partition comes back as what it is exactly when its name is
      readable and fits the server's limit, and its bound is printed in whole
      hours.  Otherwise (hourly ranges off midnight, tenants with an underscore,
      untenanted parents that end in an upper-case segment, names above 63 bytes,
      sessions in zones like +05:30) it is drifted or skipped, or taken for
      another partition when clipped. */
  lemma AlignedIffReadable(tn: TableName, zone: Zone)
    requires BuildName(tn).Ok? && !tn.isDefault && Printable(tn.bounds, zone)
    ensures Classify(ChildOf(tn, zone)) == InOrder(tn) <==> Readable(tn) && Fits(tn) && InWholeHours(tn.bounds, zone)
    ensures Fits(tn) ==> (Classify(ChildOf(tn, zone)).Aligned? <==> Readable(tn) && InWholeHours(tn.bounds, zone))
  {
    hide RenderBound, ParseBoundExpr, ParseStem, ParseSuffix, IsWord, Stem, Suffix, Printable, InWholeHours;
    RenderedBoundReads(tn.tenant, tn.bounds, zone);
    if InWholeHours(tn.bounds, zone) {
      if Fits(tn) {
        WholeNameAligned(tn, zone);
      } else {
        ClippedIsAnother(tn, zone);
      }
    }
  }

  lemma WholeNameAligned(tn: TableName, zone: Zone)
    requires BuildName(tn).Ok? && !tn.isDefault && Printable(tn.bounds, zone) && Fits(tn) && InWholeHours(tn.bounds, zone)
    ensures Classify(ChildOf(tn, zone)).Aligned? <==> Readable(tn)
    ensures Readable(tn) ==> Classify(ChildOf(tn, zone)) == InOrder(tn)
  {
    hide RenderBound, ParseBoundExpr, ParseStem, ParseSuffix, IsWord, Stem, Suffix, Printable, InWholeHours;
    assert ChildOf(tn, zone).FQ() == BuildName(tn).value;
    RenderedBoundReads(tn.tenant, tn.bounds, zone);
    BuildThenParse(tn);
    if tn.tenant != "" {
      ToUpperOfWord(tn.tenant);
    }
    if Classify(ChildOf(tn, zone)).Aligned? {
      AlignedNameIsCanonical(tn);
    }
  }

  lemma CanonicalBuilds(tn: TableName)
    requires BuildName(tn).Ok?
    ensures BuildName(Canonical(tn)) == BuildName(tn)
  {
    hide FormatDate;
    if tn.tenant != "" {
      ToUpperOfWord(tn.tenant);
    } else {
      assert ToUpper("") == "";
    }
  }

  /** A clipped name never reads as the partition it was built for. */
  lemma ClippedIsAnother(tn: TableName, zone: Zone)
    requires BuildName(tn).Ok? && !Fits(tn) && (tn.isDefault || Printable(tn.bounds, zone))
    ensures var v := Classify(ChildOf(tn, zone));
      v.Aligned? ==> v.name != Canonical(tn) && BuildName(v.name) != BuildName(tn)
  {
    hide RenderBound, ParseBoundExpr, ParseName, BuildName, Printable, IsWord, Stem, Suffix;
    var fq := ChildOf(tn, zone).FQ();
    assert |fq| < |tn.schema + "." + TableOf(tn)|;
    BuiltIs(tn);
    CanonicalBuilds(tn);
    if ParseName(fq).Ok? {
      ParseThenBuild(fq);
    }
  }

  lemma BuiltIs(tn: TableName)
    requires BuildName(tn).Ok?
    ensures BuildName(tn).value == tn.schema + "." + TableOf(tn)
  {
  }

  lemma PartsOfBuilt(tn: TableName)
    requires BuildName(tn).Ok? && ParseName(BuildName(tn).value).Ok?
    ensures var name := ParseName(BuildName(tn).value).value;
      && name.schema == tn.schema
      && (name.parent, name.tenant) == ParseStem(Stem(tn.parent, tn.tenant))
      && (!name.isDefault ==> name.bounds.to == ZERO_TIME)
  {
    hide IsWord, ParseStem, ParseSuffix, Stem, Suffix;
    SplitBuilt(tn);
  }

  lemma StemUnique(p: string, t: string, q: string, u: string)
    requires Stem(p, t) == Stem(q, u) && |t| == |u|
    ensures p == q && ToUpper(t) == ToUpper(u)
  {
    if t != "" {
      assert Stem(p, t)[..|p|] == p && Stem(q, u)[..|q|] == q;
      assert Stem(p, t)[|p| + 1..] == ToUpper(t) && Stem(q, u)[|q| + 1..] == ToUpper(u);
    } else {
      assert ToUpper(t) == "" && ToUpper(u) == "";
    }
  }

  /** A tenant and a start that agree with the bound leave the name one way to
      be read. */
  lemma AlignedNameIsCanonical(tn: TableName)
    requires BuildName(tn).Ok? && !tn.isDefault && ParseName(BuildName(tn).value).Ok?
    requires var name := ParseName(BuildName(tn).value).value;
      !name.isDefault && ToUpper(name.tenant) == ToUpper(tn.tenant) && name.bounds.from == tn.bounds.from
    ensures ParseName(BuildName(tn).value) == Ok(Canonical(tn))
  {
    hide IsWord, ParseName, ParseStem, Stem;
    var name := ParseName(BuildName(tn).value).value;
    PartsOfBuilt(tn);
    StemOfParts(Stem(tn.parent, tn.tenant));
    StemUnique(tn.parent, tn.tenant, name.parent, name.tenant);
    TenantIsUpper(Stem(tn.parent, tn.tenant));
  }

  lemma TenantIsUpper(stem: string)
    ensures ToUpper(ParseStem(stem).1) == ParseStem(stem).1
  {
    if ParseStem(stem).1 != "" {
      ToUpperOfUpper(ParseStem(stem).1);
    }
  }

  /** The default whose name fits is aligned too, unless its parent's name is all
      tenant: then the parser finds no parent in it. */
  lemma DefaultAlignedIff(tn: TableName, zone: Zone)
    requires BuildName(tn).Ok? && tn.isDefault && tn.tenant == ""
    ensures Fits(tn) ==> (Classify(ChildOf(tn, zone)).Aligned? <==> ParseStem(tn.parent).0 != "")
    ensures var v := Classify(ChildOf(tn, zone));
      v.Aligned? ==> (BuildName(v.name) == BuildName(tn) <==> Fits(tn))
  {
    hide ParseBoundExpr, ParseStem, ParseName, IsWord, BuildName;
    if Fits(tn) {
      var fq := BuildName(tn).value;
      BuiltIs(tn);
      assert ChildOf(tn, zone).FQ() == fq;
      DefaultBoundReads();
      DefaultNameReads(tn);
      if ParseName(fq).Ok? {
        ParseThenBuild(fq);
      }
    } else {
      ClippedIsAnother(tn, zone);
    }
  }

  lemma DefaultNameReads(tn: TableName)
    requires BuildName(tn).Ok? && tn.isDefault && tn.tenant == ""
    ensures ParseName(BuildName(tn).value).Ok? <==> ParseStem(tn.parent).0 != ""
    ensures ParseName(BuildName(tn).value).Ok? ==> ParseName(BuildName(tn).value).value.isDefault
  {
    hide ParseStem, IsWord;
    SplitBuilt(tn);
    StemIsPrefix(tn.parent);
    assert ParseSuffix(Suffix(tn)) == Ok(None);
  }

  lemma DefaultBoundReads()
    ensures ParseBoundExpr("DEFAULT").Ok? && ParseBoundExpr("DEFAULT").value.isDefault
  {
    assert TrimLeft("DEFAULT") == "DEFAULT" && TrimRight("DEFAULT") == "DEFAULT";
  }

  lemma StemIsPrefix(parent: string)
    requires IsWord(parent)
    ensures IsWord(ParseStem(parent).0) <==> ParseStem(parent).0 != ""
  {
  }

  /** The importer's own measure of one period accepts every window, and no other
      range with the start of one. */
  lemma WindowsMatchInterval(t: Instant, k: Kind, to: Instant)
    ensures IntervalMatches(k, Bounds(PeriodOf(t, k).from, to)) <==> to == PeriodOf(t, k).to
  {
    CalendarTiles(k);
    WindowsAbut(CalendarGrid(k), t);
    hide FloorUTC, NextUTC, IntervalMatches;
    IntervalMatchesIff(k, Bounds(PeriodOf(t, k).from, to));
  }

  /** Provisioning and then importing finds nothing to report: every bounded
      partition of a daily, weekly or monthly parent, for a tenant of ASCII
      letters and digits or for an untenanted parent whose last segment does not
      look like a tenant, is aligned and on its interval, exactly when its name
      fits the server's limit and its bound is printed in whole hours. */
  lemma ProvisionedThenImported(schema: string, parent: string, tenant: string, now: Instant, k: Kind, count: nat, i: nat,
                                zone: Zone)
    requires k != Hourly && i < count && |Windows(CalendarGrid(k), now, count)| == count
    requires IsWord(schema) && IsWord(parent)
    requires if tenant == "" then !LooksTenanted(parent) else IsWord(tenant) && '_' !in tenant
    requires Printable(Windows(CalendarGrid(k), now, count)[i], zone)
    requires 0 <= YearAt(Windows(CalendarGrid(k), now, count)[i].from) <= 9999
    ensures var b := Windows(CalendarGrid(k), now, count)[i];
      var tn := TableName(schema, parent, tenant, b, false);
      (Classify(ChildOf(tn, zone)) == InOrder(tn) && !OffInterval(k, ChildOf(tn, zone))) <==> Fits(tn) && InWholeHours(b, zone)
  {
    hide IsWord, LooksTenanted, FloorUTC, NextUTC, RenderBound, ParseBoundExpr, Stem, Suffix, ParseName, YearAt, MonthOf,
      MonthStart, Printable, InWholeHours, Classify, Windows;
    var b := Windows(CalendarGrid(k), now, count)[i];
    var tn := TableName(schema, parent, tenant, b, false);
    CalendarTiles(k);
    WindowsTile(CalendarGrid(k), now, count);
    assert b == PeriodOf(b.from, k);
    WindowAtMidnight(b.from, k);
    AlignedIffReadable(tn, zone);
    WindowsMatchInterval(b.from, k, b.to);
    RenderedBoundReads(tenant, b, zone);
  }

  /** Importing a partition that is already tracked adds no row, only the upper
      case of its tenant to the registered tenants. */
  lemma ImportKeepsProvisioned(st: Store, parentId: string, tn: TableName, zone: Zone)
    requires BuildName(tn).Ok? && !tn.isDefault && Printable(tn.bounds, zone)
    requires Readable(tn) && Fits(tn) && InWholeHours(tn.bounds, zone)
    requires BuildName(tn).value in NamesOf(st.meta, parentId)
    ensures var x := Item(ChildOf(tn, zone).FQ(), Classify(ChildOf(tn, zone)));
      Absorb(st, parentId, x) == st.(tenants := st.tenants + if tn.tenant == "" then {} else {ToUpper(tn.tenant)})
  {
    hide RenderBound, ParseBoundExpr, Classify, Readable, Printable, InWholeHours, IsWord, RowFor, Conflicts, Stem, Suffix;
    AlignedIffReadable(tn, zone);
    var x := Item(ChildOf(tn, zone).FQ(), Classify(ChildOf(tn, zone)));
    assert x.fq == BuildName(tn).value;
    SameNameBlocks(st, parentId, x);
  }
}
