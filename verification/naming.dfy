/** The partition-name grammar {schema}.{parent}[_TENANT]_{YYYYMMDD|default}. */
module Naming {
  import opened Wrappers
  import opened Calendar
  import opened Periods
  import opened Text

  /** The components of a partition's name.  An empty tenant means none. */
  datatype TableName = TableName(schema: string, parent: string, tenant: string, bounds: Bounds, isDefault: bool)

  datatype NameError =
    | BadSchema
    | BadParent
    | BadTenant
    | MissingSeparator
    | MissingSuffix
    | BadDate
    | BadSuffix

  const ZERO_BOUNDS := Bounds(ZERO_TIME, ZERO_TIME)

  function Suffix(tn: TableName): (s: string)
    ensures '_' !in s && '.' !in s
  {
    if tn.isDefault then "default" else FormatDate(tn.bounds.from)
  }

  /** The part of a name before its suffix, without the schema. */
  function Stem(parent: string, tenant: string): string {
    if tenant == "" then parent else parent + "_" + ToUpper(tenant)
  }

  /** The name Build gives. */
  function BuildName(tn: TableName): Result<string, NameError> {
    if !IsWord(tn.schema) then Err(BadSchema)
    else if !IsWord(tn.parent) then Err(BadParent)
    else if tn.tenant != "" && !IsWord(tn.tenant) then Err(BadTenant)
    else Ok(tn.schema + "." + (Stem(tn.parent, tn.tenant) + "_" + Suffix(tn)))
  }

  /** Build: writes the name piece by piece. */
  method Build(tn: TableName) returns (r: Result<string, NameError>)
    ensures r == BuildName(tn)
  {
    hide IsWord, ToUpper, FormatDate;
    if !IsWord(tn.schema) {
      return Err(BadSchema);
    }
    if !IsWord(tn.parent) {
      return Err(BadParent);
    }
    var b := tn.schema;
    b := b + ".";
    b := b + tn.parent;
    if |tn.tenant| > 0 {
      if !IsWord(tn.tenant) {
        return Err(BadTenant);
      }
      b := b + "_";
      b := b + ToUpper(tn.tenant);
    }
    if tn.isDefault {
      b := b + "_default";
    } else {
      b := b + "_";
      b := b + FormatDate(tn.bounds.from);
    }
    assert b == tn.schema + "." + (Stem(tn.parent, tn.tenant) + "_" + Suffix(tn));
    return Ok(b);
  }

  /** What the suffix of a name says: the default, or the start of a range. */
  function ParseSuffix(s: string): Result<Option<Instant>, NameError> {
    if s == "default" then Ok(None)
    else if |s| == 8 then
      match ParseDate(s)
      case None => Err(BadDate)
      case Some(t) => Ok(Some(t))
    else Err(BadSuffix)
  }

  /** The parent and the tenant a stem is read as: the last segment is a
      tenant exactly when it is upper-case alphanumeric. */
  function ParseStem(stem: string): (string, string) {
    var sep := LastIndex(stem, '_');
    if sep >= 0 && IsUpperAlphanumeric(stem[sep + 1..])
    then (stem[..sep], stem[sep + 1..])
    else (stem, "")
  }

  /** The components Parse finds in a name. */
  function ParseName(fq: string): Result<TableName, NameError> {
    var dot := Index(fq, '.');
    if dot < 0 then Err(MissingSeparator)
    else if !IsWord(fq[..dot]) then Err(BadSchema)
    else
      var rest := fq[dot + 1..];
      var last := LastIndex(rest, '_');
      if last < 0 then Err(MissingSuffix)
      else
        match ParseSuffix(rest[last + 1..])
        case Err(e) => Err(e)
        case Ok(from) =>
          var (parent, tenant) := ParseStem(rest[..last]);
          if !IsWord(parent) then Err(BadParent)
          else
            var bounds := if from.Some? then Bounds(from.value, ZERO_TIME) else ZERO_BOUNDS;
            Ok(TableName(fq[..dot], parent, tenant, bounds, from.None?))
  }

  /** Parse: fills in a name's components one after the other. */
  method Parse(fq: string) returns (r: Result<TableName, NameError>)
    ensures r == ParseName(fq)
  {
    hide IsWord, Index, LastIndex, ParseDate, IsUpperAlphanumeric;
    var dot := Index(fq, '.');
    if dot < 0 {
      return Err(MissingSeparator);
    }
    var schema, rest := fq[..dot], fq[dot + 1..];
    if !IsWord(schema) {
      return Err(BadSchema);
    }
    var last := LastIndex(rest, '_');
    if last < 0 {
      return Err(MissingSuffix);
    }
    var suffix, remainder := rest[last + 1..], rest[..last];
    var tn := TableName(schema, "", "", ZERO_BOUNDS, false);
    if suffix == "default" {
      tn := tn.(isDefault := true);
    } else if |suffix| == 8 {
      match ParseDate(suffix) {
        case None => return Err(BadDate);
        case Some(t) => tn := tn.(bounds := Bounds(t, ZERO_TIME));
      }
    } else {
      return Err(BadSuffix);
    }
    var sep := LastIndex(remainder, '_');
    if sep >= 0 {
      var candidate := remainder[sep + 1..];
      if IsUpperAlphanumeric(candidate) {
        tn := tn.(tenant := candidate, parent := remainder[..sep]);
      } else {
        tn := tn.(parent := remainder);
      }
    } else {
      tn := tn.(parent := remainder);
    }
    if !IsWord(tn.parent) {
      return Err(BadParent);
    }
    return Ok(tn);
  }

  /* ----- Build and Parse undo each other ----- */

  lemma StemOfParts(stem: string)
    ensures var (parent, tenant) := ParseStem(stem);
      Stem(parent, tenant) == stem && (tenant != "" ==> IsWord(tenant))
  {
    var (parent, tenant) := ParseStem(stem);
    if tenant != "" {
      ToUpperOfUpper(tenant);
      assert stem == parent + "_" + tenant;
    }
  }

  lemma SuffixOfParts(suffix: string, tn: TableName)
    requires ParseSuffix(suffix).Ok?
    requires tn.isDefault == ParseSuffix(suffix).value.None?
    requires !tn.isDefault ==> tn.bounds.from == ParseSuffix(suffix).value.value
    ensures Suffix(tn) == suffix
  {
    if suffix != "default" {
      ParseDateThenFormat(suffix);
    }
  }

  /** A name that parses is the name its components build. */
  lemma ParseThenBuild(fq: string)
    requires ParseName(fq).Ok?
    ensures BuildName(ParseName(fq).value) == Ok(fq)
  {
    hide IsWord, ParseSuffix, ParseStem, Stem, Suffix;
    var tn := ParseName(fq).value;
    var dot := Index(fq, '.');
    var rest := fq[dot + 1..];
    var last := LastIndex(rest, '_');
    assert fq == fq[..dot] + "." + rest;
    assert rest == rest[..last] + "_" + rest[last + 1..];
    SuffixOfParts(rest[last + 1..], tn);
    StemOfParts(rest[..last]);
  }

  /** The components that survive a round trip: the name keeps neither the case
      of the tenant nor the end of the range, and no range for the default. */
  function Canonical(tn: TableName): TableName {
    tn.(tenant := ToUpper(tn.tenant),
        bounds := if tn.isDefault then ZERO_BOUNDS else Bounds(tn.bounds.from, ZERO_TIME))
  }

  /** The last segment of an untenanted parent that would be taken for a tenant. */
  predicate LooksTenanted(parent: string) {
    var sep := LastIndex(parent, '_');
    sep >= 0 && IsUpperAlphanumeric(parent[sep + 1..])
  }

  /** The components whose name can be read back. */
  predicate Readable(tn: TableName) {
    && (if tn.tenant == "" then !LooksTenanted(tn.parent) else '_' !in tn.tenant)
    && (tn.isDefault || (IsMidnight(tn.bounds.from) && 0 <= YearAt(tn.bounds.from) <= 9999))
  }

  /** The name of the table, without its schema. */
  function TableOf(tn: TableName): string { Stem(tn.parent, tn.tenant) + "_" + Suffix(tn) }

  /** The server keeps the whole name. */
  predicate Fits(tn: TableName) { |tn.schema| <= NAME_LIMIT && |TableOf(tn)| <= NAME_LIMIT }

  /** A built name splits where it was joined. */
  lemma SplitBuilt(tn: TableName)
    requires BuildName(tn).Ok?
    ensures var fq := BuildName(tn).value;
      var rest := Stem(tn.parent, tn.tenant) + "_" + Suffix(tn);
      && Index(fq, '.') == |tn.schema|
      && fq[..|tn.schema|] == tn.schema && fq[|tn.schema| + 1..] == rest
      && LastIndex(rest, '_') == |Stem(tn.parent, tn.tenant)|
      && rest[..|Stem(tn.parent, tn.tenant)|] == Stem(tn.parent, tn.tenant)
      && rest[|Stem(tn.parent, tn.tenant)| + 1..] == Suffix(tn)
  {
    var rest := Stem(tn.parent, tn.tenant) + "_" + Suffix(tn);
    assert '.' !in tn.schema;
    IndexOfJoin(tn.schema, '.', rest);
    LastIndexOfJoin(Stem(tn.parent, tn.tenant), '_', Suffix(tn));
  }

  lemma SuffixReads(tn: TableName)
    ensures ParseSuffix(Suffix(tn)) == Ok(if tn.isDefault then None else Some(tn.bounds.from)) <==>
      tn.isDefault || (IsMidnight(tn.bounds.from) && 0 <= YearAt(tn.bounds.from) <= 9999)
  {
    var from := tn.bounds.from;
    if !tn.isDefault {
      FormatDateLength(from);
      if 0 <= YearAt(from) <= 9999 {
        FormatDateThenParse(from);
        assert Suffix(tn)[7] != 't' by { assert AllDigits(Fixed(DayOfMonth(from), 2)); }
      } else {
        DateIsNotDefault(from);
      }
    }
  }

  lemma StemReads(parent: string, tenant: string)
    requires IsWord(parent) && (tenant == "" || IsWord(tenant))
    ensures ParseStem(Stem(parent, tenant)) == (parent, ToUpper(tenant)) <==>
      if tenant == "" then !LooksTenanted(parent) else '_' !in tenant
  {
    if tenant != "" {
      ToUpperOfWord(tenant);
      if '_' !in tenant {
        LastIndexOfJoin(parent, '_', ToUpper(tenant));
      } else {
        assert !IsUpperAlphanumeric(ToUpper(tenant));
      }
    }
  }

  /** Parsing a built name gives the components back, with the tenant in upper
      case, exactly when they are readable. */
  lemma BuildThenParse(tn: TableName)
    requires BuildName(tn).Ok?
    ensures ParseName(BuildName(tn).value) == Ok(Canonical(tn)) <==> Readable(tn)
  {
    hide IsWord, ParseSuffix, ParseStem, Stem, Suffix, LooksTenanted;
    SplitBuilt(tn);
    SuffixReads(tn);
    StemReads(tn.parent, tn.tenant);
    assert BuildName(tn).value == tn.schema + "." + (Stem(tn.parent, tn.tenant) + "_" + Suffix(tn));
  }

  /* ----- names tell partitions apart ----- */

  /** Within one parent, built names differ when the tenant differs beyond its
      case or the day the range starts on differs; the default has its own. */
  lemma BuiltNamesDiffer(a: TableName, b: TableName)
    requires BuildName(a).Ok? && BuildName(b).Ok? && BuildName(a) == BuildName(b)
    requires a.schema == b.schema && a.parent == b.parent
    ensures ToUpper(a.tenant) == ToUpper(b.tenant) && a.isDefault == b.isDefault
    ensures !a.isDefault ==> DayOf(a.bounds.from) == DayOf(b.bounds.from)
  {
    SplitBuilt(a);
    SplitBuilt(b);
    assert Stem(a.parent, a.tenant) == Stem(b.parent, b.tenant);
    assert ToUpper(a.tenant) == ToUpper(b.tenant) by {
      if a.tenant != "" {
        assert Stem(a.parent, a.tenant)[|a.parent| + 1..] == ToUpper(a.tenant);
      }
      if b.tenant != "" {
        assert Stem(b.parent, b.tenant)[|b.parent| + 1..] == ToUpper(b.tenant);
      }
    }
    assert Suffix(a) == Suffix(b);
    DateIsNotDefault(a.bounds.from);
    DateIsNotDefault(b.bounds.from);
    if !a.isDefault {
      FormatDateInjective(a.bounds.from, b.bounds.from);
    }
  }

  lemma DateIsNotDefault(t: Instant)
    ensures FormatDate(t) != "default"
  {
    var s := FormatDate(t);
    assert IsDigit(s[|s| - 1]) by { assert s[|s| - 1] == Fixed(DayOfMonth(t), 2)[1]; }
  }
}
