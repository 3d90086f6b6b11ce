/** Reconciling the partitions PostgreSQL has with the metadata of a parent. */
module Importer {
  import opened Wrappers
  import opened Calendar
  import opened Periods
  import opened Text
  import opened Naming
  import opened BoundText
  import opened Metadata

  /** A partition as the system catalog lists it. */
  datatype Child = Child(schema: string, relname: string, boundExpr: string) {
    function FQ(): string { schema + "." + relname }
  }

  datatype DriftReason = NameSaysDefault | NameSaysRange | TenantDiffers | FromDiffers

  datatype Drifted = Drifted(name: string, nameBounds: Bounds, actualBound: string, reason: DriftReason)

  datatype SkipReason = NonConformingName(e: NameError) | UnrecognizedBound(t: TextError)

  datatype Skipped = Skipped(name: string, reason: SkipReason)

  datatype Report = Report(imported: seq<PartitionRef>, drifted: seq<Drifted>,
                           orphaned: seq<PartitionRef>, skipped: seq<Skipped>)

  datatype ImportError = IntervalMismatch(child: Child) | WriteFailed

  /** One calendar period apart; an independent reading of "one period". */
  predicate IntervalMatches(k: Kind, b: Bounds) {
    match k
    case Monthly => AddDate(b.from, 1, 0) == b.to
    case _ => b.to - b.from == IntervalOf(k)
  }

  /** How long the period is that starts at an instant, on the calendar's grid or
      off it; a month from the 31st runs over into the month after the next. */
  function PeriodLength(k: Kind, from: Instant): int {
    match k
    case Hourly => 3_600_000_000_000
    case Daily => 86_400_000_000_000
    case Weekly => 604_800_000_000_000
    case Monthly => MonthLength(MonthAt(from)) * 86_400_000_000_000
  }

  /** The importer's measure accepts a range exactly when it is one period long;
      one that starts on the calendar's grid, exactly when it is the window of its
      start; a month, when it ends on the same day and clock of the next one, if
      that has the day. */
  lemma IntervalMatchesIff(k: Kind, b: Bounds)
    ensures IntervalMatches(k, b) <==> b.to - b.from == PeriodLength(k, b.from)
    ensures b.from == FloorUTC(b.from, k) ==> (IntervalMatches(k, b) <==> b == PeriodOf(b.from, k))
    ensures DayOfMonth(b.from) <= MonthLength(MonthAt(b.from) + 1) ==>
      (IntervalMatches(Monthly, b) <==>
         MonthAt(b.to) == MonthAt(b.from) + 1 && DayOfMonth(b.to) == DayOfMonth(b.from) && ClockOf(b.to) == ClockOf(b.from))
  {
    hide FloorUTC, MonthLength;
    MonthLater(b.from, b.to);
    if b.from == FloorUTC(b.from, k) {
      NextIsWindow(b.from, k);
    }
    hide AddDate, DayOfMonth, ClockOf, MonthAt;
    NextHasLength(k, b.from);
  }

  lemma NextHasLength(k: Kind, from: Instant)
    ensures NextUTC(from, k) - from == PeriodLength(k, from)
    ensures k != Monthly ==> PeriodLength(k, from) == IntervalOf(k)
  {
    hide MonthOf, MonthStart, MonthLength;
    DateOfParts(from);
    MonthGrows(MonthAt(from));
  }

  lemma MonthGrows(n: int)
    ensures MonthStart(n + 1) == MonthStart(n) + MonthLength(n)
  {
    hide MonthLength;
  }

  /** A date of the next month. */
  lemma MonthLater(from: Instant, to: Instant)
    ensures DayOfMonth(from) <= MonthLength(MonthAt(from) + 1) ==>
      (AddDate(from, 1, 0) == to <==>
         MonthAt(to) == MonthAt(from) + 1 && DayOfMonth(to) == DayOfMonth(from) && ClockOf(to) == ClockOf(from))
  {
    hide MonthOf, MonthStart, MonthLength;
    DateOfParts(from);
    DateOfParts(to);
    if DayOfMonth(from) <= MonthLength(MonthAt(from) + 1) {
      PartsOfDate(MonthAt(from) + 1, DayOfMonth(from), ClockOf(from));
    }
  }

  function CompareNameAndBound(name: TableName, bound: ParsedBound): Option<DriftReason> {
    if name.isDefault != bound.isDefault then Some(if name.isDefault then NameSaysDefault else NameSaysRange)
    else if name.isDefault then None
    else if ToUpper(name.tenant) != bound.tenant then Some(TenantDiffers)
    else if name.bounds.from != bound.bounds.from then Some(FromDiffers)
    else None
  }

  /** What the main pass makes of a child, whatever the metadata holds. */
  datatype Verdict = Skip(skipped: Skipped) | Drift(drifted: Drifted) | Aligned(name: TableName, bound: ParsedBound)

  /** A child with its verdict. */
  datatype Item = Item(fq: string, verdict: Verdict)

  function Classify(c: Child): Verdict {
    match ParseName(c.FQ())
    case Err(e) => Skip(Skipped(c.FQ(), NonConformingName(e)))
    case Ok(name) => (
      match ParseBoundExpr(c.boundExpr)
      case Err(e) => Skip(Skipped(c.FQ(), UnrecognizedBound(e)))
      case Ok(bound) => (
        match CompareNameAndBound(name, bound)
        case Some(reason) => Drift(Drifted(c.FQ(), name.bounds, c.boundExpr, reason))
        case None => Aligned(name, bound)))
  }

  /** A child the pre-flight check stops at. */
  predicate OffInterval(k: Kind, c: Child) {
    match ParseBoundExpr(c.boundExpr)
    case Err(_) => false
    case Ok(bound) => !bound.isDefault && !IntervalMatches(k, bound.bounds)
  }

  /** A range, as PostgreSQL prints it, that is not one period long. */
  predicate IsMismatch(k: Kind, c: Child) {
    var pb := ParseBoundExpr(c.boundExpr);
    pb.Ok? && !pb.value.isDefault && pb.value.bounds.to - pb.value.bounds.from != PeriodLength(k, pb.value.bounds.from)
  }

  lemma OffIntervalIff(k: Kind, c: Child)
    ensures OffInterval(k, c) <==> IsMismatch(k, c)
  {
    hide PeriodLength, IntervalMatches, ParseBoundExpr;
    if ParseBoundExpr(c.boundExpr).Ok? {
      IntervalMatchesIff(k, ParseBoundExpr(c.boundExpr).value.bounds);
    }
  }

  function Items(children: seq<Child>): (items: seq<Item>)
    ensures |items| == |children|
    ensures forall i :: 0 <= i < |children| ==> items[i] == Item(children[i].FQ(), Classify(children[i]))
  {
    seq(|children|, i requires 0 <= i < |children| => Item(children[i].FQ(), Classify(children[i])))
  }

  /** The metadata row of an aligned child. */
  function RowFor(parentId: string, x: Item): PartRow
    requires x.verdict.Aligned?
  {
    var bound := x.verdict.bound;
    if bound.isDefault then PartRow(x.fq, parentId, None, ZERO_BOUNDS, true, Active)
    else PartRow(x.fq, parentId, if bound.tenant != "" then Some(bound.tenant) else None, bound.bounds, false, Active)
  }

  function RefFor(name: TableName, bound: ParsedBound): PartitionRef {
    PartitionRef(if bound.isDefault then ZERO_BOUNDS else bound.bounds,
                 name.schema, name.parent, bound.tenant, bound.isDefault)
  }

  function RefFromMetadata(row: PartRow): PartitionRef {
    match ParseName(row.name)
    case Err(_) => PartitionRef(ZERO_BOUNDS, "", row.name, "", false)
    case Ok(name) =>
      PartitionRef(if row.isDefault then ZERO_BOUNDS else row.bounds, name.schema, name.parent,
                   if row.tenant.Some? then row.tenant.value else "", row.isDefault)
  }

  /** A bounded child that is aligned is named after its own bound: after its
      tenant and the day its range starts on.  An aligned default is named as
      one. */
  lemma AlignedIsNamed(c: Child)
    requires Classify(c).Aligned?
    ensures var v := Classify(c);
      if v.bound.isDefault then v.name.isDefault && BuildName(v.name) == Ok(c.FQ())
      else
        var own := TableName(v.name.schema, v.name.parent, v.bound.tenant, v.bound.bounds, false);
        BuildName(own) == Ok(c.FQ()) && v.bound.bounds.from == v.name.bounds.from
  {
    hide ParseName, ParseBoundExpr, BuildName;
    ParseThenBuild(c.FQ());
    var v := Classify(c);
    if !v.bound.isDefault {
      BuildsFromUpper(v.name, v.bound.bounds);
    }
  }

  lemma BuildsFromUpper(tn: TableName, b: Bounds)
    requires BuildName(tn).Ok? && !tn.isDefault && tn.bounds.from == b.from
    ensures BuildName(TableName(tn.schema, tn.parent, ToUpper(tn.tenant), b, false)) == BuildName(tn)
  {
    hide FormatDate;
    if tn.tenant != "" {
      ToUpperOfWord(tn.tenant);
    } else {
      assert ToUpper("") == "";
    }
  }

  /** A drift is a real disagreement, and the reason says which. */
  lemma DriftIsReal(c: Child)
    requires Classify(c).Drift?
    ensures ParseName(c.FQ()).Ok? && ParseBoundExpr(c.boundExpr).Ok?
    ensures var name, bound, d := ParseName(c.FQ()).value, ParseBoundExpr(c.boundExpr).value, Classify(c).drifted;
      && d.name == c.FQ() && d.actualBound == c.boundExpr && d.nameBounds == name.bounds
      && match d.reason
         case NameSaysDefault => name.isDefault && !bound.isDefault
         case NameSaysRange => !name.isDefault && bound.isDefault
         case TenantDiffers => !name.isDefault && !bound.isDefault && ToUpper(name.tenant) != bound.tenant
         case FromDiffers =>
           && !name.isDefault && !bound.isDefault && ToUpper(name.tenant) == bound.tenant
           && name.bounds.from != bound.bounds.from
  {
    hide ParseName, ParseBoundExpr;
  }

  /** What is reported of a child when it is imported is what would be reported of
      its row if it were an orphan. */
  lemma ReportedAlike(parentId: string, c: Child)
    requires Classify(c).Aligned?
    ensures var x := Item(c.FQ(), Classify(c));
      RefFor(x.verdict.name, x.verdict.bound) == RefFromMetadata(RowFor(parentId, x))
  {
    hide ParseName, ParseBoundExpr;
    if Classify(c).bound.isDefault {
      DefaultHasNoTenant(c.boundExpr);
    }
  }

  lemma DefaultHasNoTenant(text: string)
    requires ParseBoundExpr(text).Ok? && ParseBoundExpr(text).value.isDefault
    ensures ParseBoundExpr(text).value.tenant == ""
  {
  }

  /** What is reported of an orphan: its own range and tenant, and no range for a
      default; of one whose name does not parse, the name alone. */
  lemma OrphanShown(row: PartRow)
    ensures ParseName(row.name).Err? ==>
      RefFromMetadata(row) == PartitionRef(Bounds(ZERO_TIME, ZERO_TIME), "", row.name, "", false)
    ensures ParseName(row.name).Ok? ==>
      var ref, tn := RefFromMetadata(row), ParseName(row.name).value;
      && (ref.schema, ref.parent, ref.isDefault) == (tn.schema, tn.parent, row.isDefault)
      && ref.bounds == (if row.isDefault then Bounds(ZERO_TIME, ZERO_TIME) else row.bounds)
      && (row.tenant == None ==> ref.tenant == "") && (row.tenant.Some? ==> Some(ref.tenant) == row.tenant)
  {
  }

  /* ----- the writes of one call ----- */

  /** The metadata, and the tenants registered under the parent. */
  datatype Store = Store(meta: seq<PartRow>, tenants: set<string>)

  datatype Write = AddTenant(id: string) | AddRow(row: PartRow)

  function Apply(st: Store, w: Write): Store {
    match w
    case AddTenant(id) => st.(tenants := st.tenants + {id})
    case AddRow(row) => st.(meta := InsertOrIgnore(st.meta, row))
  }

  function ApplyAll(st: Store, ws: seq<Write>): Store
    decreases |ws|
  {
    if ws == [] then st else ApplyAll(Apply(st, ws[0]), ws[1..])
  }

  /** The tenant an aligned child carries. */
  function TenantOf(x: Item): set<string> {
    if x.verdict.Aligned? && x.verdict.bound.tenant != "" then {x.verdict.bound.tenant} else {}
  }

  /** Registration of the tenant, unless it is known. */
  function TenantWrites(x: Item, known: set<string>): seq<Write> {
    if TenantOf(x) <= known then [] else [AddTenant(x.verdict.bound.tenant)]
  }

  function RowWrites(parentId: string, x: Item, existing: set<string>): seq<Write> {
    if !x.verdict.Aligned? || x.fq in existing then [] else [AddRow(RowFor(parentId, x))]
  }

  /** The writes for one child, given the names and tenants known by then: the
      tenant comes first. */
  function WritesFor(parentId: string, x: Item, existing: set<string>, known: set<string>): seq<Write> {
    TenantWrites(x, known) + RowWrites(parentId, x, existing)
  }

  function Writes(parentId: string, items: seq<Item>, existing: set<string>, known: set<string>): seq<Write> {
    if items == [] then []
    else WritesFor(parentId, items[0], existing, known)
         + Writes(parentId, items[1..], existing, known + TenantOf(items[0]))
  }

  function NamesOf(meta: seq<PartRow>, parentId: string): set<string> {
    set r | r in meta && r.parentId == parentId :: r.name
  }

  /** The writes of an import that starts from `st`. */
  function ImportWrites(st: Store, parentId: string, items: seq<Item>): seq<Write> {
    Writes(parentId, items, NamesOf(st.meta, parentId), st.tenants)
  }

  /* ----- the report of one call ----- */

  /** What one child adds to each list of the report. */
  function ImportedRef(x: Item, existing: set<string>): seq<PartitionRef> {
    if x.verdict.Aligned? && x.fq !in existing then [RefFor(x.verdict.name, x.verdict.bound)] else []
  }

  function DriftEntry(x: Item): seq<Drifted> { if x.verdict.Drift? then [x.verdict.drifted] else [] }

  function SkipEntry(x: Item): seq<Skipped> { if x.verdict.Skip? then [x.verdict.skipped] else [] }

  function Imported(items: seq<Item>, existing: set<string>): seq<PartitionRef> {
    if items == [] then [] else ImportedRef(items[0], existing) + Imported(items[1..], existing)
  }

  function DriftedIn(items: seq<Item>): seq<Drifted> {
    if items == [] then [] else DriftEntry(items[0]) + DriftedIn(items[1..])
  }

  function SkippedIn(items: seq<Item>): seq<Skipped> {
    if items == [] then [] else SkipEntry(items[0]) + SkippedIn(items[1..])
  }

  function FQs(items: seq<Item>): set<string> { set x | x in items :: x.fq }

  function Refs(rows: seq<PartRow>): seq<PartitionRef> {
    seq(|rows|, i requires 0 <= i < |rows| => RefFromMetadata(rows[i]))
  }

  function OrphanRows(listing: seq<PartRow>, items: seq<Item>): seq<PartRow> {
    Filter(listing, (r: PartRow) => r.name !in FQs(items))
  }

  /** The report of a call that finds the parent's rows listed as `listing`. */
  function ReportOf(st: Store, parentId: string, items: seq<Item>, listing: seq<PartRow>): Report {
    Report(Imported(items, NamesOf(st.meta, parentId)), DriftedIn(items),
           Refs(OrphanRows(listing, items)), SkippedIn(items))
  }

  /* ----- convergence ----- */

  /** What importing a child comes to: its tenant is registered and its row is
      there, unless a conflicting row already is. */
  function Absorb(st: Store, parentId: string, x: Item): Store {
    if x.verdict.Aligned?
    then Store(InsertOrIgnore(st.meta, RowFor(parentId, x)), st.tenants + TenantOf(x))
    else st
  }

  function AbsorbAll(st: Store, parentId: string, items: seq<Item>): Store
    decreases |items|
  {
    if items == [] then st else AbsorbAll(Absorb(st, parentId, items[0]), parentId, items[1..])
  }

  predicate Settled(st: Store, parentId: string, x: Item) {
    x.verdict.Aligned? ==> TenantOf(x) <= st.tenants && Blocked(st.meta, RowFor(parentId, x))
  }

  predicate Extends(st: Store, later: Store) { st.meta <= later.meta && st.tenants <= later.tenants }

  lemma {:induction false} ApplyConcat(st: Store, a: seq<Write>, b: seq<Write>)
    ensures ApplyAll(st, a + b) == ApplyAll(ApplyAll(st, a), b)
    decreases |a|
  {
    if a == [] {
      assert a + b == b;
    } else {
      assert (a + b)[0] == a[0] && (a + b)[1..] == a[1..] + b;
      ApplyConcat(Apply(st, a[0]), a[1..], b);
    }
  }

  lemma {:induction false} ApplyExtends(st: Store, ws: seq<Write>)
    ensures Extends(st, ApplyAll(st, ws))
    decreases |ws|
  {
    hide Conflicts;
    if ws != [] {
      ApplyExtends(Apply(st, ws[0]), ws[1..]);
    }
  }

  lemma SettledStays(st: Store, later: Store, parentId: string, x: Item)
    requires Settled(st, parentId, x) && Extends(st, later)
    ensures Settled(later, parentId, x) && Absorb(later, parentId, x) == later
  {
    hide Conflicts, RowFor;
    if x.verdict.Aligned? {
      var r :| r in st.meta && Conflicts(r, RowFor(parentId, x));
      assert r in later.meta;
    }
  }

  lemma AbsorbSettles(st: Store, parentId: string, x: Item)
    ensures Settled(Absorb(st, parentId, x), parentId, x)
    ensures Extends(st, Absorb(st, parentId, x))
  {
    hide RowFor;
    if x.verdict.Aligned? {
      var row := RowFor(parentId, x);
      assert Conflicts(row, row);
      assert !Blocked(st.meta, row) ==> row in Absorb(st, parentId, x).meta;
    }
  }

  /** Some or all of the writes for one child lead where absorbing it leads. */
  lemma WritesAbsorb(st: Store, parentId: string, x: Item, existing: set<string>, known: set<string>, n: nat)
    requires existing <= NamesOf(st.meta, parentId) && known <= st.tenants
    requires n <= |WritesFor(parentId, x, existing, known)|
    ensures var ws := WritesFor(parentId, x, existing, known);
      && Absorb(ApplyAll(st, ws[..n]), parentId, x) == Absorb(st, parentId, x)
      && ApplyAll(st, ws) == Absorb(st, parentId, x)
  {
    var t, r := TenantWrites(x, known), RowWrites(parentId, x, existing);
    var ws := t + r;
    var registered := st.(tenants := st.tenants + TenantOf(x));
    assert ApplyAll(st, t) == registered by {
      assert t != [] ==> t[1..] == [] && TenantOf(x) == {t[0].id};
      assert t == [] ==> st.tenants + TenantOf(x) == st.tenants;
    }
    ApplyConcat(st, t, r);
    assert ApplyAll(registered, r) == Absorb(st, parentId, x) by {
      if x.fq in existing && x.verdict.Aligned? {
        var there :| there in st.meta && there.parentId == parentId && there.name == x.fq;
        assert Conflicts(there, RowFor(parentId, x));
      }
      assert r != [] ==> r[1..] == [];
    }
    AbsorbSettles(st, parentId, x);
    SettledStays(Absorb(st, parentId, x), Absorb(st, parentId, x), parentId, x);
    assert registered.tenants + TenantOf(x) == registered.tenants;
    assert Absorb(registered, parentId, x) == Absorb(st, parentId, x);
    if n == |ws| {
      assert ws[..n] == ws;
    } else if n == 1 {
      assert ws[..n] == t;
    } else {
      assert ws[..n] == [];
    }
  }

  lemma KnownIsRegistered(st: Store, parentId: string, x: Item, existing: set<string>, known: set<string>)
    requires existing <= NamesOf(st.meta, parentId) && known <= st.tenants
    ensures existing <= NamesOf(Absorb(st, parentId, x).meta, parentId)
    ensures known + TenantOf(x) <= Absorb(st, parentId, x).tenants
  {
    hide Conflicts;
    var next := Absorb(st, parentId, x);
    AbsorbSettles(st, parentId, x);
    forall name | name in existing
      ensures name in NamesOf(next.meta, parentId)
    {
      var r :| r in st.meta && r.parentId == parentId && r.name == name;
      assert r in next.meta;
    }
  }

  /** A run cut short after any number of its writes leaves a store from which
      a full run reaches the same store as from the start. */
  lemma {:induction false} CutRunConverges(
    st: Store, parentId: string, items: seq<Item>, existing: set<string>, known: set<string>, n: nat)
    requires existing <= NamesOf(st.meta, parentId) && known <= st.tenants
    requires n <= |Writes(parentId, items, existing, known)|
    ensures var ws := Writes(parentId, items, existing, known);
      && AbsorbAll(ApplyAll(st, ws[..n]), parentId, items) == AbsorbAll(st, parentId, items)
      && ApplyAll(st, ws) == AbsorbAll(st, parentId, items)
    decreases |items|
  {
    hide WritesFor, Absorb, Settled;
    if items != [] {
      var x, rest := items[0], items[1..];
      var own := WritesFor(parentId, x, existing, known);
      var later := Writes(parentId, rest, existing, known + TenantOf(x));
      var ws := own + later;
      var next := Absorb(st, parentId, x);
      WritesAbsorb(st, parentId, x, existing, known, if n < |own| then n else |own|);
      AbsorbSettles(st, parentId, x);
      KnownIsRegistered(st, parentId, x, existing, known);
      ApplyConcat(st, own, later);
      if n < |own| {
        assert ws[..n] == own[..n];
        CutRunConverges(next, parentId, rest, existing, known + TenantOf(x), 0);
      } else {
        var k := n - |own|;
        assert ws[..n] == own + later[..k];
        ApplyConcat(st, own, later[..k]);
        CutRunConverges(next, parentId, rest, existing, known + TenantOf(x), k);
        ApplyExtends(next, later[..k]);
        SettledStays(next, ApplyAll(next, later[..k]), parentId, x);
      }
    }
  }

  /** Importing again after a full run writes nothing new. */
  lemma ImportIsIdempotent(st: Store, parentId: string, items: seq<Item>)
    ensures var done := ApplyAll(st, ImportWrites(st, parentId, items));
      ApplyAll(done, ImportWrites(done, parentId, items)) == done
  {
    hide Writes, ApplyAll, AbsorbAll;
    var ws := ImportWrites(st, parentId, items);
    var done := ApplyAll(st, ws);
    CutRunConverges(st, parentId, items, NamesOf(st.meta, parentId), st.tenants, |ws|);
    assert ws[..|ws|] == ws;
    CutRunConverges(done, parentId, items, NamesOf(done.meta, parentId), done.tenants, 0);
  }

  /** Running again in full after a run cut short anywhere ends where one full
      run ends. */
  lemma ImportSurvivesCuts(st: Store, parentId: string, items: seq<Item>, n: nat)
    requires n <= |ImportWrites(st, parentId, items)|
    ensures var cut := ApplyAll(st, ImportWrites(st, parentId, items)[..n]);
      ApplyAll(cut, ImportWrites(cut, parentId, items)) == ApplyAll(st, ImportWrites(st, parentId, items))
  {
    hide Writes, ApplyAll, AbsorbAll;
    var ws := ImportWrites(st, parentId, items);
    var cut := ApplyAll(st, ws[..n]);
    CutRunConverges(st, parentId, items, NamesOf(st.meta, parentId), st.tenants, n);
    CutRunConverges(cut, parentId, items, NamesOf(cut.meta, parentId), cut.tenants, 0);
  }

  /** Every row of the parent names a registered tenant: the schema's foreign
      key and trigger. */
  predicate TenantsRegistered(st: Store, parentId: string) {
    forall r :: r in st.meta && r.parentId == parentId && r.tenant.Some? ==> r.tenant.value in st.tenants
  }

  lemma RowKeepsRegistered(st: Store, parentId: string, x: Item, existing: set<string>)
    requires TenantsRegistered(st, parentId) && TenantOf(x) <= st.tenants
    ensures TenantsRegistered(ApplyAll(st, RowWrites(parentId, x, existing)), parentId)
    ensures ApplyAll(st, RowWrites(parentId, x, existing)).tenants == st.tenants
  {
    hide Conflicts;
    var r := RowWrites(parentId, x, existing);
    assert r != [] ==> r[1..] == [] && (r[0].row.tenant.Some? ==> r[0].row.tenant.value in TenantOf(x));
  }

  lemma TenantKeepsRegistered(st: Store, parentId: string, x: Item, known: set<string>)
    requires TenantsRegistered(st, parentId) && known <= st.tenants
    ensures var t := TenantWrites(x, known);
      TenantsRegistered(ApplyAll(st, t), parentId) && known + TenantOf(x) <= ApplyAll(st, t).tenants
  {
    var t := TenantWrites(x, known);
    assert t != [] ==> t[1..] == [] && TenantOf(x) == {t[0].id};
  }

  /** No write ever trips over the tenant rule, wherever the run stops. */
  lemma {:induction false} WritesRegisterFirst(
    st: Store, parentId: string, items: seq<Item>, existing: set<string>, known: set<string>, n: nat)
    requires TenantsRegistered(st, parentId) && known <= st.tenants
    requires n <= |Writes(parentId, items, existing, known)|
    ensures TenantsRegistered(ApplyAll(st, Writes(parentId, items, existing, known)[..n]), parentId)
    decreases |items|
  {
    hide TenantsRegistered, TenantOf, TenantWrites, RowWrites;
    var ws := Writes(parentId, items, existing, known);
    if items == [] || n == 0 {
      assert ws[..n] == [];
    } else {
      var x := items[0];
      var t, r := TenantWrites(x, known), RowWrites(parentId, x, existing);
      var later := Writes(parentId, items[1..], existing, known + TenantOf(x));
      var registered := ApplyAll(st, t);
      assert ws == t + r + later;
      OneWriteEach(parentId, x, existing, known);
      TenantKeepsRegistered(st, parentId, x, known);
      RowKeepsRegistered(registered, parentId, x, existing);
      if n <= |t| {
        assert ws[..n] == t;
      } else if n <= |t| + |r| {
        assert ws[..n] == t + r;
        ApplyConcat(st, t, r);
      } else {
        var k := n - |t| - |r|;
        assert ws[..n] == t + r + later[..k];
        ApplyConcat(st, t, r);
        ApplyConcat(st, t + r, later[..k]);
        WritesRegisterFirst(ApplyAll(registered, r), parentId, items[1..], existing, known + TenantOf(x), k);
      }
    }
  }

  lemma OneWriteEach(parentId: string, x: Item, existing: set<string>, known: set<string>)
    ensures |TenantWrites(x, known)| <= 1 && |RowWrites(parentId, x, existing)| <= 1
  {
  }

  /* ----- the second report ----- */

  /** The rows that writes append are the rows they carry. */
  lemma {:induction false} WritesAppend(st: Store, ws: seq<Write>) returns (extra: seq<PartRow>)
    ensures ApplyAll(st, ws).meta == st.meta + extra
    ensures forall r :: r in extra ==> AddRow(r) in ws
    decreases |ws|
  {
    hide Conflicts;
    extra := [];
    if ws != [] {
      var more := WritesAppend(Apply(st, ws[0]), ws[1..]);
      extra := if ws[0].AddRow? && !Blocked(st.meta, ws[0].row) then [ws[0].row] + more else more;
    }
  }

  lemma {:induction false} WritesNameChildren(
    parentId: string, items: seq<Item>, existing: set<string>, known: set<string>, row: PartRow)
    requires AddRow(row) in Writes(parentId, items, existing, known)
    ensures row.name in FQs(items)
    decreases |items|
  {
    assert items[0].fq in FQs(items);
    if AddRow(row) !in WritesFor(parentId, items[0], existing, known) {
      WritesNameChildren(parentId, items[1..], existing, known + TenantOf(items[0]), row);
      assert FQs(items[1..]) <= FQs(items);
    }
  }

  /** Rows that are added change no orphans when they are named after children. */
  lemma OrphansAfter(meta: seq<PartRow>, extra: seq<PartRow>, parentId: string, items: seq<Item>)
    requires forall r :: r in extra ==> r.name in FQs(items)
    ensures OrphanRows(RowsOf(meta + extra, parentId), items) == OrphanRows(RowsOf(meta, parentId), items)
  {
    var orphan := (r: PartRow) => r.name !in FQs(items);
    var own := RowsOf(extra, parentId);
    FilterConcat(meta, extra, (r: PartRow) => r.parentId == parentId);
    FilterConcat(RowsOf(meta, parentId), own, orphan);
    FilterNone(own, orphan);
  }

  /** A later report, after any part of a run, has the same drifted and skipped
      children and the same orphans. */
  lemma ReportRepeats(st: Store, parentId: string, items: seq<Item>, n: nat,
                      listing: seq<PartRow>, relisting: seq<PartRow>)
    requires n <= |ImportWrites(st, parentId, items)|
    requires var later := ApplyAll(st, ImportWrites(st, parentId, items)[..n]);
      Lists(RowsOf(st.meta, parentId), listing) && Lists(RowsOf(later.meta, parentId), relisting)
    ensures var later := ApplyAll(st, ImportWrites(st, parentId, items)[..n]);
      var first, second := ReportOf(st, parentId, items, listing), ReportOf(later, parentId, items, relisting);
      && second.drifted == first.drifted && second.skipped == first.skipped
      && multiset(OrphanRows(relisting, items)) == multiset(OrphanRows(listing, items))
  {
    hide Writes, ApplyAll, Filter, FQs, Imported, DriftedIn, SkippedIn;
    var later := ApplyAll(st, ImportWrites(st, parentId, items)[..n]);
    var extra := WritesAppend(st, ImportWrites(st, parentId, items)[..n]);
    forall r | r in extra ensures r.name in FQs(items) {
      WritesNameChildren(parentId, items, NamesOf(st.meta, parentId), st.tenants, r);
    }
    OrphansAfter(st.meta, extra, parentId, items);
    var orphan := (r: PartRow) => r.name !in FQs(items);
    FilterPermutes(listing, RowsOf(st.meta, parentId), orphan);
    FilterPermutes(relisting, RowsOf(later.meta, parentId), orphan);
  }

  /** An aligned child without a row of its parent. */
  predicate Fresh(st: Store, parentId: string, x: Item) {
    x.verdict.Aligned? && x.fq !in NamesOf(st.meta, parentId)
  }

  /** Nothing in the store stands in the way of any child, nor do two children
      in each other's. */
  predicate Unobstructed(st: Store, parentId: string, items: seq<Item>) {
    && (forall i :: 0 <= i < |items| && Fresh(st, parentId, items[i]) ==> !Blocked(st.meta, RowFor(parentId, items[i])))
    && (forall i, j :: 0 <= i < j < |items| && Fresh(st, parentId, items[i]) && Fresh(st, parentId, items[j]) ==>
          !Conflicts(RowFor(parentId, items[i]), RowFor(parentId, items[j])))
  }

  predicate DistinctFQs(items: seq<Item>) {
    forall i, j :: 0 <= i < j < |items| ==> items[i].fq != items[j].fq
  }

  lemma {:induction false} AbsorbAllNames(st: Store, parentId: string, items: seq<Item>)
    ensures NamesOf(st.meta, parentId) <= NamesOf(AbsorbAll(st, parentId, items).meta, parentId)
    ensures NamesOf(AbsorbAll(st, parentId, items).meta, parentId) <= NamesOf(st.meta, parentId) + FQs(items)
    decreases |items|
  {
    hide Conflicts;
    if items != [] {
      var next := Absorb(st, parentId, items[0]);
      AbsorbSettles(st, parentId, items[0]);
      AbsorbAllNames(next, parentId, items[1..]);
      KnownIsRegistered(st, parentId, items[0], NamesOf(st.meta, parentId), {});
      assert FQs(items) == {items[0].fq} + FQs(items[1..]);
    }
  }

  predicate AllPresent(st: Store, parentId: string, items: seq<Item>) {
    forall i :: 0 <= i < |items| && items[i].verdict.Aligned? ==> items[i].fq in NamesOf(st.meta, parentId)
  }

  /** The first child's part of being unobstructed. */
  lemma UnobstructedStep(st: Store, parentId: string, items: seq<Item>)
    requires items != [] && DistinctFQs(items)
    ensures var next := Absorb(st, parentId, items[0]);
      Unobstructed(st, parentId, items) <==>
      (Fresh(st, parentId, items[0]) ==> !Blocked(st.meta, RowFor(parentId, items[0])))
      && Unobstructed(next, parentId, items[1..])
  {
    hide Conflicts, RowFor;
    var x, rest, next := items[0], items[1..], Absorb(st, parentId, items[0]);
    AbsorbSettles(st, parentId, x);
    forall i | 0 <= i < |rest|
      ensures Fresh(next, parentId, rest[i]) <==> Fresh(st, parentId, rest[i])
    {
      FreshStays(st, parentId, x, rest[i]);
    }
    if Fresh(st, parentId, x) ==> !Blocked(st.meta, RowFor(parentId, x)) {
      forall i | 0 <= i < |rest| && Fresh(st, parentId, rest[i])
        ensures Blocked(next.meta, RowFor(parentId, rest[i])) <==>
          Blocked(st.meta, RowFor(parentId, rest[i]))
          || (Fresh(st, parentId, x) && Conflicts(RowFor(parentId, x), RowFor(parentId, rest[i])))
      {
        BlockedAfter(st, parentId, x, RowFor(parentId, rest[i]));
      }
      assert forall i :: 0 <= i < |rest| ==> rest[i] == items[i + 1];
      if Unobstructed(next, parentId, rest) {
        forall i | 0 <= i < |items| && Fresh(st, parentId, items[i])
          ensures !Blocked(st.meta, RowFor(parentId, items[i]))
        {
          if i > 0 { assert Fresh(next, parentId, rest[i - 1]); }
        }
        forall i, j | 0 <= i < j < |items| && Fresh(st, parentId, items[i]) && Fresh(st, parentId, items[j])
          ensures !Conflicts(RowFor(parentId, items[i]), RowFor(parentId, items[j]))
        {
          assert Fresh(next, parentId, rest[j - 1]);
          if i > 0 { assert Fresh(next, parentId, rest[i - 1]); }
        }
      }
    }
  }

  lemma FreshStays(st: Store, parentId: string, x: Item, y: Item)
    requires x.fq != y.fq
    ensures Fresh(Absorb(st, parentId, x), parentId, y) <==> Fresh(st, parentId, y)
  {
    hide Conflicts;
    AbsorbAllNames(st, parentId, [x]);
    assert [x][1..] == [];
    assert FQs([x]) == {x.fq};
  }

  /** What blocks a row once an unobstructed child is absorbed. */
  lemma BlockedAfter(st: Store, parentId: string, x: Item, row: PartRow)
    requires Fresh(st, parentId, x) ==> !Blocked(st.meta, RowFor(parentId, x))
    ensures Blocked(Absorb(st, parentId, x).meta, row) <==>
      Blocked(st.meta, row) || (Fresh(st, parentId, x) && Conflicts(RowFor(parentId, x), row))
  {
    hide Conflicts;
    var next := Absorb(st, parentId, x);
    if x.verdict.Aligned? {
      var own := RowFor(parentId, x);
      if Fresh(st, parentId, x) {
        assert next.meta == st.meta + [own];
        if Blocked(next.meta, row) {
          var r :| r in next.meta && Conflicts(r, row);
        }
        assert own in next.meta;
        if Blocked(st.meta, row) {
          var r :| r in st.meta && Conflicts(r, row);
          assert r in next.meta;
        }
      } else {
        SameNameBlocks(st, parentId, x);
      }
    }
  }

  lemma SameNameBlocks(st: Store, parentId: string, x: Item)
    requires x.verdict.Aligned? && x.fq in NamesOf(st.meta, parentId)
    ensures Blocked(st.meta, RowFor(parentId, x))
  {
    var r :| r in st.meta && r.parentId == parentId && r.name == x.fq;
    assert Conflicts(r, RowFor(parentId, x));
  }

  /** After a run every aligned child has its row exactly when nothing was in
      the way at the start. */
  lemma {:induction false} PresentIffUnobstructed(st: Store, parentId: string, items: seq<Item>)
    requires DistinctFQs(items)
    ensures AllPresent(AbsorbAll(st, parentId, items), parentId, items) <==> Unobstructed(st, parentId, items)
    decreases |items|
  {
    hide Conflicts, RowFor, Blocked, Unobstructed;
    if items == [] {
      assert Unobstructed(st, parentId, items) by { NothingObstructed(st, parentId); }
    } else {
      var x, rest, next := items[0], items[1..], Absorb(st, parentId, items[0]);
      UnobstructedStep(st, parentId, items);
      PresentIffUnobstructed(next, parentId, rest);
      AbsorbAllNames(next, parentId, rest);
      assert x.fq !in FQs(rest);
      assert x.verdict.Aligned? ==>
        (x.fq in NamesOf(next.meta, parentId) <==> (Fresh(st, parentId, x) ==> !Blocked(st.meta, RowFor(parentId, x)))) by {
        if x.verdict.Aligned? {
          OwnName(st, parentId, x);
        }
      }
      assert forall i :: 0 < i < |items| ==> items[i] == rest[i - 1];
    }
  }

  lemma NothingObstructed(st: Store, parentId: string)
    ensures Unobstructed(st, parentId, [])
  {
  }

  lemma OwnName(st: Store, parentId: string, x: Item)
    requires x.verdict.Aligned?
    ensures x.fq in NamesOf(Absorb(st, parentId, x).meta, parentId) <==>
      (Fresh(st, parentId, x) ==> !Blocked(st.meta, RowFor(parentId, x)))
  {
    hide Conflicts;
    var next := Absorb(st, parentId, x);
    if Fresh(st, parentId, x) {
      if !Blocked(st.meta, RowFor(parentId, x)) {
        assert RowFor(parentId, x) in next.meta;
      }
    } else {
      SameNameBlocks(st, parentId, x);
    }
  }

  lemma {:induction false} ImportedEmpty(items: seq<Item>, existing: set<string>)
    ensures Imported(items, existing) == [] <==>
      forall i :: 0 <= i < |items| && items[i].verdict.Aligned? ==> items[i].fq in existing
  {
    if items != [] {
      ImportedEmpty(items[1..], existing);
      assert forall i :: 0 < i < |items| ==> items[i] == items[1..][i - 1];
    }
  }

  /** The second of two imports reports nothing imported exactly when no row and
      no other child stood in the way of a new child at the start. */
  lemma SecondImportIsQuiet(st: Store, parentId: string, items: seq<Item>)
    requires DistinctFQs(items)
    ensures var done := ApplyAll(st, ImportWrites(st, parentId, items));
      Imported(items, NamesOf(done.meta, parentId)) == [] <==> Unobstructed(st, parentId, items)
  {
    hide Writes, ApplyAll, AbsorbAll, Unobstructed;
    var ws := ImportWrites(st, parentId, items);
    var done := ApplyAll(st, ws);
    CutRunConverges(st, parentId, items, NamesOf(st.meta, parentId), st.tenants, |ws|);
    PresentIffUnobstructed(st, parentId, items);
    ImportedEmpty(items, NamesOf(done.meta, parentId));
  }

  /* ----- the import itself ----- */

  /** The metadata database as one parent's import sees it. */
  class Database {
    var meta: seq<PartRow>
    var tenants: set<string>

    constructor (meta: seq<PartRow>, tenants: set<string>)
      ensures Contents() == Store(meta, tenants)
    {
      this.meta, this.tenants := meta, tenants;
    }

    function Contents(): Store
      reads this
    {
      Store(meta, tenants)
    }

    /** One write, unless the connection has given out. */
    method Perform(w: Write, connected: bool) returns (ok: bool)
      modifies this
      ensures ok == connected
      ensures Contents() == if ok then Apply(old(Contents()), w) else old(Contents())
    {
      if !connected {
        return false;
      }
      match w {
        case AddTenant(id) => tenants := tenants + {id};
        case AddRow(row) => meta := InsertOrIgnore(meta, row);
      }
      return true;
    }

    /** The writes for one child; `budget` is how many the connection still
        carries.  Returns how many were done. */
    method WriteChild(parentId: string, x: Item, existing: set<string>, known: set<string>, budget: Option<nat>)
      returns (done: nat)
      modifies this
      ensures var ws := WritesFor(parentId, x, existing, known);
        && done == (if budget.Some? && budget.value < |ws| then budget.value else |ws|)
        && Contents() == ApplyAll(old(Contents()), ws[..done])
    {
      hide Conflicts, RowFor, TenantOf;
      done := 0;
      var t, r := TenantWrites(x, known), RowWrites(parentId, x, existing);
      ghost var ws := t + r;
      ghost var st := Contents();
      assert ws[..0] == [];
      if t != [] {
        var ok := Perform(t[0], budget != Some(0));
        if !ok {
          return;
        }
        WriteNext(st, ws, 0);
        done := 1;
      }
      if r != [] {
        var ok := Perform(r[0], budget != Some(done));
        if !ok {
          return;
        }
        WriteNext(st, ws, done);
        done := done + 1;
      }
    }

    /** The main pass over the children; `cut` is the number of writes after
        which the connection gives out. */
    method MainPass(parentId: string, children: seq<Child>, existing: set<string>, cut: Option<nat>)
      returns (ok: bool, report: Report)
      requires existing == NamesOf(meta, parentId)
      modifies this
      ensures var ws := ImportWrites(old(Contents()), parentId, Items(children));
        if cut.Some? && cut.value < |ws| then
          !ok && Contents() == ApplyAll(old(Contents()), ws[..cut.value])
        else
          ok && Contents() == ApplyAll(old(Contents()), ws)
      ensures ok ==> report == ReportFrom(Report([], [], [], []), Items(children), existing)
    {
      hide Classify, ApplyAll, ReportFrom, AddVerdict, TenantOf, ImportWrites, WritesFor, Writes;
      ghost var st := Contents();
      ghost var items := Items(children);
      ghost var ws := ImportWrites(st, parentId, items);
      StartOfWrites(st, parentId, items);
      var known := tenants;
      var written := 0;
      report := Report([], [], [], []);
      for i := 0 to |children|
        invariant written <= |ws| && ws[written..] == Writes(parentId, items[i..], existing, known)
        invariant Contents() == ApplyAll(st, ws[..written])
        invariant cut.Some? ==> written <= cut.value
        invariant ReportFrom(report, items[i..], existing) == ReportFrom(Report([], [], [], []), items, existing)
      {
        var x := Item(children[i].FQ(), Classify(children[i]));
        ghost var own := WritesFor(parentId, x, existing, known);
        assert items[i..][0] == x && items[i..][1..] == items[i + 1..];
        ReportStep(report, items[i..], existing);
        WritesHead(parentId, items[i..], existing, known);
        SplitHead(ws, written, own, Writes(parentId, items[i + 1..], existing, known + TenantOf(x)));
        var done := WriteChild(parentId, x, existing, known, if cut.Some? then Some(cut.value - written) else None);
        HeadTaken(ws, written, own, done);
        ApplyConcat(st, ws[..written], own[..done]);
        if cut.Some? && written + done == cut.value && |WritesFor(parentId, x, existing, known)| > done {
          return false, report;
        }
        written := written + done;
        known := known + TenantOf(x);
        report := AddVerdict(report, x, existing);
      }
      NoWrites(parentId, items[|children|..], existing, known);
      assert ws[..written] == ws;
      ReportDone(report, existing);
      ok := true;
    }

    /** Import: checks every interval first, then takes the children in turn. */
    method Import(parentId: string, k: Kind, children: seq<Child>, cut: Option<nat>)
      returns (r: Result<Report, ImportError>)
      modifies this
      ensures r.Err? && r.error.IntervalMismatch? <==> exists c :: c in children && IsMismatch(k, c)
      ensures r.Err? && r.error.IntervalMismatch? ==>
        Contents() == old(Contents()) && FirstOff(k, children, r.error.child)
      ensures !(r.Err? && r.error.IntervalMismatch?) ==>
        var ws := ImportWrites(old(Contents()), parentId, Items(children));
        if cut.Some? && cut.value < |ws| then
          Contents() == ApplyAll(old(Contents()), ws[..cut.value]) && r == Err(WriteFailed)
        else
          && Contents() == ApplyAll(old(Contents()), ws)
          && exists listing :: Lists(RowsOf(old(meta), parentId), listing)
                            && r == Ok(ReportOf(old(Contents()), parentId, Items(children), listing))
    {
      hide OffInterval, IsMismatch, Classify, ApplyAll, ImportWrites, ReportFrom, ReportOf, Lists, Items;
      var off := Preflight(k, children);
      if off.Some? {
        return Err(IntervalMismatch(off.value));
      }
      var listing := OrderByFrom(RowsOf(meta, parentId));
      var existing := IndexByName(listing);
      ListedNames(meta, parentId, listing);
      ghost var items := Items(children);
      var ok, report := MainPass(parentId, children, existing.Keys, cut);
      if !ok {
        return Err(WriteFailed);
      }
      var orphaned := FindOrphans(listing, children);
      r := Ok(report.(orphaned := orphaned));
      PartsOfReport(old(Contents()), parentId, items, listing);
    }
  }

  lemma WritesHead(parentId: string, items: seq<Item>, existing: set<string>, known: set<string>)
    requires items != []
    ensures Writes(parentId, items, existing, known)
         == WritesFor(parentId, items[0], existing, known) + Writes(parentId, items[1..], existing, known + TenantOf(items[0]))
  {
  }

  lemma NoWrites(parentId: string, items: seq<Item>, existing: set<string>, known: set<string>)
    requires items == []
    ensures Writes(parentId, items, existing, known) == []
  {
  }

  lemma SplitHead(ws: seq<Write>, n: nat, own: seq<Write>, later: seq<Write>)
    requires n <= |ws| && ws[n..] == own + later
    ensures own <= ws[n..] && n + |own| <= |ws| && ws[n + |own|..] == later
  {
    assert ws[n + |own|..] == ws[n..][|own|..];
  }

  lemma HeadTaken(ws: seq<Write>, n: nat, own: seq<Write>, d: nat)
    requires n <= |ws| && own <= ws[n..] && d <= |own|
    ensures n + d <= |ws| && ws[..n + d] == ws[..n] + own[..d]
  {
  }

  /** A report with the verdicts on the children still to come added. */
  function ReportFrom(report: Report, items: seq<Item>, existing: set<string>): Report {
    Report(report.imported + Imported(items, existing), report.drifted + DriftedIn(items),
           report.orphaned, report.skipped + SkippedIn(items))
  }

  function AddVerdict(report: Report, x: Item, existing: set<string>): Report {
    report.(imported := report.imported + ImportedRef(x, existing),
            drifted := report.drifted + DriftEntry(x),
            skipped := report.skipped + SkipEntry(x))
  }

  lemma ReportStep(report: Report, items: seq<Item>, existing: set<string>)
    requires items != []
    ensures ReportFrom(AddVerdict(report, items[0], existing), items[1..], existing) == ReportFrom(report, items, existing)
  {
    var x, rest := items[0], items[1..];
    assert Imported(items, existing) == ImportedRef(x, existing) + Imported(rest, existing);
    assert DriftedIn(items) == DriftEntry(x) + DriftedIn(rest);
    assert SkippedIn(items) == SkipEntry(x) + SkippedIn(rest);
    hide ImportedRef, DriftEntry, SkipEntry, Imported, DriftedIn, SkippedIn;
    Associate(report.imported, ImportedRef(x, existing), Imported(rest, existing));
    Associate(report.drifted, DriftEntry(x), DriftedIn(rest));
    Associate(report.skipped, SkipEntry(x), SkippedIn(rest));
  }

  lemma Associate<T>(a: seq<T>, b: seq<T>, c: seq<T>)
    ensures (a + b) + c == a + (b + c)
  {
  }

  lemma ReportDone(report: Report, existing: set<string>)
    ensures ReportFrom(report, [], existing) == report
  {
  }

  lemma PartsOfReport(st: Store, parentId: string, items: seq<Item>, listing: seq<PartRow>)
    ensures ReportOf(st, parentId, items, listing) ==
      ReportFrom(Report([], [], [], []), items, NamesOf(st.meta, parentId))
        .(orphaned := Refs(OrphanRows(listing, items)))
  {
  }

  lemma StartOfWrites(st: Store, parentId: string, items: seq<Item>)
    ensures var ws := ImportWrites(st, parentId, items);
      ws[0..] == Writes(parentId, items[0..], NamesOf(st.meta, parentId), st.tenants)
      && ApplyAll(st, ws[..0]) == st
  {
    assert items[0..] == items;
  }

  /** The first child, in listing order, whose range is not one period long. */
  predicate FirstOff(k: Kind, children: seq<Child>, c: Child) {
    exists i :: 0 <= i < |children| && children[i] == c && IsMismatch(k, c)
                && forall j :: 0 <= j < i ==> !IsMismatch(k, children[j])
  }

  /** Looks for a child to stop at, before anything is written. */
  method Preflight(k: Kind, children: seq<Child>) returns (off: Option<Child>)
    ensures off.Some? <==> exists c :: c in children && IsMismatch(k, c)
    ensures off.Some? ==> FirstOff(k, children, off.value)
  {
    hide OffInterval, IsMismatch;
    for i := 0 to |children|
      invariant forall j :: 0 <= j < i ==> !IsMismatch(k, children[j])
    {
      OffIntervalIff(k, children[i]);
      if OffInterval(k, children[i]) {
        return Some(children[i]);
      }
    }
    return None;
  }

  method IndexByName(listing: seq<PartRow>) returns (byName: map<string, PartRow>)
    ensures byName.Keys == set r | r in listing :: r.name
    ensures forall name :: name in byName ==> byName[name] in listing && byName[name].name == name
  {
    byName := map[];
    for i := 0 to |listing|
      invariant byName.Keys == set r | r in listing[..i] :: r.name
      invariant forall name :: name in byName ==> byName[name] in listing && byName[name].name == name
    {
      assert listing[..i + 1] == listing[..i] + [listing[i]];
      byName := byName[listing[i].name := listing[i]];
    }
    assert listing[..|listing|] == listing;
  }

  /** Metadata rows whose name no child has. */
  method FindOrphans(listing: seq<PartRow>, children: seq<Child>) returns (orphaned: seq<PartitionRef>)
    ensures orphaned == Refs(OrphanRows(listing, Items(children)))
  {
    hide Classify, RefFromMetadata, OrphanRows, FQs, Refs;
    ghost var items := Items(children);
    var seen := set c | c in children :: c.FQ();
    NamesSeen(children);
    orphaned := [];
    NoOrphans(items);
    for i := 0 to |listing|
      invariant orphaned == Refs(OrphanRows(listing[..i], items))
    {
      OrphanNext(listing, items, i);
      if listing[i].name !in seen {
        orphaned := orphaned + [RefFromMetadata(listing[i])];
      }
    }
    assert listing[..|listing|] == listing;
  }

  lemma NamesSeen(children: seq<Child>)
    ensures (set c | c in children :: c.FQ()) == FQs(Items(children))
  {
    hide Classify;
    var items := Items(children);
    assert forall i :: 0 <= i < |children| ==>
      children[i].FQ() == items[i].fq && children[i] in children && items[i] in items;
  }

  lemma NoOrphans(items: seq<Item>)
    ensures Refs(OrphanRows([], items)) == []
  {
  }

  lemma OrphanNext(listing: seq<PartRow>, items: seq<Item>, i: nat)
    requires i < |listing|
    ensures Refs(OrphanRows(listing[..i + 1], items))
         == Refs(OrphanRows(listing[..i], items)) + if listing[i].name in FQs(items) then [] else [RefFromMetadata(listing[i])]
  {
    hide RefFromMetadata, FQs;
    assert listing[..i + 1] == listing[..i] + [listing[i]];
    FilterConcat(listing[..i], [listing[i]], (r: PartRow) => r.name !in FQs(items));
  }

  lemma WriteNext(st: Store, ws: seq<Write>, w: nat)
    requires w < |ws|
    ensures ApplyAll(st, ws[..w + 1]) == Apply(ApplyAll(st, ws[..w]), ws[w])
  {
    assert ws[..w + 1] == ws[..w] + [ws[w]];
    ApplyConcat(st, ws[..w], [ws[w]]);
  }

  lemma ListedNames(meta: seq<PartRow>, parentId: string, listing: seq<PartRow>)
    requires Lists(RowsOf(meta, parentId), listing)
    ensures (set r | r in listing :: r.name) == NamesOf(meta, parentId)
  {
    forall r ensures r in listing <==> r in RowsOf(meta, parentId) {
      assert r in listing <==> r in multiset(listing);
      assert r in RowsOf(meta, parentId) <==> r in multiset(RowsOf(meta, parentId));
    }
  }
}
