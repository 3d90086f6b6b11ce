/** Creating the partitions a parent should have. */
module Provisioner {
  import opened Wrappers
  import opened Calendar
  import opened Periods
  import opened Text
  import opened Naming
  import opened Metadata
  import opened Retry
  import opened Catalog

  datatype EnsureError = TenantRequired | TenantNotAllowed | UnknownInterval | CreateFailed(cause: RetryError)

  datatype EnsureReport = EnsureReport(boundedCreated: nat, defaultCreated: bool)

  const NOTHING_CREATED := EnsureReport(0, false)

  /** An active row of a tenant and range. */
  predicate IsActiveFor(r: PartRow, tenant: Option<string>, b: Bounds) {
    !r.isDefault && r.status == Active && TextOf(r.tenant) == TextOf(tenant) && r.bounds == b
  }

  /** The parent has an active row of the tenant and range. */
  predicate HasActive(p: Parent, meta: seq<PartRow>, tenant: Option<string>, b: Bounds) {
    exists r :: r in meta && r.parentId == p.id && IsActiveFor(r, tenant, b)
  }

  predicate HasDefault(p: Parent, meta: seq<PartRow>) {
    exists r :: r in meta && r.parentId == p.id && r.tenant == None && r.isDefault
  }

  /** The required windows the tenant has no active row for. */
  function ToCreate(p: Parent, grid: Grid, meta: seq<PartRow>, now: Instant, tenant: Option<string>): seq<Bounds> {
    Filter(Windows(grid, now, p.premake + 1), b => !HasActive(p, meta, tenant, b))
  }

  /** The bounds of a tenant's active bounded rows, from the listing of the
      parent's. */
  method BuildExistingSet(p: Parent, rows: seq<PartRow>, tenant: Option<string>) returns (out: set<Bounds>)
    requires forall r :: r in rows ==> r.parentId == p.id
    ensures forall b :: b in out <==> HasActive(p, rows, tenant, b)
  {
    out := {};
    for i := 0 to |rows|
      invariant forall b :: b in out <==> HasActive(p, rows[..i], tenant, b)
    {
      var ep := rows[i];
      ghost var was := out;
      assert rows[..i + 1] == rows[..i] + [ep];
      if !ep.isDefault && ep.status == Active && TextOf(ep.tenant) == TextOf(tenant) {
        assert IsActiveFor(ep, tenant, ep.bounds);
        out := out + {ep.bounds};
      }
      forall b
        ensures b in out <==> HasActive(p, rows[..i + 1], tenant, b)
      {
        assert HasActive(p, rows[..i + 1], tenant, b) <==> HasActive(p, rows[..i], tenant, b) || IsActiveFor(ep, tenant, b);
      }
    }
    assert rows[..|rows|] == rows;
  }

  /* ----- the transaction ----- */

  /** One bounded partition: its table, then its row. */
  function CreateBounded(p: Parent, st: Store, tenant: Option<string>, b: Bounds): Option<Store> {
    match PartName(p, TextOf(tenant), b, false)
    case Err(_) => None
    case Ok(fq) => (
      match SplitFQ(fq)
      case None => None
      case Some(id) =>
        var part := Ranged(p.id, if TextOf(tenant) == "" then None else tenant, b);
        Created(p, st, id, part, PartRow(fq, p.id, tenant, b, false, Active)))
  }

  /** The default partition. */
  function CreateDefault(p: Parent, st: Store): Option<Store> {
    match PartName(p, "", ZERO_BOUNDS, true)
    case Err(_) => None
    case Ok(fq) => (
      match SplitFQ(fq)
      case None => None
      case Some(id) => Created(p, st, id, DefaultPart(p.id), PartRow(fq, p.id, None, ZERO_BOUNDS, true, Active)))
  }

  function Created(p: Parent, st: Store, id: TableId, part: Attachment, row: PartRow): Option<Store> {
    match CreatePartitionOf(p, st, id, part)
    case None => None
    case Some(mid) => (
      match UpsertPartition(mid, row)
      case None => None
      case Some(meta) => Some(mid.(meta := meta)))
  }

  function CreateAll(p: Parent, st: Store, tenant: Option<string>, bs: seq<Bounds>): Option<Store>
    decreases |bs|
  {
    if bs == [] then Some(st)
    else
      match CreateBounded(p, st, tenant, bs[0])
      case None => None
      case Some(next) => CreateAll(p, next, tenant, bs[1..])
  }

  function CreateTx(p: Parent, st: Store, tenant: Option<string>, bs: seq<Bounds>, needDefault: bool): Option<Store> {
    match CreateAll(p, st, tenant, bs)
    case None => None
    case Some(next) => if needDefault then CreateDefault(p, next) else Some(next)
  }

  /** createInTx: every statement in turn; the result is committed, or nothing. */
  method CreateInTx(p: Parent, st: Store, tenant: Option<string>, toCreate: seq<Bounds>, needDefault: bool)
    returns (next: Option<Store>)
    ensures next == CreateTx(p, st, tenant, toCreate, needDefault)
  {
    hide CreateBounded, CreateDefault;
    var tx := st;
    for i := 0 to |toCreate|
      invariant CreateAll(p, st, tenant, toCreate) == CreateAll(p, tx, tenant, toCreate[i..])
    {
      match CreateBounded(p, tx, tenant, toCreate[i]) {
        case None => return None;
        case Some(s) =>
          assert toCreate[i..][1..] == toCreate[i + 1..];
          tx := s;
      }
    }
    if needDefault {
      next := CreateDefault(p, tx);
    } else {
      next := Some(tx);
    }
  }

  /* ----- the whole call ----- */

  predicate TenantMatches(p: Parent, tenant: Option<string>) { tenant.Some? <==> p.tenanted }

  /** What one call may do: nothing, everything it set out to do, or fail and
      change nothing. */
  ghost predicate EnsureStep(p: Parent, grid: Grid, st: Store, after: Store, now: Instant, tenant: Option<string>,
                             err: Option<EnsureError>, report: EnsureReport)
  {
    var todo, need := ToCreate(p, grid, st.meta, now, tenant), !HasDefault(p, st.meta);
    if err.Some? then after == st && report == NOTHING_CREATED
    else
      && TenantMatches(p, tenant) && report == EnsureReport(|todo|, need)
      && if todo == [] && !need then after == st else CreateTx(p, st, tenant, todo, need) == Some(after)
  }

  /** The windows to create, and whether the default is to be created too. */
  method PlanCreation(p: Parent, k: Kind, meta: seq<PartRow>, now: Instant, tenant: Option<string>)
    returns (todo: seq<Bounds>, need: bool)
    ensures todo == ToCreate(p, CalendarGrid(k), meta, now, tenant) && need == !HasDefault(p, meta)
  {
    hide PeriodOf, Windows, IsActiveFor;
    var required := NextBoundsUTC(now, IntervalOf(k), p.premake + 1);
    LabelledInterval(k);
    NoWindows(CalendarGrid(k), now, p.premake + 1);
    assert required == Some(Windows(CalendarGrid(k), now, p.premake + 1));
    var rows := OrderByFrom(RowsOf(meta, p.id));
    SameRows(p, rows, meta, tenant);
    var existing := BuildExistingSet(p, rows, tenant);
    todo := Filter(required.value, b => b !in existing);
    FilterAgrees(required.value, b => b !in existing, b => !HasActive(p, meta, tenant, b));
    need := !HasDefault(p, meta);
  }

  method EnsurePartitions(db: Database, p: Parent, now: Instant, tenant: Option<string>,
                          attempt: nat -> Attempt, cancelled: nat -> bool)
    returns (err: Option<EnsureError>, report: EnsureReport)
    modifies db
    ensures KindFromLabel(p.interval).None? ==> err.Some? && db.Stored() == old(db.Stored()) && report == NOTHING_CREATED
    ensures KindFromLabel(p.interval).Some? ==>
      EnsureStep(p, CalendarGrid(KindFromLabel(p.interval).value), old(db.Stored()), db.Stored(), now, tenant, err, report)
    ensures err == Some(TenantRequired) <==> p.tenanted && tenant.None?
    ensures err == Some(TenantNotAllowed) <==> !p.tenanted && tenant.Some?
    ensures err == Some(UnknownInterval) <==> TenantMatches(p, tenant) && KindFromLabel(p.interval).None?
    ensures var k, meta := KindFromLabel(p.interval), old(db.meta);
      k.Some? && TenantMatches(p, tenant) ==>
        var todo, need := ToCreate(p, CalendarGrid(k.value), meta, now, tenant), !HasDefault(p, meta);
        (err.None? <==>
           (todo == [] && !need)
           || (GoesThrough(attempt, cancelled) && CreateTx(p, old(db.Stored()), tenant, todo, need).Some?))
  {
    hide CreateTx, GoesThrough, PeriodOf, ToCreate, HasDefault;
    if p.tenanted && tenant.None? {
      return Some(TenantRequired), NOTHING_CREATED;
    }
    if !p.tenanted && tenant.Some? {
      return Some(TenantNotAllowed), NOTHING_CREATED;
    }
    match KindFromLabel(p.interval) {
      case None => return Some(UnknownInterval), NOTHING_CREATED;
      case Some(k) =>
        var todo, need := PlanCreation(p, k, db.meta, now, tenant);
        if todo == [] && !need {
          return None, NOTHING_CREATED;
        }
        var next := CreateInTx(p, db.Stored(), tenant, todo, need);
        var e, _ := RunTx(next.Some?, attempt, cancelled);
        if e.Some? {
          return Some(CreateFailed(e.value)), NOTHING_CREATED;
        }
        db.Commit(next.value);
        return None, EnsureReport(|todo|, need);
    }
  }

  lemma LabelledInterval(k: Kind)
    ensures KindFromDuration(IntervalOf(k)) == Some(k)
  {
  }

  lemma NoWindows(grid: Grid, t: Instant, count: int)
    ensures count <= 0 ==> Windows(grid, t, count) == []
  {
  }

  lemma SameRows(p: Parent, rows: seq<PartRow>, meta: seq<PartRow>, tenant: Option<string>)
    requires Lists(RowsOf(meta, p.id), rows)
    ensures forall r :: r in rows <==> r in meta && r.parentId == p.id
    ensures forall b :: HasActive(p, rows, tenant, b) <==> HasActive(p, meta, tenant, b)
  {
    forall r
      ensures r in rows <==> r in RowsOf(meta, p.id)
    {
      assert r in multiset(rows) <==> r in multiset(RowsOf(meta, p.id));
    }
  }

  lemma {:induction false} FilterAgrees<T(!new)>(s: seq<T>, keep: T -> bool, also: T -> bool)
    requires forall x :: x in s ==> keep(x) == also(x)
    ensures Filter(s, keep) == Filter(s, also)
  {
    if s != [] {
      FilterAgrees(s[1..], keep, also);
    }
  }
}
