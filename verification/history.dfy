/** Runs of maintenance over all the parents of one database. */
module History {
  import opened Wrappers
  import opened Calendar
  import opened Periods
  import opened BoundText
  import opened Metadata
  import opened Catalog
  import opened Provisioner
  import opened Retention
  import opened Consistency
  import opened Maintenance
  import opened Reimport
  import opened Races
  import opened Waiting
  import Importer

  /** The windows of a parent; an unknown interval has no windows of its own. */
  function GridOf(p: Parent): Grid {
    CalendarGrid(if KindFromLabel(p.interval).Some? then KindFromLabel(p.interval).value else Daily)
  }

  /** A parent whose promises can be kept: its windows start at midnight, and its
      retention never reaches into the future. */
  ghost predicate Sound(p: Parent) {
    KindFromLabel(p.interval).Some? && KindFromLabel(p.interval) != Some(Hourly) && Reasonable(p.retention)
  }

  lemma SoundGrid(p: Parent)
    requires Sound(p)
    ensures DayGrid(GridOf(p))
  {
    hide DayGrid, CalendarGrid;
    CalendarIsDayGrid(KindFromLabel(p.interval).value);
  }

  /** Parents that stay out of each other's way. */
  ghost predicate Managed(ps: set<Parent>) {
    (forall p :: p in ps ==> Sound(p)) && forall p, q :: p in ps && q in ps && p != q ==> Apart(p, q)
  }

  ghost predicate AllConsistent(ps: set<Parent>, st: Store, now: Instant) {
    forall p :: p in ps ==> Consistent(p, GridOf(p), st, now)
  }

  /** One call for a parent, with the clock it reads and what it returns; a commit
      of what some earlier call had planned; or what users and operators do to its
      rows and its default. */
  datatype Call =
    | Ensuring(p: Parent, now: Instant, tenant: Option<string>, err: Option<EnsureError>, ensured: EnsureReport)
    | Sweeping(p: Parent, now: Instant, dryRun: bool, hook: Hook, through: nat -> bool, swept: SweepReport)
    | SweepingCut(p: Parent, now: Instant, dryRun: bool, hook: Hook, through: nat -> bool)
    | Importing(p: Parent, now: Instant, zone: Zone, children: seq<Importer.Child>, written: nat)
    | Registering(p: Parent, now: Instant, name: string)
    | Committing(p: Parent, now: Instant, tenant: Option<string>, planned: seq<Bounds>, need: bool, goes: bool)
    | Inserting(p: Parent, now: Instant, slot: Slot)
    | Draining(p: Parent, now: Instant)
    | DetachingDefault(p: Parent, now: Instant)
    | AttachingDefault(p: Parent, now: Instant)

  /** The row of a newly registered tenant. */
  function WithTenant(p: Parent, st: Store, tenant: string): Store {
    st.(tenants := st.tenants[p.id := TenantsOf(st, p.id) + {tenant}])
  }

  ghost predicate Step(st: Store, c: Call, after: Store) {
    match c
    case Ensuring(p, now, tenant, err, report) => EnsureStep(p, GridOf(p), st, after, now, tenant, err, report)
    case Sweeping(p, now, dryRun, hook, goes, report) => SweepStep(p, st, after, now, dryRun, hook, goes, report)
    case SweepingCut(p, now, dryRun, hook, goes) => SweepCut(p, st, after, now, dryRun, hook, goes)
    case Importing(p, now, zone, children, written) => ImportStep(p, st, after, zone, children, written)
    case Registering(p, now, tenant) => after == WithTenant(p, st, tenant)
    case Committing(p, now, tenant, planned, need, goes) =>
      if goes then CreateTx(p, st, tenant, planned, need) == Some(after) else after == st
    case Inserting(p, now, slot) => after == Insert(p, st, slot)
    case Draining(p, now) => Drained(p, GridOf(p), st, after)
    case DetachingDefault(p, now) => DetachesDefault(p, st, after)
    case AttachingDefault(p, now) => AttachesDefault(p, st, after)
  }

  /** What the code leaves to its callers: names that fit, tenants that are told
      apart by more than their case, and a plan none of whose windows has been
      retired away before it is committed. */
  ghost predicate Careful(st: Store, c: Call) {
    match c
    case Ensuring(p, now, tenant, _, _) => NamesFit(p, GridOf(p), now, tenant)
    case Importing(p, _, zone, _, _) => UpperTenants(p, st, zone)
    case Registering(p, _, tenant) => TenantsTold(TenantsOf(st, p.id) + {tenant})
    case Committing(p, _, tenant, planned, _, _) =>
      IsPlan(p, GridOf(p), tenant, planned) && forall b :: b in planned ==> Intact(p, st, tenant, b)
    case _ => true
  }

  lemma RegisterKeeps(p: Parent, grid: Grid, st: Store, now: Instant, tenant: string)
    requires Consistent(p, grid, st, now) && TenantsTold(TenantsOf(st, p.id) + {tenant})
    ensures Consistent(p, grid, WithTenant(p, st, tenant), now) && Within(p, st, WithTenant(p, st, tenant))
  {
    hide Consistent, Owns, TenantsTold;
    MoreTenants(p, grid, st, WithTenant(p, st, tenant), now);
  }

  lemma SameRows(st: Store, c: Call, after: Store)
    requires (c.DetachingDefault? || c.AttachingDefault?) && Step(st, c, after)
    ensures after.meta == st.meta
  {
    hide Attachable, IsDefaultId;
  }

  lemma CommitCallKeeps(st: Store, c: Call, after: Store)
    requires c.Committing? && Sound(c.p) && Consistent(c.p, GridOf(c.p), st, c.now) && Step(st, c, after) && Careful(st, c)
    ensures Consistent(c.p, GridOf(c.p), after, c.now) && Within(c.p, st, after) && WaitingKept(c.p, st, after)
    ensures forall r :: r in st.meta ==> r in after.meta
  {
    hide Consistent, DayGrid, Sound, GridOf, Within, CreateTx, IsPlan, Intact;
    SoundGrid(c.p);
    if c.goes {
      CommitKeepsIff(c.p, GridOf(c.p), st, after, c.now, c.tenant, c.planned, c.need);
    } else {
      WithinItself(c.p, st);
    }
  }

  /** One call keeps its own parent in order and touches no other. */
  lemma CallKeeps(st: Store, c: Call, after: Store, since: Instant)
    requires Sound(c.p) && Consistent(c.p, GridOf(c.p), st, since) && since <= c.now && Step(st, c, after) && Careful(st, c)
    ensures Consistent(c.p, GridOf(c.p), after, c.now) && Within(c.p, st, after)
    ensures c.Ensuring? || c.Sweeping? || c.SweepingCut? ==> after.tenants == st.tenants
    ensures forall r :: r in st.meta && (r.isDefault || r.bounds.to > c.now) ==> r in after.meta
  {
    hide Consistent, DayGrid, Reasonable, EnsureStep, SweepStep, SweepCut, GridOf, Within, NamesFit, UpperTenants,
      ImportStep, TenantsTold;
    SoundGrid(c.p);
    LaterStaysConsistent(c.p, GridOf(c.p), st, since, c.now);
    match c
    case Ensuring(p, now, tenant, err, report) => EnsureKeeps(p, GridOf(p), st, after, now, tenant, err, report);
    case Sweeping(p, now, dryRun, hook, goes, report) =>
      SweepKeeps(p, GridOf(p), st, after, now, dryRun, hook, goes, report);
    case SweepingCut(p, now, dryRun, hook, goes) => SweepCutKeeps(p, GridOf(p), st, after, now, dryRun, hook, goes);
    case Importing(p, now, zone, children, written) => ImportKeeps(p, GridOf(p), st, after, now, zone, children, written);
    case Registering(p, now, tenant) => RegisterKeeps(p, GridOf(p), st, now, tenant);
    case Committing(p, now, tenant, planned, need, goes) => CommitCallKeeps(st, c, after);
    case Inserting(p, now, slot) => InsertKeeps(p, GridOf(p), st, now, slot);
    case Draining(p, now) => DrainKeeps(p, GridOf(p), st, after, now);
    case DetachingDefault(p, now) =>
      DetachKeeps(p, GridOf(p), st, after, now);
      SameRows(st, c, after);
    case AttachingDefault(p, now) =>
      AttachKeeps(p, GridOf(p), st, after, now);
      SameRows(st, c, after);
  }

  lemma ConsistentParts(p: Parent, grid: Grid, st: Store, now: Instant)
    requires Consistent(p, grid, st, now)
    ensures UniqueNames(st.meta) && forall r :: r in st.meta && r.parentId == p.id ==> IsPartName(p, r.name)
  {
    hide RowFits, IsPartName, Placed, ChildrenKnown, NamesKnown, NamesFree, UniqueNames, TenantsTold;
    forall r | r in st.meta && r.parentId == p.id
      ensures IsPartName(p, r.name)
    {
      assert RowOK(p, grid, st, r, now);
      RowSplits(p, grid, TenantsOf(st, p.id), r);
    }
  }

  /** What EnsurePartitions leaves of the default. */
  lemma EnsureCallWaits(st: Store, c: Call, after: Store, since: Instant)
    requires c.Ensuring? && Sound(c.p) && Consistent(c.p, GridOf(c.p), st, since) && since <= c.now
    requires Step(st, c, after) && Careful(st, c)
    ensures WaitingKept(c.p, st, after)
  {
    hide Consistent, DayGrid, Sound, EnsureStep, GridOf, Within, NamesFit, HasActive, Windows, WaitingKept;
    SoundGrid(c.p);
    LaterStaysConsistent(c.p, GridOf(c.p), st, since, c.now);
    EnsureKeeps(c.p, GridOf(c.p), st, after, c.now, c.tenant, c.err, c.ensured);
  }

  /** One call keeps every parent in order. */
  lemma StepKeeps(ps: set<Parent>, st: Store, c: Call, after: Store, since: Instant)
    requires Managed(ps) && AllConsistent(ps, st, since) && c.p in ps && since <= c.now
    requires Step(st, c, after) && Careful(st, c)
    ensures AllConsistent(ps, after, c.now)
    ensures forall r :: r in st.meta && (r.isDefault || r.bounds.to > c.now) ==> r in after.meta
  {
    hide Consistent, Sound, Step, Careful, GridOf, Apart, Within, UniqueNames, IsPartName;
    CallKeeps(st, c, after, since);
    ConsistentParts(c.p, GridOf(c.p), after, c.now);
    forall p | p in ps
      ensures Consistent(p, GridOf(p), after, c.now)
    {
      if p != c.p {
        LaterStaysConsistent(p, GridOf(p), st, since, c.now);
        OthersStayConsistent(p, GridOf(p), c.p, st, after, c.now);
      }
    }
  }

  /* ----- runs ----- */

  /** The clock after some calls. */
  function Clock(start: Instant, calls: seq<Call>): Instant {
    if calls == [] then start else calls[|calls| - 1].now
  }

  /** A run: careful calls one after the other, each for one of the parents, by a
      clock that never goes back. */
  ghost predicate IsHistory(ps: set<Parent>, start: Instant, calls: seq<Call>, states: seq<Store>) {
    && |states| == |calls| + 1
    && (forall i :: 0 <= i < |calls| ==>
          calls[i].p in ps && Step(states[i], calls[i], states[i + 1]) && Careful(states[i], calls[i]))
    && (forall i :: 0 <= i < |calls| ==> Clock(start, calls[..i]) <= calls[i].now)
  }

  lemma HistoryFront(ps: set<Parent>, start: Instant, calls: seq<Call>, states: seq<Store>)
    requires IsHistory(ps, start, calls, states) && calls != []
    ensures |states| == |calls| + 1
    ensures var n := |calls| - 1;
      && IsHistory(ps, start, calls[..n], states[..n + 1])
      && calls[n].p in ps && Step(states[n], calls[n], states[n + 1]) && Careful(states[n], calls[n])
      && Clock(start, calls[..n]) <= calls[n].now
  {
    hide Step, Careful, Clock;
    var n := |calls| - 1;
    forall i | 0 <= i < n
      ensures Step(states[..n + 1][i], calls[..n][i], states[..n + 1][i + 1])
      ensures Careful(states[..n + 1][i], calls[..n][i]) && calls[..n][i].p in ps
      ensures Clock(start, calls[..n][..i]) <= calls[..n][i].now
    {
      assert Step(states[i], calls[i], states[i + 1]);
      assert calls[..n][..i] == calls[..i];
    }
    assert Step(states[n], calls[n], states[n + 1]);
  }

  /** Over every run for any number of parents in one database, with any tenants,
      hooks, failures and interrupted imports: metadata and catalog stay
      consistent, and no partition is retired while its range is not over. */
  lemma {:induction false} HistoryKeeps(ps: set<Parent>, start: Instant, calls: seq<Call>, states: seq<Store>)
    requires Managed(ps) && IsHistory(ps, start, calls, states) && AllConsistent(ps, states[0], start)
    ensures AllConsistent(ps, states[|calls|], Clock(start, calls))
    ensures forall r :: r in states[0].meta && (r.isDefault || r.bounds.to > Clock(start, calls)) ==>
      r in states[|calls|].meta
    decreases |calls|
  {
    hide AllConsistent, Managed, Step, Careful;
    if calls != [] {
      var n := |calls| - 1;
      HistoryFront(ps, start, calls, states);
      HistoryKeeps(ps, start, calls[..n], states[..n + 1]);
      StepKeeps(ps, states[n], calls[n], states[n + 1], Clock(start, calls[..n]));
    }
  }

  /** The whole promise: a window that a successful EnsurePartitions required
      keeps its active partition, through every later call for this parent or
      another, until it is over. */
  lemma CoverageLasts(ps: set<Parent>, since: Instant, st: Store, first: Call, calls: seq<Call>, states: seq<Store>,
                      b: Bounds)
    requires Managed(ps) && AllConsistent(ps, st, since)
    requires first.Ensuring? && first.err == None && IsHistory(ps, since, [first] + calls, [st] + states)
    requires b in Windows(GridOf(first.p), first.now, first.p.premake + 1) && b.to > Clock(first.now, calls)
    ensures AllConsistent(ps, states[|calls|], Clock(first.now, calls))
    ensures HasActive(first.p, states[|calls|].meta, first.tenant, b)
  {
    hide *;
    FirstCall(ps, since, st, first, calls, states);
    StepKeeps(ps, st, first, states[0], since);
    EnsuredIn(ps, since, st, first, states[0]);
    HistoryKeeps(ps, first.now, calls, states);
    StaysActive(first.p, states[0].meta, states[|calls|].meta, Clock(first.now, calls), first.tenant, b);
  }

  lemma StaysActive(p: Parent, meta: seq<PartRow>, later: seq<PartRow>, now: Instant, tenant: Option<string>, b: Bounds)
    requires HasActive(p, meta, tenant, b) && b.to > now
    requires forall r :: r in meta && (r.isDefault || r.bounds.to > now) ==> r in later
    ensures HasActive(p, later, tenant, b)
  {
  }

  lemma FirstCall(ps: set<Parent>, since: Instant, st: Store, first: Call, calls: seq<Call>, states: seq<Store>)
    requires IsHistory(ps, since, [first] + calls, [st] + states)
    ensures first.p in ps && since <= first.now && |states| == |calls| + 1
    ensures Step(st, first, states[0]) && Careful(st, first) && IsHistory(ps, first.now, calls, states)
  {
    hide Step, Careful;
    var all, stores := [first] + calls, [st] + states;
    assert all[0] == first && all[..0] == [] && stores[0] == st && stores[1] == states[0];
    assert Step(stores[0], all[0], stores[0 + 1]);
    forall i | 0 <= i < |calls|
      ensures calls[i].p in ps && Step(states[i], calls[i], states[i + 1]) && Careful(states[i], calls[i])
      ensures Clock(first.now, calls[..i]) <= calls[i].now
    {
      assert all[i + 1] == calls[i] && stores[i + 1] == states[i] && stores[i + 2] == states[i + 1];
      assert Step(stores[i + 1], all[i + 1], stores[i + 1 + 1]);
      assert all[..i + 1] == [first] + calls[..i];
    }
  }

  lemma EnsuredIn(ps: set<Parent>, since: Instant, st: Store, c: Call, after: Store)
    requires Managed(ps) && AllConsistent(ps, st, since) && c.p in ps && since <= c.now
    requires c.Ensuring? && c.err == None && Step(st, c, after) && Careful(st, c)
    ensures forall b :: b in Windows(GridOf(c.p), c.now, c.p.premake + 1) ==> HasActive(c.p, after.meta, c.tenant, b)
  {
    hide Consistent, Sound, GridOf, Apart, EnsureStep, NamesFit, HasActive, Windows;
    SoundGrid(c.p);
    LaterStaysConsistent(c.p, GridOf(c.p), st, since, c.now);
    EnsureKeeps(c.p, GridOf(c.p), st, after, c.now, c.tenant, c.err, c.ensured);
  }

  /* ----- rows that come before their partition ----- */

  /** A row waits in the parent's attached default. */
  ghost predicate Waits(p: Parent, st: Store, s: Slot) { DefaultAttached(st.tables, p.id) && s in WaitingOf(st, p.id) }

  /** No call for the parent but the detaching of its default ends the wait. */
  lemma OwnCallKeepsWaiting(st: Store, c: Call, after: Store, s: Slot)
    requires Sound(c.p) && Consistent(c.p, GridOf(c.p), st, c.now) && Step(st, c, after) && Careful(st, c)
    requires Waits(c.p, st, s) && !c.DetachingDefault?
    ensures Waits(c.p, after, s)
  {
    hide Consistent, DayGrid, Reasonable, EnsureStep, SweepStep, SweepCut, GridOf, Within, NamesFit, UpperTenants,
      ImportStep, TenantsTold, IsPlan, Intact, CreateTx, DefaultAttached, HasDefault, Drained, HasActive, Routed;
    SoundGrid(c.p);
    AttachedHasRow(c.p, GridOf(c.p), st, c.now);
    match c
    case Ensuring(p, now, tenant, err, report) => EnsureKeeps(p, GridOf(p), st, after, now, tenant, err, report);
    case Sweeping(p, now, dryRun, hook, goes, report) =>
      SweepKeeps(p, GridOf(p), st, after, now, dryRun, hook, goes, report);
    case SweepingCut(p, now, dryRun, hook, goes) => SweepCutKeeps(p, GridOf(p), st, after, now, dryRun, hook, goes);
    case Importing(p, now, zone, children, written) => ImportKeeps(p, GridOf(p), st, after, now, zone, children, written);
    case Registering(p, now, tenant) =>
    case Committing(p, now, tenant, planned, need, goes) => CommitCallKeeps(st, c, after);
    case Inserting(p, now, slot) =>
    case Draining(p, now) => DrainKeepsWaiting(p, st, after, now, s);
    case AttachingDefault(p, now) =>
  }

  lemma DrainKeepsWaiting(p: Parent, st: Store, after: Store, now: Instant, s: Slot)
    requires Sound(p) && Consistent(p, GridOf(p), st, now) && Drained(p, GridOf(p), st, after) && Waits(p, st, s)
    ensures Waits(p, after, s)
  {
    hide Consistent, Sound, DayGrid, GridOf, HasActive;
    SoundGrid(p);
    GridTiles(GridOf(p));
    AttachedDrainsNothing(p, GridOf(p), st, after, now);
  }

  /** Calls for another parent leave the default alone. */
  lemma OthersWaitSame(p: Parent, q: Parent, st: Store, after: Store, now: Instant)
    requires Consistent(p, GridOf(p), st, now) && Apart(p, q) && Within(q, st, after)
    ensures WaitingSame(p, st, after)
  {
    hide Owns, Consistent, GridOf, IsDefaultId;
    if DefaultAttached(st.tables, p.id) {
      var o :| o in st.tables && st.tables[o] == DefaultPart(p.id);
      AttachedIsDefault(p, GridOf(p), st, now, o);
      var row := DefaultRowOf(p, GridOf(p), st, now, o);
      assert !Owns(q, o);
      assert SameAt(st.tables, after.tables, o);
    }
    if DefaultAttached(after.tables, p.id) {
      var o :| o in after.tables && after.tables[o] == DefaultPart(p.id);
      assert SameAt(st.tables, after.tables, o);
    }
  }

  ghost predicate NeverDetached(p: Parent, calls: seq<Call>) {
    forall i :: 0 <= i < |calls| ==> !(calls[i].DetachingDefault? && calls[i].p == p)
  }

  lemma SameWaits(p: Parent, st: Store, after: Store, s: Slot)
    requires WaitingSame(p, st, after)
    ensures Waits(p, st, s) <==> Waits(p, after, s)
  {
  }

  lemma StepKeepsWaiting(ps: set<Parent>, st: Store, c: Call, after: Store, since: Instant, p: Parent, s: Slot)
    requires Managed(ps) && AllConsistent(ps, st, since) && c.p in ps && p in ps && since <= c.now
    requires Step(st, c, after) && Careful(st, c) && Waits(p, st, s) && !(c.DetachingDefault? && c.p == p)
    ensures Waits(p, after, s)
  {
    hide Consistent, Sound, GridOf, Step, Careful, Apart, Waits, Within, WaitingSame;
    LaterStaysConsistent(c.p, GridOf(c.p), st, since, c.now);
    if c.p == p {
      OwnCallKeepsWaiting(st, c, after, s);
    } else {
      CallKeeps(st, c, after, since);
      OthersWaitSame(p, c.p, st, after, since);
      SameWaits(p, st, after, s);
    }
  }

  lemma {:induction false} WaitingLasts(ps: set<Parent>, start: Instant, calls: seq<Call>, states: seq<Store>,
                                        p: Parent, s: Slot)
    requires Managed(ps) && IsHistory(ps, start, calls, states) && AllConsistent(ps, states[0], start) && p in ps
    requires Waits(p, states[0], s) && NeverDetached(p, calls)
    ensures Waits(p, states[|calls|], s)
    decreases |calls|
  {
    hide AllConsistent, Managed, Step, Careful, Waits;
    if calls != [] {
      var n := |calls| - 1;
      HistoryFront(ps, start, calls, states);
      HistoryKeeps(ps, start, calls[..n], states[..n + 1]);
      WaitingLasts(ps, start, calls[..n], states[..n + 1], p, s);
      StepKeepsWaiting(ps, states[n], calls[n], states[n + 1], Clock(start, calls[..n]), p, s);
    }
  }

  /** Over every run: once a row has come into the attached default, every
      EnsurePartitions for its tenant that requires its window fails, whatever
      drains, sweeps and commits come before it, until somebody detaches the
      default. */
  lemma BlockedUntilDetached(ps: set<Parent>, start: Instant, calls: seq<Call>, states: seq<Store>, p: Parent, s: Slot)
    requires Managed(ps) && IsHistory(ps, start, calls, states) && AllConsistent(ps, states[0], start) && p in ps
    requires Waits(p, states[0], s) && NeverDetached(p, calls) && calls != []
    requires var c := calls[|calls| - 1];
      c.Ensuring? && c.p == p && c.tenant == s.tenant && GridOf(p)(s.at) in Windows(GridOf(p), c.now, p.premake + 1)
    ensures calls[|calls| - 1].err.Some? && states[|calls|] == states[|calls| - 1]
  {
    hide *;
    var n := |calls| - 1;
    HistoryFront(ps, start, calls, states);
    HistoryKeeps(ps, start, calls[..n], states[..n + 1]);
    FewerDetached(p, calls, n);
    WaitingLasts(ps, start, calls[..n], states[..n + 1], p, s);
    BlockedCall(ps, states[n], calls[n], states[n + 1], Clock(start, calls[..n]), s);
  }

  lemma FewerDetached(p: Parent, calls: seq<Call>, n: nat)
    requires NeverDetached(p, calls) && n <= |calls|
    ensures NeverDetached(p, calls[..n])
  {
  }

  lemma BlockedCall(ps: set<Parent>, st: Store, c: Call, after: Store, since: Instant, s: Slot)
    requires Managed(ps) && AllConsistent(ps, st, since) && c.p in ps && since <= c.now
    requires Step(st, c, after) && Careful(st, c) && Waits(c.p, st, s)
    requires c.Ensuring? && c.tenant == s.tenant && GridOf(c.p)(s.at) in Windows(GridOf(c.p), c.now, c.p.premake + 1)
    ensures c.err.Some? && after == st
  {
    hide Consistent, DayGrid, Sound, GridOf, Apart, EnsureStep, NamesFit, Windows;
    SoundGrid(c.p);
    LaterStaysConsistent(c.p, GridOf(c.p), st, since, c.now);
    WaitingBlocks(c.p, GridOf(c.p), st, after, c.now, c.err, c.ensured, s);
  }
}
