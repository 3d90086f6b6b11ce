/** A maintenance pass: lock, provision and sweep each parent, whatever fails
    or panics on the way. */
module Maintainer {
  import opened Wrappers
  import opened Calendar
  import opened Periods
  import opened Metadata
  import opened Retry
  import opened Catalog
  import opened Provisioner
  import opened Retention
  import opened Consistency
  import opened Maintenance
  import opened History
  import Locks

  datatype ParentResult = Processed | Locked | Panicked

  datatype LockOutcome = Granted | Refused | TryFails | TryPanics

  datatype Listing = ListSucceeds | ListFails | ListPanics

  /** What happens around one parent, by the number of the call: the clock, the
      calls that panic before or after their work, and every transaction. */
  datatype World = World(
    lock: LockOutcome,
    releasePanics: bool,
    contextOver: bool,
    sessionLives: bool,
    clock: nat -> Instant,
    listing: Listing,
    tenants: seq<string>,
    panicsBefore: nat -> bool,
    panicsAfter: nat -> bool,
    attempt: nat -> nat -> Attempt,
    interrupted: nat -> nat -> bool,
    hook: Hook,
    hookPanics: nat -> bool,
    queryFails: bool,
    applyAttempt: nat -> nat -> Attempt,
    applyInterrupted: nat -> nat -> bool)

  /** The tenants EnsurePartitions is called for. */
  function Targets(p: Parent, w: World): seq<Option<string>> {
    if !p.tenanted then [None]
    else if w.listing == ListSucceeds then seq(|w.tenants|, i requires 0 <= i < |w.tenants| => Some(w.tenants[i]))
    else []
  }

  /** What a pass may rely on: a sound parent in order, a clock that does not go
      back, the listing of the parent's own tenants, and names that fit. */
  ghost predicate Servable(p: Parent, w: World, st: Store) {
    && Sound(p) && Consistent(p, GridOf(p), st, w.clock(0))
    && (forall i: nat, j: nat :: i <= j ==> w.clock(i) <= w.clock(j))
    && (forall t :: t in w.tenants <==> t in TenantsOf(st, p.id))
    && forall i :: 0 <= i < |Targets(p, w)| ==> NamesFit(p, GridOf(p), w.clock(i), Targets(p, w)[i])
  }

  /** Nothing panics. */
  ghost predicate Calm(p: Parent, w: World) {
    && !w.releasePanics && (p.tenanted ==> w.listing != ListPanics)
    && forall i: nat :: !w.panicsBefore(i) && !w.panicsAfter(i) && !w.hookPanics(i)
  }

  /** The pass gets as far as the work of its call `i`. */
  ghost predicate Gets(p: Parent, w: World, i: nat) {
    && (p.tenanted ==> w.listing != ListPanics) && !w.panicsBefore(i)
    && forall j: nat :: j < i ==> !w.panicsBefore(j) && !w.panicsAfter(j)
  }

  /** All calls of the pass are made, and none panics. */
  ghost predicate AllMade(p: Parent, w: World) { Gets(p, w, |Targets(p, w)|) && !w.panicsAfter(|Targets(p, w)|) }

  /** A granted lock whose context is over before the deferred unlock, and whose
      session lives on. */
  predicate LeavesGrant(w: World) { w.lock == Granted && w.contextOver && w.sessionLives }

  /** No attached default holds a row of a window that target `i` requires. */
  ghost predicate Unblocked(p: Parent, w: World, st: Store, i: nat)
    requires i < |Targets(p, w)|
  {
    NothingWaits(p, st, Targets(p, w)[i], Windows(GridOf(p), w.clock(i), p.premake + 1))
  }

  lemma UnblockedStays(p: Parent, w: World, st: Store, after: Store)
    requires WaitingKept(p, st, after)
    ensures forall i :: 0 <= i < |Targets(p, w)| && Unblocked(p, w, st, i) ==> Unblocked(p, w, after, i)
  {
    hide Targets, Windows, GridOf, Takes, HasDefault;
  }

  /** What target `i` needs of the pass, whatever becomes of the others: its own
      call is reached and its own transaction gets through, its names can be built,
      and no row waits for one of its windows. */
  ghost predicate Due(p: Parent, w: World, st: Store, i: nat)
    requires i < |Targets(p, w)|
  {
    && Gets(p, w, i) && GoesThrough(w.attempt(i), w.interrupted(i))
    && WellNamed(p, Targets(p, w)[i]) && Unblocked(p, w, st, i)
  }

  /** No hook spares a partition, and the sweep's own statements get through. */
  ghost predicate SweepsAll(w: World) {
    !w.queryFails && w.hook.None? && forall i: nat :: GoesThrough(w.applyAttempt(i), w.applyInterrupted(i))
  }

  /** What maintenance keeps of a parent: consistency, its tenants, its default,
      and every range that is not over. */
  ghost predicate Kept(p: Parent, before: Store, after: Store, now: Instant) {
    && Consistent(p, GridOf(p), after, now) && TenantsOf(after, p.id) == TenantsOf(before, p.id)
    && KeptRows(p, before.meta, after.meta, now)
  }

  ghost predicate KeptRows(p: Parent, before: seq<PartRow>, after: seq<PartRow>, now: Instant) {
    forall r :: r in before && r.parentId == p.id && (r.isDefault || r.bounds.to > now) ==> r in after
  }

  lemma KeptThrough(p: Parent, before: Store, mid: Store, c: Call, after: Store, since: Instant)
    requires Sound(p) && Kept(p, before, mid, since) && Within(p, before, mid)
    requires c.p == p && (c.Ensuring? || c.Sweeping? || c.SweepingCut?) && since <= c.now
    requires Step(mid, c, after) && Careful(mid, c)
    ensures Kept(p, before, after, c.now) && Within(p, before, after)
    ensures forall r :: r in mid.meta && (r.isDefault || r.bounds.to > c.now) ==> r in after.meta
  {
    hide Consistent, Sound, Step, Careful, GridOf, Within;
    CallKeeps(mid, c, after, since);
    WithinTwice(p, before, mid, after);
  }

  lemma KeptLater(p: Parent, before: Store, after: Store, since: Instant, now: Instant)
    requires Kept(p, before, after, since) && since <= now
    ensures Kept(p, before, after, now)
  {
    hide Consistent, GridOf;
    LaterStaysConsistent(p, GridOf(p), after, since, now);
  }

  /** The windows a target required at call `i` are there, but for those over by
      `now`. */
  ghost predicate CoveredFor(p: Parent, w: World, meta: seq<PartRow>, i: nat, now: Instant)
    requires i < |Targets(p, w)|
  {
    forall b :: b in Windows(GridOf(p), w.clock(i), p.premake + 1) && b.to > now ==> HasActive(p, meta, Targets(p, w)[i], b)
  }

  lemma CoverageKept(p: Parent, w: World, before: seq<PartRow>, after: seq<PartRow>, i: nat, now: Instant)
    requires i < |Targets(p, w)| && CoveredFor(p, w, before, i, now) && KeptRows(p, before, after, now)
    ensures CoveredFor(p, w, after, i, now)
  {
    hide Windows, GridOf, Targets;
    forall b | b in Windows(GridOf(p), w.clock(i), p.premake + 1) && b.to > now
      ensures HasActive(p, after, Targets(p, w)[i], b)
    {
      var r :| r in before && r.parentId == p.id && IsActiveFor(r, Targets(p, w)[i], b);
    }
  }

  /* ----- provisioning one target ----- */

  /** EnsurePartitions for target `i`, perhaps with a panic around it. */
  method EnsureTarget(db: Database, p: Parent, w: World, i: nat)
    returns (panicked: bool, err: Option<EnsureError>, report: EnsureReport)
    requires i < |Targets(p, w)|
    modifies db
    ensures EnsureStep(p, GridOf(p), old(db.Stored()), db.Stored(), w.clock(i), Targets(p, w)[i], err, report)
    ensures panicked <==> w.panicsBefore(i) || w.panicsAfter(i)
    ensures CallSucceeds(p, w, old(db.Stored()), i) ==> err.None?
    ensures err.Some? ==> report == NOTHING_CREATED
  {
    hide CreateTx, ToCreate, HasDefault, GoesThrough, PeriodOf, CalendarGrid;
    if w.panicsBefore(i) {
      return true, Some(UnknownInterval), NOTHING_CREATED;
    }
    TargetFits(p, w, i);
    err, report := EnsurePartitions(db, p, w.clock(i), Targets(p, w)[i], w.attempt(i), w.interrupted(i));
    panicked := w.panicsAfter(i);
  }

  lemma TargetFits(p: Parent, w: World, i: nat)
    requires i < |Targets(p, w)|
    ensures TenantMatches(p, Targets(p, w)[i])
    ensures Targets(p, w)[i].Some? ==> Targets(p, w)[i].value in w.tenants
  {
  }

  /** The call for target `i` is made, and can do what it has to. */
  ghost predicate CallSucceeds(p: Parent, w: World, st: Store, i: nat)
    requires i < |Targets(p, w)|
  {
    && !w.panicsBefore(i) && GoesThrough(w.attempt(i), w.interrupted(i)) && KindFromLabel(p.interval).Some?
    && Accepted(p, st, w.clock(i), Targets(p, w)[i])
  }

  /** The server accepts what a call has to do. */
  predicate Accepted(p: Parent, st: Store, now: Instant, tenant: Option<string>) {
    var todo, need := ToCreate(p, GridOf(p), st.meta, now, tenant), !HasDefault(p, st.meta);
    (todo == [] && !need) || CreateTx(p, st, tenant, todo, need).Some?
  }

  lemma ConsistentAccepts(p: Parent, st: Store, since: Instant, now: Instant, tenant: Option<string>)
    requires Sound(p) && WellNamed(p, tenant) && Consistent(p, GridOf(p), st, since) && since <= now
    requires TenantOK(p, TenantsOf(st, p.id), tenant) && NamesFit(p, GridOf(p), now, tenant)
    requires NothingWaits(p, st, tenant, Windows(GridOf(p), now, p.premake + 1))
    ensures Accepted(p, st, now, tenant)
  {
    hide Consistent, DayGrid, Sound, GridOf, CreateTx, WellNamed, TenantOK, NamesFit, DefaultHolds, HasActive,
      Windows, Filter;
    SoundGrid(p);
    LaterStaysConsistent(p, GridOf(p), st, since, now);
    assert NothingWaits(p, st, tenant, ToCreate(p, GridOf(p), st.meta, now, tenant));
    hide ToCreate;
    EnsureAcceptedIff(p, GridOf(p), st, now, tenant);
  }

  /** The state of a pass after `i` targets: each of them that was due is covered. */
  ghost predicate PassedTargets(p: Parent, w: World, before: Store, st: Store, i: nat)
    requires i <= |Targets(p, w)|
  {
    Servable(p, w, before) ==>
      && (exists since :: since <= w.clock(i) && Kept(p, before, st, since)) && Within(p, before, st)
      && (forall j :: 0 <= j < |Targets(p, w)| && Unblocked(p, w, before, j) ==> Unblocked(p, w, st, j))
      && AllCovered(p, w, before, st.meta, i)
  }

  ghost predicate AllCovered(p: Parent, w: World, before: Store, meta: seq<PartRow>, n: nat)
    requires n <= |Targets(p, w)|
  {
    forall j :: 0 <= j < n && Due(p, w, before, j) ==> CoveredFor(p, w, meta, j, w.clock(|Targets(p, w)|))
  }

  lemma AllCoverageKept(p: Parent, w: World, before: Store, meta: seq<PartRow>, after: seq<PartRow>, n: nat)
    requires n <= |Targets(p, w)| && AllCovered(p, w, before, meta, n)
    requires KeptRows(p, meta, after, w.clock(|Targets(p, w)|))
    ensures AllCovered(p, w, before, after, n)
  {
    hide CoveredFor, Targets, Due, KeptRows;
    forall j | 0 <= j < n && Due(p, w, before, j)
      ensures CoveredFor(p, w, after, j, w.clock(|Targets(p, w)|))
    {
      CoverageKept(p, w, meta, after, j, w.clock(|Targets(p, w)|));
    }
  }

  lemma PassStarts(p: Parent, w: World, before: Store)
    ensures PassedTargets(p, w, before, before, 0)
  {
    hide Consistent, GridOf, Sound, Within, NamesFit, Targets;
    WithinItself(p, before);
    if Servable(p, w, before) {
      assert Kept(p, before, before, w.clock(0));
    }
  }

  lemma ServableAt(p: Parent, w: World, st: Store, i: nat)
    requires Servable(p, w, st) && i < |Targets(p, w)|
    ensures Sound(p) && w.clock(i) <= w.clock(i + 1) <= w.clock(|Targets(p, w)|)
    ensures NamesFit(p, GridOf(p), w.clock(i), Targets(p, w)[i]) && TenantOK(p, TenantsOf(st, p.id), Targets(p, w)[i])
  {
    hide Sound, GridOf, Targets, NamesFit, Consistent, TenantOK;
    TargetFits(p, w, i);
    RegisteredOK(p, GridOf(p), st, w.clock(0), Targets(p, w)[i]);
  }

  lemma PassContinues(p: Parent, w: World, before: Store, st: Store, after: Store, i: nat,
                      err: Option<EnsureError>, report: EnsureReport)
    requires i < |Targets(p, w)| && PassedTargets(p, w, before, st, i)
    requires EnsureStep(p, GridOf(p), st, after, w.clock(i), Targets(p, w)[i], err, report)
    requires CallSucceeds(p, w, st, i) ==> err.None?
    ensures PassedTargets(p, w, before, after, i + 1)
  {
    hide Consistent, GridOf, CoveredFor, EnsureStep, Targets, Windows, Within, Servable, Unblocked, NamesFit, TenantOK,
      Sound, KeptRows, WaitingKept, Due, AllCovered, CallSucceeds;
    if Servable(p, w, before) {
      var now, last, tenant := w.clock(i), w.clock(|Targets(p, w)|), Targets(p, w)[i];
      var since :| since <= now && Kept(p, before, st, since);
      ServableAt(p, w, before, i);
      var c := Ensuring(p, now, tenant, err, report);
      KeptThrough(p, before, st, c, after, since);
      EnsureCallWaits(st, c, after, since);
      assert exists t :: t <= w.clock(i + 1) && Kept(p, before, after, t);
      UnblockedStays(p, w, st, after);
      LaterRows(p, st.meta, after.meta, now, last);
      AllCoverageKept(p, w, before, st.meta, after.meta, i);
      if Due(p, w, before, i) {
        DueSucceeds(p, w, before, st, i, since);
        NewlyCovered(p, w, st, after, i, since, report);
      }
      OneMoreCovered(p, w, before, after.meta, i);
    }
  }

  /** The calls so far have reported as many partitions as there are new rows. */
  ghost predicate Counted(p: Parent, w: World, before: Store, st: Store, created: nat, defaultCreated: bool) {
    Servable(p, w, before) ==>
      && |st.meta| == |before.meta| + created + (if defaultCreated then 1 else 0)
      && (defaultCreated ==> HasDefault(p, st.meta))
  }

  lemma CountsOn(p: Parent, w: World, before: Store, st: Store, after: Store, i: nat, err: Option<EnsureError>,
                 report: EnsureReport, created: nat, defaultCreated: bool)
    requires i < |Targets(p, w)| && PassedTargets(p, w, before, st, i) && Counted(p, w, before, st, created, defaultCreated)
    requires EnsureStep(p, GridOf(p), st, after, w.clock(i), Targets(p, w)[i], err, report)
    ensures Counted(p, w, before, after, created + report.boundedCreated, defaultCreated || report.defaultCreated)
  {
    hide Consistent, GridOf, Targets, Windows, Within, Servable, NamesFit, Sound, KeptRows, AllCovered, CreateTx, ToCreate,
      HasActive, DayGrid, IsActiveFor, TenantOK, Unblocked;
    if Servable(p, w, before) {
      var since :| since <= w.clock(i) && Kept(p, before, st, since);
      ServableAt(p, w, before, i);
      SoundGrid(p);
      LaterStaysConsistent(p, GridOf(p), st, since, w.clock(i));
      EnsureKeeps(p, GridOf(p), st, after, w.clock(i), Targets(p, w)[i], err, report);
    }
  }

  lemma OneMoreCovered(p: Parent, w: World, before: Store, meta: seq<PartRow>, i: nat)
    requires i < |Targets(p, w)| && AllCovered(p, w, before, meta, i)
    requires Due(p, w, before, i) ==> CoveredFor(p, w, meta, i, w.clock(|Targets(p, w)|))
    ensures AllCovered(p, w, before, meta, i + 1)
  {
    hide Due, CoveredFor, Targets;
  }

  /** The call for a target that is due succeeds, however the calls before it
      went. */
  lemma DueSucceeds(p: Parent, w: World, before: Store, st: Store, i: nat, since: Instant)
    requires i < |Targets(p, w)| && Due(p, w, before, i) && Servable(p, w, before)
    requires Unblocked(p, w, before, i) ==> Unblocked(p, w, st, i)
    requires Kept(p, before, st, since) && since <= w.clock(i)
    ensures CallSucceeds(p, w, st, i)
  {
    hide Consistent, GridOf, Targets, Windows, NamesFit, TenantOK, Sound, KeptRows, Accepted, WellNamed, NothingWaits,
      GoesThrough, KindFromLabel, Servable;
    ServableAt(p, w, before, i);
    SoundLabel(p);
    ConsistentAccepts(p, st, since, w.clock(i), Targets(p, w)[i]);
  }

  lemma SoundLabel(p: Parent)
    requires Sound(p)
    ensures KindFromLabel(p.interval).Some?
  {
  }

  lemma LaterRows(p: Parent, before: seq<PartRow>, after: seq<PartRow>, now: Instant, later: Instant)
    requires now <= later && forall r :: r in before && (r.isDefault || r.bounds.to > now) ==> r in after
    ensures KeptRows(p, before, after, later)
  {
  }

  lemma NewlyCovered(p: Parent, w: World, st: Store, after: Store, i: nat, since: Instant, report: EnsureReport)
    requires i < |Targets(p, w)| && Sound(p) && NamesFit(p, GridOf(p), w.clock(i), Targets(p, w)[i])
    requires Consistent(p, GridOf(p), st, since) && since <= w.clock(i)
    requires EnsureStep(p, GridOf(p), st, after, w.clock(i), Targets(p, w)[i], None, report)
    ensures CoveredFor(p, w, after.meta, i, w.clock(|Targets(p, w)|))
  {
    hide Consistent, DayGrid, Sound, GridOf, EnsureStep, Windows, Targets, HasActive, NamesFit, Within;
    SoundGrid(p);
    LaterStaysConsistent(p, GridOf(p), st, since, w.clock(i));
    EnsureKeeps(p, GridOf(p), st, after, w.clock(i), Targets(p, w)[i], None, report);
  }

  /** What a pass over one parent promises, for the stores before and after: every
      target that was due has its windows, and if the sweep is reached and spares
      nothing, no expired partition is left. */
  ghost predicate Served(p: Parent, w: World, before: Store, after: Store) {
    var last := w.clock(|Targets(p, w)|);
    Servable(p, w, before) ==>
      && Kept(p, before, after, last)
      && (w.lock == Granted ==> AllCovered(p, w, before, after.meta, |Targets(p, w)|))
      && (w.lock == Granted && Gets(p, w, |Targets(p, w)|) && SweepsAll(w) ==>
            forall r :: r in after.meta ==> !IsExpired(p, ComputeCutoff(last, p.retention), r))
  }

  /** A pass over a parent in order touches no other parent. */
  ghost predicate Contained(p: Parent, w: World, before: Store, after: Store) {
    Servable(p, w, before) ==> Within(p, before, after)
  }

  /** A pass that stops, by a panic or because the sweep's listing fails. */
  lemma PassStops(p: Parent, w: World, before: Store, st: Store, i: nat)
    requires i <= |Targets(p, w)| && PassedTargets(p, w, before, st, i)
    requires (forall j: nat :: j >= i ==> !Gets(p, w, j)) || (i == |Targets(p, w)| && !SweepsAll(w))
    ensures Served(p, w, before, st) && Contained(p, w, before, st)
  {
    hide Unblocked, SweepsAll, ComputeCutoff, Consistent, GridOf, CoveredFor, Targets, WellNamed, Kept, Sound, NamesFit,
      Within, Gets, GoesThrough;
    if Servable(p, w, before) {
      var since :| since <= w.clock(i) && Kept(p, before, st, since);
      KeptLater(p, before, st, since, w.clock(|Targets(p, w)|));
    }
  }

  /** A sweep after the targets, complete or cut short. */
  lemma PassSwept(p: Parent, w: World, before: Store, st: Store, c: Call, after: Store)
    requires PassedTargets(p, w, before, st, |Targets(p, w)|)
    requires c.p == p && c.now == w.clock(|Targets(p, w)|) && (c.Sweeping? || c.SweepingCut?) && Step(st, c, after)
    requires !SweepsAll(w)
      || (c.Sweeping? && c.hook == w.hook && c.through == Through(w.applyAttempt, w.applyInterrupted) && !c.dryRun)
    ensures Served(p, w, before, after) && Contained(p, w, before, after)
  {
    hide Unblocked, Consistent, GridOf, Targets, Step, ComputeCutoff, SweepsAll, Within, NamesFit, Sound, KeptRows, Gets,
      AllCovered, IsExpired;
    var last := w.clock(|Targets(p, w)|);
    if Servable(p, w, before) {
      var since :| since <= last && Kept(p, before, st, since);
      KeptThrough(p, before, st, c, after, since);
      LaterRows(p, st.meta, after.meta, last, last);
      AllCoverageKept(p, w, before, st.meta, after.meta, |Targets(p, w)|);
      if SweepsAll(w) {
        PassClears(p, w, st, c, after, since);
      }
    }
  }

  lemma PassClears(p: Parent, w: World, st: Store, c: Call, after: Store, since: Instant)
    requires Sound(p) && SweepsAll(w) && Consistent(p, GridOf(p), st, since) && c.Sweeping? && c.p == p && since <= c.now
    requires c.hook == w.hook && c.through == Through(w.applyAttempt, w.applyInterrupted) && !c.dryRun
    requires Step(st, c, after)
    ensures forall r :: r in after.meta ==> !IsExpired(p, ComputeCutoff(c.now, p.retention), r)
  {
    hide Consistent, GridOf, SweepStep, ComputeCutoff, IsExpired, Reasonable;
    LaterStaysConsistent(p, GridOf(p), st, since, c.now);
    forall r | r in after.meta
      ensures !IsExpired(p, ComputeCutoff(c.now, p.retention), r)
    {
      SweepClears(p, GridOf(p), st, after, c.now, c.through, c.swept, r);
    }
  }

  lemma NotServed(p: Parent, w: World, st: Store)
    requires w.lock != Granted
    ensures Served(p, w, st, st) && Contained(p, w, st, st)
  {
    hide Unblocked, ComputeCutoff, SweepsAll, Consistent, GridOf, CoveredFor, Targets, WellNamed, Sound, NamesFit, Within,
      AllCovered, Gets;
    WithinItself(p, st);
    if Servable(p, w, st) {
      assert Kept(p, st, st, w.clock(0));
      KeptLater(p, st, st, w.clock(0), w.clock(|Targets(p, w)|));
    }
  }

  /* ----- one parent ----- */

  /** The work under the lock: provision every target, then sweep.  A panic
      anywhere ends it. */
  method Work(db: Database, p: Parent, w: World) returns (panicked: bool, created: nat, defaultCreated: bool)
    modifies db
    ensures Served(p, w, old(db.Stored()), db.Stored()) && Contained(p, w, old(db.Stored()), db.Stored())
    ensures Calm(p, w) ==> !panicked
    ensures !panicked ==> AllMade(p, w)
    ensures !panicked && Servable(p, w, old(db.Stored())) ==>
      |db.meta| == |old(db.meta)| + created + if defaultCreated then 1 else 0
  {
    hide EnsureStep, SweepStep, SweepCut, PassedTargets, Served, Contained, CallSucceeds, Targets, GridOf, SweepsAll,
      Servable;
    ghost var before := db.Stored();
    created, defaultCreated := 0, false;
    PassStarts(p, w, before);
    CountTargets(p, w);
    if !p.tenanted {
      var e, err, report := EnsureTarget(db, p, w, 0);
      PassContinues(p, w, before, before, db.Stored(), 0, err, report);
      CountsOn(p, w, before, before, db.Stored(), 0, err, report, created, defaultCreated);
      if e {
        PassStops(p, w, before, db.Stored(), 1);
        return true, created, defaultCreated;
      }
      if err.None? {
        created, defaultCreated := created + report.boundedCreated, defaultCreated || report.defaultCreated;
      }
    } else {
      match w.listing {
        case ListPanics =>
          PassStops(p, w, before, before, 0);
          return true, created, defaultCreated;
        case ListFails =>
        case ListSucceeds =>
          for i := 0 to |w.tenants|
            invariant i <= |Targets(p, w)| && PassedTargets(p, w, before, db.Stored(), i)
            invariant Counted(p, w, before, db.Stored(), created, defaultCreated)
            invariant forall j: nat :: j < i ==> !w.panicsBefore(j) && !w.panicsAfter(j)
          {
            ghost var st := db.Stored();
            var e, err, report := EnsureTarget(db, p, w, i);
            PassContinues(p, w, before, st, db.Stored(), i, err, report);
            CountsOn(p, w, before, st, db.Stored(), i, err, report, created, defaultCreated);
            if e {
              PassStops(p, w, before, db.Stored(), i + 1);
              return true, created, defaultCreated;
            }
            if err.None? {
              created, defaultCreated := created + report.boundedCreated, defaultCreated || report.defaultCreated;
            }
          }
      }
    }
    panicked := SweepParent(db, p, w, before);
  }

  /** The sweep at the end of the work. */
  method SweepParent(db: Database, p: Parent, w: World, ghost before: Store) returns (panicked: bool)
    requires PassedTargets(p, w, before, db.Stored(), |Targets(p, w)|)
    modifies db
    ensures Served(p, w, before, db.Stored()) && Contained(p, w, before, db.Stored())
    ensures Calm(p, w) ==> !panicked
    ensures !panicked ==> !w.panicsBefore(|Targets(p, w)|) && !w.panicsAfter(|Targets(p, w)|)
    ensures |db.meta| == |old(db.meta)|
  {
    hide EnsureStep, SweepStep, SweepCut, PassedTargets, Served, Contained, Targets, GridOf;
    var n := |Targets(p, w)|;
    ghost var st := db.Stored();
    if w.panicsBefore(n) {
      PassStops(p, w, before, st, n);
      return true;
    }
    var ok, cut, report :=
      Sweep(db, p, w.clock(n), false, w.hook, w.hookPanics, w.queryFails, w.applyAttempt, w.applyInterrupted);
    ghost var goes := Through(w.applyAttempt, w.applyInterrupted);
    if cut || ok {
      SweepSize(p, st, db.Stored(), w.clock(n), w.hook, goes);
    }
    if cut {
      PassSwept(p, w, before, st, SweepingCut(p, w.clock(n), false, w.hook, goes), db.Stored());
      return true;
    }
    if ok {
      PassSwept(p, w, before, st, Sweeping(p, w.clock(n), false, w.hook, goes, report), db.Stored());
    } else {
      PassStops(p, w, before, st, n);
    }
    return w.panicsAfter(n);
  }

  lemma CountTargets(p: Parent, w: World)
    ensures |Targets(p, w)| == if !p.tenanted then 1 else if w.listing == ListSucceeds then |w.tenants| else 0
  {
  }

  /** A deferred call. */
  datatype Deferred = Recover | ReleaseLock

  /** processParent.  Deferred calls run last in, first out, also when the body
      panics; no panic escapes, and an unlock is tried exactly once if the lock was
      granted and never otherwise. */
  method ProcessParent(locker: Locks.Locker, db: Database, p: Parent, w: World) returns (result: ParentResult,
                       escapes: bool)
    requires locker.unlocks <= locker.grants
    modifies locker, db
    ensures !escapes
    ensures var n := if w.lock == Granted then 1 else 0;
      locker.grants == old(locker.grants) + n && locker.unlocks == old(locker.unlocks) + n
    ensures locker.leaks == old(locker.leaks) + if LeavesGrant(w) then 1 else 0
    ensures result == Locked <==> w.lock == Refused || w.lock == TryFails
    ensures w.lock == TryPanics ==> result == Panicked
    ensures w.lock == Granted && Calm(p, w) ==> result == Processed
    ensures result == Processed ==> w.lock == Granted && AllMade(p, w) && !w.releasePanics
    ensures w.lock != Granted ==> db.Stored() == old(db.Stored())
    ensures Served(p, w, old(db.Stored()), db.Stored()) && Contained(p, w, old(db.Stored()), db.Stored())
  {
    hide Served, Contained, Calm, AllMade;
    var defers := [Recover];
    var panicking := false;
    result := Processed;
    NotServedUnlessGranted(p, w, db.Stored());
    match w.lock {
      case TryPanics => panicking := true;
      case TryFails => result := Locked;
      case Refused => result := Locked;
      case Granted =>
        locker.Grant();
        defers := defers + [ReleaseLock];
        var created, defaultCreated;
        panicking, created, defaultCreated := Work(db, p, w);
    }
    QuietRelease(p, w);
    while defers != []
      invariant defers == [] || defers == [Recover] || (defers == [Recover, ReleaseLock] && w.lock == Granted)
      invariant locker.grants == old(locker.grants) + if w.lock == Granted then 1 else 0
      invariant locker.unlocks + (if ReleaseLock in defers then 1 else 0)
             == old(locker.unlocks) + if w.lock == Granted then 1 else 0
      invariant locker.leaks == old(locker.leaks) + if LeavesGrant(w) && ReleaseLock !in defers then 1 else 0
      invariant db.Stored() == old(db.Stored()) || w.lock == Granted
      invariant Served(p, w, old(db.Stored()), db.Stored()) && Contained(p, w, old(db.Stored()), db.Stored())
      invariant defers == [] ==> !panicking
      invariant w.lock == TryPanics ==> (if defers == [] then result == Panicked else panicking)
      invariant w.lock == Granted && Calm(p, w) ==> !panicking && result == Processed
      invariant w.lock == Refused || w.lock == TryFails ==> !panicking && result == Locked
      invariant result == Processed && !panicking ==>
        w.lock == Granted && AllMade(p, w) && (ReleaseLock in defers || !w.releasePanics)
      invariant w.lock == Granted || w.lock == TryPanics ==> result != Locked
      decreases |defers|
    {
      var d := defers[|defers| - 1];
      defers := defers[..|defers| - 1];
      match d {
        case ReleaseLock =>
          var ok := locker.Unlock(w.contextOver, w.sessionLives);
          panicking := panicking || w.releasePanics;
        case Recover =>
          if panicking {
            panicking := false;
            result := Panicked;
          }
      }
    }
    escapes := panicking;
  }

  lemma NotServedUnlessGranted(p: Parent, w: World, st: Store)
    ensures w.lock != Granted ==> Served(p, w, st, st) && Contained(p, w, st, st)
  {
    if w.lock != Granted {
      NotServed(p, w, st);
    }
  }

  lemma QuietRelease(p: Parent, w: World)
    ensures Calm(p, w) ==> !w.releasePanics
  {
  }

  /* ----- one pass ----- */

  /** A registered parent. */
  datatype Site = Site(parent: Parent, automatic: bool, world: World)

  datatype MaintainError = ListParentsFailed | PassCancelled

  function Automatic(sites: seq<Site>): nat {
    if sites == [] then 0
    else Automatic(sites[..|sites| - 1]) + if sites[|sites| - 1].automatic then 1 else 0
  }

  /** The automatic parents that another session keeps, or whose lock cannot be
      asked for. */
  function LockedOut(sites: seq<Site>): nat {
    if sites == [] then 0
    else
      var s := sites[|sites| - 1];
      LockedOut(sites[..|sites| - 1]) + if s.automatic && (s.world.lock == Refused || s.world.lock == TryFails) then 1 else 0
  }

  /** An automatic parent whose pass meets a panic other than of the hook. */
  ghost predicate Falls(s: Site) {
    s.automatic && (s.world.lock == TryPanics
                    || (s.world.lock == Granted && !(AllMade(s.parent, s.world) && !s.world.releasePanics)))
  }

  ghost function Fallen(sites: seq<Site>): nat {
    if sites == [] then 0
    else Fallen(sites[..|sites| - 1]) + if Falls(sites[|sites| - 1]) then 1 else 0
  }

  function LeftBehind(sites: seq<Site>): nat {
    if sites == [] then 0
    else
      var s := sites[|sites| - 1];
      LeftBehind(sites[..|sites| - 1]) + if s.automatic && LeavesGrant(s.world) then 1 else 0
  }

  /** All parents are served with the context of the pass: when it is over during
      one, it is over before the next. */
  predicate OneContext(sites: seq<Site>, cancelled: nat -> bool) {
    forall i, j :: 0 <= i < j < |sites| && sites[i].world.contextOver ==> cancelled(j)
  }

  /** So at most the last parent reached can leave its grant behind. */
  lemma OneLeftBehind(sites: seq<Site>, cancelled: nat -> bool, n: nat)
    requires n <= |sites| && OneContext(sites, cancelled) && forall i: nat :: i < n ==> !cancelled(i)
    ensures LeftBehind(sites[..n]) <= 1
  {
    if n > 0 {
      assert sites[..n][..n - 1] == sites[..n - 1];
      NoneLeftUpTo(sites, n - 1, cancelled, n - 1);
    }
  }

  lemma {:induction false} NoneLeftUpTo(sites: seq<Site>, n: nat, cancelled: nat -> bool, i: nat)
    requires i <= n < |sites| && OneContext(sites, cancelled) && !cancelled(n)
    ensures LeftBehind(sites[..i]) == 0
  {
    if i > 0 {
      assert sites[..i][..i - 1] == sites[..i - 1];
      NoneLeftUpTo(sites, n, cancelled, i - 1);
    }
  }

  ghost predicate Quiet(s: Site) { s.world.lock != TryPanics && Calm(s.parent, s.world) }

  /** Every parent can be served, and none is in another's way. */
  ghost predicate AllServable(sites: seq<Site>, st: Store) {
    && (forall i :: 0 <= i < |sites| ==> Servable(sites[i].parent, sites[i].world, st))
    && forall i, j :: 0 <= i < |sites| && 0 <= j < |sites| && i != j ==> Apart(sites[i].parent, sites[j].parent)
  }

  /** What other parents' passes leave of a parent: its rows, its tenants and its
      order. */
  ghost predicate Undisturbed(p: Parent, st: Store, next: Store) {
    && (forall r: PartRow :: r.parentId == p.id ==> (r in st.meta <==> r in next.meta))
    && TenantsOf(next, p.id) == TenantsOf(st, p.id)
    && forall now :: Consistent(p, GridOf(p), st, now) ==> Consistent(p, GridOf(p), next, now) && WaitingSame(p, st, next)
  }

  lemma UndisturbedTwice(p: Parent, a: Store, b: Store, c: Store)
    requires Undisturbed(p, a, b) && Undisturbed(p, b, c)
    ensures Undisturbed(p, a, c)
  {
    hide Consistent, GridOf, DefaultAttached;
  }

  lemma UndisturbedServable(p: Parent, w: World, st: Store, next: Store)
    requires Undisturbed(p, st, next) && Servable(p, w, st)
    ensures Servable(p, w, next)
  {
    hide Consistent, GridOf, Sound, Targets, NamesFit;
  }

  /** A pass over one parent leaves another undisturbed. */
  lemma PassLeaves(p: Parent, q: Parent, w: World, st: Store, next: Store)
    requires Apart(p, q) && Servable(q, w, st) && Served(q, w, st, next) && Contained(q, w, st, next)
    ensures Undisturbed(p, st, next)
  {
    hide Consistent, GridOf, Apart, Gets, SweepsAll, AllCovered, ComputeCutoff, Servable, Targets, UniqueNames,
      IsPartName, KeptRows;
    var last := w.clock(|Targets(q, w)|);
    ConsistentParts(q, GridOf(q), next, last);
    ApartIds(p, q);
    forall now | Consistent(p, GridOf(p), st, now)
      ensures Consistent(p, GridOf(p), next, now) && WaitingSame(p, st, next)
    {
      OthersStayConsistent(p, GridOf(p), q, st, next, now);
      OthersWaitSame(p, q, st, next, now);
    }
  }

  lemma ApartIds(p: Parent, q: Parent)
    requires Apart(p, q)
    ensures p.id != q.id
  {
  }

  lemma SameDue(p: Parent, w: World, st: Store, next: Store)
    requires Undisturbed(p, st, next) && Servable(p, w, st)
    ensures forall j :: 0 <= j < |Targets(p, w)| && Due(p, w, st, j) ==> Due(p, w, next, j)
  {
    hide Consistent, GridOf, Sound, Targets, NamesFit, Unblocked, HasDefault, Gets, GoesThrough, WellNamed;
    assert WaitingSame(p, st, next);
    UnblockedStays(p, w, st, next);
  }

  /** A promise is about the parent's own rows, so other passes, before or after,
      do not touch it. */
  lemma ServedStays(p: Parent, w: World, before: Store, st: Store, next: Store, after: Store)
    requires Undisturbed(p, before, st) && Served(p, w, st, next) && Undisturbed(p, next, after)
    ensures Served(p, w, before, after)
  {
    hide Consistent, GridOf, Gets, SweepsAll, ComputeCutoff, Servable, Targets, Windows, Due, CoveredFor, AllCovered;
    if Servable(p, w, before) {
      UndisturbedServable(p, w, before, st);
      var last := w.clock(|Targets(p, w)|);
      assert Kept(p, before, after, last);
      if w.lock == Granted {
        SameDue(p, w, before, st);
        CoveredSooner(p, w, before, st, next.meta);
        AllCoverageKept(p, w, before, next.meta, after.meta, |Targets(p, w)|);
      }
    }
  }

  lemma CoveredSooner(p: Parent, w: World, before: Store, st: Store, meta: seq<PartRow>)
    requires forall j :: 0 <= j < |Targets(p, w)| && Due(p, w, before, j) ==> Due(p, w, st, j)
    requires AllCovered(p, w, st, meta, |Targets(p, w)|)
    ensures AllCovered(p, w, before, meta, |Targets(p, w)|)
  {
    hide Due, CoveredFor, Targets;
  }

  lemma StaysUndisturbed(p: Parent, st: Store)
    ensures Undisturbed(p, st, st)
  {
  }

  /** The state of a whole pass: the parents served so far have their promises,
      the others are as they were. */
  ghost predicate Progress(sites: seq<Site>, before: Store, st: Store, visited: nat)
    requires visited <= |sites|
  {
    AllServable(sites, before) ==> forall i :: 0 <= i < |sites| ==>
      if i < visited && sites[i].automatic then Served(sites[i].parent, sites[i].world, before, st)
      else Undisturbed(sites[i].parent, before, st)
  }

  lemma ProgressStarts(sites: seq<Site>, st: Store)
    ensures Progress(sites, st, st, 0)
  {
    hide Undisturbed;
    forall i | 0 <= i < |sites| ensures Undisturbed(sites[i].parent, st, st) {
      StaysUndisturbed(sites[i].parent, st);
    }
  }

  lemma ProgressSkips(sites: seq<Site>, before: Store, st: Store, visited: nat)
    requires visited < |sites| && !sites[visited].automatic && Progress(sites, before, st, visited)
    ensures Progress(sites, before, st, visited + 1)
  {
    hide Undisturbed, Served, AllServable;
  }

  lemma ProgressServes(sites: seq<Site>, before: Store, st: Store, next: Store, visited: nat)
    requires visited < |sites| && sites[visited].automatic && Progress(sites, before, st, visited)
    requires Served(sites[visited].parent, sites[visited].world, st, next)
    requires Contained(sites[visited].parent, sites[visited].world, st, next)
    ensures Progress(sites, before, next, visited + 1)
  {
    hide Undisturbed, Served, Contained, Servable, Apart;
    if AllServable(sites, before) {
      var q, w := sites[visited].parent, sites[visited].world;
      UndisturbedServable(q, w, before, st);
      StaysUndisturbed(q, next);
      ServedStays(q, w, before, st, next, next);
      forall i | 0 <= i < |sites| && i != visited
        ensures if i < visited && sites[i].automatic then Served(sites[i].parent, sites[i].world, before, next)
                else Undisturbed(sites[i].parent, before, next)
      {
        var p := sites[i].parent;
        PassLeaves(p, q, w, st, next);
        if i < visited && sites[i].automatic {
          StaysUndisturbed(p, before);
          ServedStays(p, sites[i].world, before, before, st, next);
        } else {
          UndisturbedTwice(p, before, st, next);
        }
      }
    }
  }

  /** Maintain: serves the parents of one database in turn until the context is
      cancelled.  Whatever one parent does, the next one is served; each automatic
      parent reached is counted once; an unlock is tried for every grant, and at
      most one grant is left behind, by the last parent reached. */
  method Maintain(locker: Locks.Locker, db: Database, sites: seq<Site>, listFails: bool, cancelled: nat -> bool)
    returns (err: Option<MaintainError>, visited: nat, processed: nat, skipped: nat, panicked: nat)
    requires locker.unlocks <= locker.grants
    modifies locker, db
    ensures visited <= |sites| && processed + skipped + panicked == Automatic(sites[..visited])
    ensures skipped == LockedOut(sites[..visited])
    ensures Fallen(sites[..visited]) <= panicked && ((forall s :: s in sites ==> Quiet(s)) ==> panicked == 0)
    ensures listFails ==> err == Some(ListParentsFailed) && visited == 0
    ensures err.None? ==> visited == |sites|
    ensures err == Some(PassCancelled) ==> visited < |sites| && cancelled(visited)
    ensures !listFails ==> forall i: nat :: i < visited ==> !cancelled(i)
    ensures locker.grants - old(locker.grants) == locker.unlocks - old(locker.unlocks)
    ensures locker.leaks - old(locker.leaks) == LeftBehind(sites[..visited])
    ensures OneContext(sites, cancelled) ==> locker.leaks - old(locker.leaks) <= 1
    ensures Progress(sites, old(db.Stored()), db.Stored(), visited)
  {
    hide *;
    ghost var before := db.Stored();
    visited, processed, skipped, panicked := 0, 0, 0, 0;
    NothingCounted(sites);
    ProgressStarts(sites, before);
    if listFails {
      return Some(ListParentsFailed), visited, processed, skipped, panicked;
    }
    while visited < |sites|
      invariant visited <= |sites| && processed + skipped + panicked == Automatic(sites[..visited])
      invariant skipped == LockedOut(sites[..visited])
      invariant (forall s :: s in sites ==> Quiet(s)) ==> panicked == 0
      invariant Fallen(sites[..visited]) <= panicked
      invariant forall i: nat :: i < visited ==> !cancelled(i)
      invariant locker.unlocks <= locker.grants
      invariant locker.grants - old(locker.grants) == locker.unlocks - old(locker.unlocks)
      invariant locker.leaks - old(locker.leaks) == LeftBehind(sites[..visited])
      invariant Progress(sites, before, db.Stored(), visited)
    {
      AtMostOneLeft(sites, cancelled, visited);
      if cancelled(visited) {
        return Some(PassCancelled), visited, processed, skipped, panicked;
      }
      var site := sites[visited];
      CountNext(sites, visited);
      if site.automatic {
        ghost var st := db.Stored();
        var result, escapes := ProcessParent(locker, db, site.parent, site.world);
        ProgressServes(sites, before, st, db.Stored(), visited);
        QuietIsProcessed(site);
        FallsIsPanicked(site, result);
        match result {
          case Locked => skipped := skipped + 1;
          case Processed => processed := processed + 1;
          case Panicked => panicked := panicked + 1;
        }
      } else {
        ProgressSkips(sites, before, db.Stored(), visited);
        FallsIfAutomatic(site);
      }
      visited := visited + 1;
    }
    AtMostOneLeft(sites, cancelled, visited);
    assert sites[..visited] == sites;
    err := None;
  }

  lemma AtMostOneLeft(sites: seq<Site>, cancelled: nat -> bool, n: nat)
    requires n <= |sites| && forall i: nat :: i < n ==> !cancelled(i)
    ensures OneContext(sites, cancelled) ==> LeftBehind(sites[..n]) <= 1
  {
    hide OneContext, LeftBehind;
    if OneContext(sites, cancelled) {
      OneLeftBehind(sites, cancelled, n);
    }
  }

  lemma NothingCounted(sites: seq<Site>)
    ensures Automatic(sites[..0]) == LockedOut(sites[..0]) == LeftBehind(sites[..0]) == Fallen(sites[..0]) == 0
  {
  }

  lemma CountNext(sites: seq<Site>, i: nat)
    requires i < |sites|
    ensures Automatic(sites[..i + 1]) == Automatic(sites[..i]) + if sites[i].automatic then 1 else 0
    ensures LockedOut(sites[..i + 1]) == LockedOut(sites[..i])
      + if sites[i].automatic && (sites[i].world.lock == Refused || sites[i].world.lock == TryFails) then 1 else 0
    ensures LeftBehind(sites[..i + 1]) == LeftBehind(sites[..i])
      + if sites[i].automatic && LeavesGrant(sites[i].world) then 1 else 0
    ensures Fallen(sites[..i + 1]) == Fallen(sites[..i]) + if Falls(sites[i]) then 1 else 0
  {
    assert sites[..i + 1][..i] == sites[..i];
  }

  lemma FallsIfAutomatic(s: Site)
    ensures Falls(s) ==> s.automatic
  {
  }

  lemma FallsIsPanicked(s: Site, result: ParentResult)
    requires result == Processed ==>
      s.world.lock == Granted && AllMade(s.parent, s.world) && !s.world.releasePanics
    requires result == Locked ==> s.world.lock == Refused || s.world.lock == TryFails
    ensures Falls(s) ==> result == Panicked
  {
    hide AllMade;
  }

  lemma QuietIsProcessed(s: Site)
    ensures Quiet(s) ==> s.world.lock != TryPanics && Calm(s.parent, s.world)
  {
  }
}
