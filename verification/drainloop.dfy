/** The drain as it runs: batches, groups, retries and the anomaly tracker. */
module DrainLoop {
  import opened Wrappers
  import opened Calendar
  import opened Periods
  import opened Metadata
  import opened Retry
  import opened Drain
  import Locks
  import Naming

  const DEFAULT_BATCH_SIZE := 1000

  datatype DrainError =
    | NoConnection | LockFailed | ParentBusy | ParentNotFound | ParentFailed | UnknownInterval | ColumnsFailed | NoColumns
    | DefaultMissing | DefaultFailed
    | CallCancelled | ReadFailed | LookupFailed | MoveFailed | SummaryFailed

  datatype Anomaly = Anomaly(bounds: Bounds, tenant: string, rowCount: nat)

  datatype Report = Report(anomalies: seq<Anomaly>, rowsMoved: nat, batchesRun: nat)

  /** The options of a call, as given. */
  datatype Options = Options(tenant: Option<string>, batchSize: int, maxBatches: int) {
    function BatchSize(): (n: nat) ensures n >= 1 { if batchSize <= 0 then DEFAULT_BATCH_SIZE else batchSize }
    function MaxBatches(): nat { if maxBatches < 0 then 0 else maxBatches }
  }

  /** The parent's row. */
  datatype Parent = Parent(id: string, interval: string, tenanted: bool)

  /** What can go wrong, and when: by batch, by group, and by attempt. */
  datatype Faults = Faults(
    cancelled: nat -> bool,
    readFails: nat -> bool,
    lookupFails: (nat, GroupKey) -> bool,
    attempt: (nat, GroupKey) -> nat -> Attempt,
    interrupted: (nat, GroupKey) -> nat -> bool,
    summaryFails: Option<nat>,
    contextOver: bool,
    sessionLives: bool)

  /** The answer to a query for one thing. */
  datatype Answer<T> = Found(value: T) | Absent | Failed

  /** What a call meets before its first batch: the lock is found taken or free,
      the parent's row, the columns to copy, and the default. */
  datatype Entry = Entry(connects: bool, lock: Answer<()>, parent: Answer<Parent>, columns: Answer<nat>, default: Answer<()>)

  /** Why a call ends before its first batch: the first thing that is missing. */
  function Refusal(e: Entry): Option<DrainError> {
    if !e.connects then Some(NoConnection)
    else if e.lock.Failed? then Some(LockFailed)
    else if e.lock.Absent? then Some(ParentBusy)
    else if e.parent.Failed? then Some(ParentFailed)
    else if e.parent.Absent? then Some(ParentNotFound)
    else if KindFromLabel(e.parent.value.interval).None? then Some(UnknownInterval)
    else if e.columns.Failed? then Some(ColumnsFailed)
    else if e.columns.Absent? || e.columns.value == 0 then Some(NoColumns)
    else if e.default.Failed? then Some(DefaultFailed)
    else if e.default.Absent? then Some(DefaultMissing)
    else None
  }

  /** The work of a call that is let in. */
  function EntryJob(e: Entry, meta: seq<PartRow>, opts: Options): Job
    requires Refusal(e).None?
  {
    JobOf(e.parent.value, KindFromLabel(e.parent.value.interval).value, meta, opts)
  }

  function JobOf(parent: Parent, k: Kind, meta: seq<PartRow>, opts: Options): Job {
    Job(CalendarGrid(k), parent.tenanted, opts.tenant, parent.id, meta)
  }

  /* ----- the anomaly tracker ----- */

  function SetOf<T(==)>(s: seq<T>): set<T> { set x | x in s }

  lemma {:induction false} DistinctSize<T>(s: seq<T>)
    requires Distinct(s)
    ensures |SetOf(s)| == |s|
  {
    if s != [] {
      var n := |s| - 1;
      DistinctSize(s[..n]);
      assert SetOf(s) == SetOf(s[..n]) + {s[n]};
    }
  }

  /** One anomaly per recorded key, in the order they were met. */
  predicate Listed(counts: map<GroupKey, nat>, order: seq<GroupKey>, out: seq<Anomaly>) {
    && Distinct(order) && SetOf(order) == counts.Keys && |out| == |order|
    && forall i :: 0 <= i < |order| ==>
         order[i] in counts && out[i] == Anomaly(order[i].bounds, order[i].tenant, counts[order[i]])
  }

  class AnomalyTracker {
    var byKey: map<GroupKey, nat>
    var order: seq<GroupKey>

    predicate Valid()
      reads this
    {
      Distinct(order) && SetOf(order) == byKey.Keys
    }

    constructor ()
      ensures Valid() && byKey == map[] && order == []
    {
      byKey, order := map[], [];
    }

    method Record(k: GroupKey, n: nat)
      requires Valid()
      modifies this
      ensures Valid()
      ensures byKey == old(byKey)[k := CountOf(old(byKey), k) + n]
      ensures order == if k in old(byKey) then old(order) else old(order) + [k]
    {
      if k !in byKey {
        assert k !in order by { assert k !in SetOf(order); }
        order := order + [k];
        assert SetOf(order) == old(SetOf(order)) + {k};
      }
      byKey := byKey[k := CountOf(byKey, k) + n];
    }

    method List() returns (out: seq<Anomaly>)
      requires Valid()
      ensures Listed(byKey, order, out)
    {
      assert forall i :: 0 <= i < |order| ==> order[i] in SetOf(order);
      out := [];
      for i := 0 to |order|
        invariant |out| == i
        invariant forall j :: 0 <= j < i ==> out[j] == Anomaly(order[j].bounds, order[j].tenant, byKey[order[j]])
      {
        out := out + [Anomaly(order[i].bounds, order[i].tenant, byKey[order[i]])];
      }
    }
  }

  /* ----- NULL control columns ----- */

  function NullRows(job: Job, rows: map<Ctid, Row>): set<Ctid> {
    set c | c in rows && rows[c].control.Null?
            && (job.tenanted && job.filter.Some? ==> rows[c].tenant == job.filter)
  }

  /** The group of a NULL row: its tenant, or the one group there is. */
  function NullTenant(job: Job, row: Row): Option<string> { if job.tenanted then row.tenant else None }

  function NullRowsOf(job: Job, rows: map<Ctid, Row>, tenant: Option<string>): set<Ctid> {
    set c | c in NullRows(job, rows) && NullTenant(job, rows[c]) == tenant
  }

  function TextOf(tenant: Option<string>): string { if tenant.Some? then tenant.value else "" }

  function NullTenants(job: Job, rows: map<Ctid, Row>): set<Option<string>> {
    set c | c in NullRows(job, rows) :: NullTenant(job, rows[c])
  }

  /** One anomaly for each of some tenants that have NULL rows, with their
      number. */
  ghost predicate CountsNulls(job: Job, rows: map<Ctid, Row>, tenants: seq<Option<string>>, nulls: seq<Anomaly>) {
    && Distinct(tenants) && |nulls| == |tenants| && SetOf(tenants) <= NullTenants(job, rows)
    && forall i :: 0 <= i < |nulls| ==>
         nulls[i] == Anomaly(Naming.ZERO_BOUNDS, TextOf(tenants[i]), |NullRowsOf(job, rows, tenants[i])|)
  }

  /** So for every tenant that has any. */
  ghost predicate SummarizesNulls(job: Job, rows: map<Ctid, Row>, tenants: seq<Option<string>>, nulls: seq<Anomaly>) {
    CountsNulls(job, rows, tenants, nulls) && SetOf(tenants) == NullTenants(job, rows)
  }

  lemma NothingCounted(job: Job, rows: map<Ctid, Row>)
    ensures CountsNulls(job, rows, [], []) && SetOf<Option<string>>([]) == {}
  {
  }

  lemma CountMore(job: Job, rows: map<Ctid, Row>, tenants: seq<Option<string>>, nulls: seq<Anomaly>, t: Option<string>)
    requires CountsNulls(job, rows, tenants, nulls) && t in NullTenants(job, rows) && t !in SetOf(tenants)
    ensures CountsNulls(job, rows, tenants + [t], nulls + [Anomaly(Naming.ZERO_BOUNDS, TextOf(t), |NullRowsOf(job, rows, t)|)])
    ensures SetOf(tenants + [t]) == SetOf(tenants) + {t}
  {
    hide NullRowsOf, NullTenants;
    AppendDistinct(tenants, t);
  }

  /** The summary query; `fails` is after how many of its rows the connection
      gives out. */
  method SummarizeNulls(job: Job, rows: map<Ctid, Row>, fails: Option<nat>) returns (ok: bool, nulls: seq<Anomaly>)
    ensures ok <==> fails.None? || fails.value > |NullTenants(job, rows)|
    ensures exists tenants :: CountsNulls(job, rows, tenants, nulls) && (ok ==> SummarizesNulls(job, rows, tenants, nulls))
    ensures !ok ==> |nulls| == fails.value
  {
    hide NullRowsOf, NullTenants, CountsNulls, SetOf, SummarizesNulls;
    ghost var all := NullTenants(job, rows);
    var pending := NullTenants(job, rows);
    ghost var tenants: seq<Option<string>> := [];
    nulls := [];
    NothingCounted(job, rows);
    while pending != {} && fails != Some(|nulls|)
      invariant pending <= all && SetOf(tenants) == all - pending && |nulls| + |pending| == |all|
      invariant CountsNulls(job, rows, tenants, nulls)
      invariant fails.Some? ==> |nulls| <= fails.value
      decreases pending
    {
      var t :| t in pending;
      CountMore(job, rows, tenants, nulls, t);
      nulls := nulls + [Anomaly(Naming.ZERO_BOUNDS, TextOf(t), |NullRowsOf(job, rows, t)|)];
      tenants := tenants + [t];
      pending := pending - {t};
    }
    ok := fails != Some(|nulls|);
    if ok {
      CountedAll(job, rows, tenants, nulls);
    }
    assert CountsNulls(job, rows, tenants, nulls) && (ok ==> SummarizesNulls(job, rows, tenants, nulls));
  }

  lemma CountedAll(job: Job, rows: map<Ctid, Row>, tenants: seq<Option<string>>, nulls: seq<Anomaly>)
    requires CountsNulls(job, rows, tenants, nulls) && SetOf(tenants) == NullTenants(job, rows)
    ensures SummarizesNulls(job, rows, tenants, nulls)
  {
    hide CountsNulls;
  }

  /* ----- one batch, step by step ----- */

  predicate Sorted(s: State, batch: seq<Ctid>) {
    && (forall c :: c in batch ==> c in s.tables.rows && !s.tables.rows[c].control.Null?)
    && forall i, j :: 0 <= i < j < |batch| ==> Precedes(s, batch[i], batch[j])
  }

  lemma AppendDistinct<T>(batch: seq<T>, c: T)
    requires Distinct(batch) && c !in SetOf(batch)
    ensures Distinct(batch + [c]) && SetOf(batch + [c]) == SetOf(batch) + {c}
  {
    assert forall x :: x in batch ==> x in SetOf(batch);
  }

  /** The read: the selected rows with the least control values, in order, ties
      in any order. */
  method ReadBatch(job: Job, s: State, size: nat) returns (batch: seq<Ctid>)
    ensures Distinct(batch) && IsBatch(job, size, s, SetOf(batch)) && Sorted(s, batch)
    ensures forall c :: c in batch ==> c in s.tables.rows && IsAskedFor(job, s, s.tables.rows[c])
    ensures |batch| < size ==> forall c :: c in s.tables.rows && IsAskedFor(job, s, s.tables.rows[c]) ==> c in batch
    ensures forall i, j :: 0 <= i < j < |batch| ==>
      Ordered(s.tables.rows[batch[i]].control, s.tables.rows[batch[j]].control)
    ensures forall c, e :: c in batch && e in s.tables.rows && IsAskedFor(job, s, s.tables.rows[e]) && e !in batch ==>
      Ordered(s.tables.rows[c].control, s.tables.rows[e].control)
  {
    hide Selected, IsBatch, SetOf, Distinct, IsAskedFor;
    var live := set c | c in s.tables.rows && Selected(job, s.counts.Keys, s.tables.rows[c]);
    LiveHasControl(job, s);
    batch := [];
    var rest := live;
    assert Distinct(batch) && SetOf(batch) == {} by { EmptyDistinct<Ctid>(); }
    while rest != {} && |batch| < size
      invariant rest <= live && Distinct(batch) && SetOf(batch) == live - rest
      invariant |batch| <= size && Sorted(s, batch)
      invariant forall c, e :: c in batch && e in rest ==> Precedes(s, c, e)
      decreases rest
    {
      ghost var least := LeastControl(s, rest);
      var c :| c in rest && forall e :: e in rest ==> Precedes(s, c, e);
      AppendDistinct(batch, c);
      batch := batch + [c];
      rest := rest - {c};
    }
    DistinctSize(batch);
    SubsetSize(rest, live);
    BatchPicked(job, size, s, batch, rest);
    forall c | c in s.tables.rows
      ensures c in live <==> IsAskedFor(job, s, s.tables.rows[c])
    {
      SelectedIsAskedFor(job, s, s.tables.rows[c]);
    }
    assert forall c :: c in batch <==> c in SetOf(batch) by { InSetOf(batch); }
    OrderedBatch(s, batch, rest);
  }

  lemma OrderedBatch(s: State, batch: seq<Ctid>, rest: set<Ctid>)
    requires Sorted(s, batch) && forall e :: e in rest ==> e in s.tables.rows && !s.tables.rows[e].control.Null?
    requires forall c, e :: c in batch && e in rest ==> Precedes(s, c, e)
    ensures forall i, j :: 0 <= i < j < |batch| ==>
      Ordered(s.tables.rows[batch[i]].control, s.tables.rows[batch[j]].control)
    ensures forall c, e :: c in batch && e in rest ==> Ordered(s.tables.rows[c].control, s.tables.rows[e].control)
  {
  }

  lemma InSetOf<T>(s: seq<T>)
    ensures forall x :: x in s <==> x in SetOf(s)
  {
  }

  /** Control values in the order PostgreSQL sorts them, both infinities around
      the times. */
  predicate Ordered(a: Control, b: Control) {
    (a.Finite? && b.Finite? ==> a.at <= b.at) && (a.Infinity? ==> b.Infinity?) && (b.MinusInfinity? ==> a.MinusInfinity?)
  }

  /** The WHERE clause of the read: a control value, the tenant asked for, and
      none of the recorded ranges and tenants. */
  predicate IsAskedFor(job: Job, s: State, row: Row) {
    && row.control != Null && (job.tenanted && job.filter.Some? ==> row.tenant == job.filter)
    && forall k :: k in s.counts ==>
         !(row.control.Finite? && k.bounds.from <= row.control.at < k.bounds.to
           && (job.tenanted ==> if k.tenantOK && k.tenant != "" then row.tenant == Some(k.tenant) else row.tenant == None))
  }

  lemma SelectedIsAskedFor(job: Job, s: State, row: Row)
    ensures Selected(job, s.counts.Keys, row) <==> IsAskedFor(job, s, row)
  {
    forall k
      ensures Covers(job, k, row) <==>
        (row.control.Finite? && k.bounds.from <= row.control.at < k.bounds.to
         && (job.tenanted ==> if k.tenantOK && k.tenant != "" then row.tenant == Some(k.tenant) else row.tenant == None))
    {
    }
  }

  lemma EmptyDistinct<T>()
    ensures Distinct<T>([]) && SetOf<T>([]) == {}
  {
  }

  lemma BatchPicked(job: Job, size: nat, s: State, batch: seq<Ctid>, rest: set<Ctid>)
    requires Sorted(s, batch) && rest <= Live(job, s) && SetOf(batch) == Live(job, s) - rest
    requires |SetOf(batch)| == |batch| <= size && (rest == {} || |batch| == size)
    requires forall e :: e in rest ==> e in s.tables.rows && !s.tables.rows[e].control.Null?
    requires forall c, e :: c in batch && e in rest ==> Precedes(s, c, e)
    ensures IsBatch(job, size, s, SetOf(batch))
  {
    hide Live, Sorted;
    SubsetSize(rest, Live(job, s));
    assert Live(job, s) - SetOf(batch) == rest;
    assert forall c :: c in SetOf(batch) ==> c in batch;
  }

  /** A bucket holds the rows at `ctids` of its key, each once. */
  predicate Bucket(job: Job, rows: map<Ctid, Row>, ctids: set<Ctid>, k: GroupKey, bucket: seq<Ctid>) {
    && Distinct(bucket) && SetOf(bucket) == Having(job, rows, ctids, k) && |bucket| == |Having(job, rows, ctids, k)|
  }

  /** The buckets hold the rows at `ctids` by key, each once. */
  predicate Grouped(job: Job, rows: map<Ctid, Row>, ctids: set<Ctid>, groups: map<GroupKey, seq<Ctid>>) {
    && groups.Keys == KeysIn(job, rows, ctids)
    && forall k :: k in groups ==> Distinct(groups[k]) && SetOf(groups[k]) == Having(job, rows, ctids, k)
  }

  /** Adding a row to its bucket. */
  lemma GroupOne(job: Job, rows: map<Ctid, Row>, ctids: set<Ctid>, groups: map<GroupKey, seq<Ctid>>, c: Ctid)
    requires Grouped(job, rows, ctids, groups) && c !in ctids && c in rows && Readable(job, rows[c])
    ensures var k := KeyOf(job, rows[c]);
      Grouped(job, rows, ctids + {c}, groups[k := (if k in groups then groups[k] else []) + [c]])
  {
    hide Distinct, SetOf;
    var k := KeyOf(job, rows[c]);
    var bucket := if k in groups then groups[k] else [];
    var after := groups[k := bucket + [c]];
    EmptyDistinct<Ctid>();
    assert SetOf(bucket) == Having(job, rows, ctids, k);
    AppendDistinct(bucket, c);
    assert Having(job, rows, ctids + {c}, k) == Having(job, rows, ctids, k) + {c};
    assert after.Keys == KeysIn(job, rows, ctids + {c});
    forall q | q in after
      ensures Distinct(after[q]) && SetOf(after[q]) == Having(job, rows, ctids + {c}, q)
    {
      if q != k {
        assert Having(job, rows, ctids + {c}, q) == Having(job, rows, ctids, q);
      }
    }
  }

  /** Buckets a batch by tenant and window. */
  method GroupByBounds(job: Job, rows: map<Ctid, Row>, batch: seq<Ctid>) returns (groups: map<GroupKey, seq<Ctid>>)
    requires Distinct(batch) && forall c :: c in batch ==> c in rows && Readable(job, rows[c])
    ensures Grouped(job, rows, SetOf(batch), groups)
  {
    hide KeyOf, Having, KeysIn;
    groups := map[];
    assert Grouped(job, rows, SetOf(batch[..0]), groups) by { NoKeys(job, rows, SetOf(batch[..0])); }
    hide Grouped;
    for i := 0 to |batch|
      invariant Grouped(job, rows, SetOf(batch[..i]), groups)
    {
      var c := batch[i];
      assert SetOf(batch[..i + 1]) == SetOf(batch[..i]) + {c};
      GroupOne(job, rows, SetOf(batch[..i]), groups, c);
      var k := KeyOf(job, rows[c]);
      groups := groups[k := (if k in groups then groups[k] else []) + [c]];
    }
    assert batch[..|batch|] == batch;
  }

  lemma NoKeys(job: Job, rows: map<Ctid, Row>, ctids: set<Ctid>)
    requires ctids == {}
    ensures KeysIn(job, rows, ctids) == {}
  {
  }

  /** DELETE ... WHERE ctid = ANY(...) RETURNING, feeding INSERT. */
  method DeleteReturning(rows: map<Ctid, Row>, ctids: seq<Ctid>)
    returns (left: map<Ctid, Row>, returned: multiset<Row>, affected: nat)
    requires Distinct(ctids) && SetOf(ctids) <= rows.Keys
    ensures left == rows - SetOf(ctids) && returned == RowsAt(rows, SetOf(ctids)) && affected == |ctids|
  {
    hide RowsAt;
    left, returned, affected := rows, multiset{}, 0;
    assert SetOf(ctids[..0]) == {};
    assert RowsAt(rows, {}) == multiset{} by { NoRowsAt(rows); }
    for i := 0 to |ctids|
      invariant SetOf(ctids[..i]) <= rows.Keys
      invariant left == rows - SetOf(ctids[..i]) && returned == RowsAt(rows, SetOf(ctids[..i])) && affected == i
    {
      var c := ctids[i];
      assert c in SetOf(ctids) && c !in SetOf(ctids[..i]);
      assert SetOf(ctids[..i + 1]) == SetOf(ctids[..i]) + {c};
      RowsAtWithout(rows, SetOf(ctids[..i + 1]), c);
      assert SetOf(ctids[..i + 1]) - {c} == SetOf(ctids[..i]);
      if c in left {
        returned := returned + multiset{left[c]};
        left := left - {c};
        affected := affected + 1;
      }
    }
    assert ctids[..|ctids|] == ctids;
  }

  lemma NoRowsAt(rows: map<Ctid, Row>)
    ensures RowsAt(rows, {}) == multiset{}
  {
  }

  lemma SameContent(t: Tables, left: map<Ctid, Row>, name: string)
    ensures Content(Tables(left, t.children), name) == Content(t, name)
  {
  }

  /** Moving some rows to one child. */
  lemma DeliverOne(t: Tables, name: string, cs: set<Ctid>)
    requires cs <= t.rows.Keys
    ensures Delivered(t, Tables(t.rows - cs, t.children[name := Content(t, name) + RowsAt(t.rows, cs)]),
                      map c | c in cs :: name)
  {
    hide RowsAt;
    var moved := map c | c in cs :: name;
    var after := Tables(t.rows - cs, t.children[name := Content(t, name) + RowsAt(t.rows, cs)]);
    assert moved.Keys == cs;
    forall other
      ensures Content(after, other) == Content(t, other) + RowsAt(t.rows, Sent(moved, other))
    {
      assert Sent(moved, other) == if other == name then cs else {};
      NoRowsAt(t.rows);
    }
  }

  /* ----- the groups of a batch ----- */

  /** The picked rows that move once the groups in `done` are handled. */
  function MovableIn(job: Job, rows: map<Ctid, Row>, picked: set<Ctid>, done: set<GroupKey>): set<Ctid> {
    set c | c in Movable(job, rows, picked) && KeyOf(job, rows[c]) in done
  }

  /** The effect of a batch after the groups in `done`. */
  ghost predicate HandledUpTo(job: Job, s: State, after: State, picked: set<Ctid>, done: set<GroupKey>,
                              moved: map<Ctid, string>)
  {
    var rows := s.tables.rows;
    && moved.Keys == MovableIn(job, rows, picked, done)
    && Justified(job, rows, moved)
    && Delivered(s.tables, after.tables, moved)
    && after.counts.Keys == s.counts.Keys + (set k | k in done && !HasTarget(job, k))
    && forall k :: k in after.counts ==>
         after.counts[k] == CountOf(s.counts, k) + if k in done then NewCount(job, rows, picked, k) else 0
  }

  lemma HandledAtFirst(job: Job, s: State, picked: set<Ctid>)
    ensures HandledUpTo(job, s, s, picked, {}, map[])
  {
    NothingDelivered(s.tables);
    var none: map<Ctid, string> := map[];
    assert none.Keys == MovableIn(job, s.tables.rows, picked, {});
  }

  lemma HandledAtLast(job: Job, s: State, after: State, picked: set<Ctid>, moved: map<Ctid, string>)
    requires HandledUpTo(job, s, after, picked, KeysIn(job, s.tables.rows, picked), moved)
    ensures Handled(job, s, after, picked, moved)
  {
    hide HasTarget, Delivered, Justified, KeyOf;
    var rows := s.tables.rows;
    var done := KeysIn(job, rows, picked);
    forall c | c in Movable(job, rows, picked)
      ensures KeyOf(job, rows[c]) in done
    {
    }
    forall k | k in after.counts && k !in done
      ensures NewCount(job, rows, picked, k) == 0
    {
      NoneHaving(job, rows, picked, k);
    }
  }

  lemma NoneHaving(job: Job, rows: map<Ctid, Row>, picked: set<Ctid>, k: GroupKey)
    requires k !in KeysIn(job, rows, picked)
    ensures Having(job, rows, picked, k) == {}
  {
  }

  /** A group without a target is recorded. */
  lemma HandleMissing(job: Job, s: State, after: State, picked: set<Ctid>, done: set<GroupKey>,
                      moved: map<Ctid, string>, k: GroupKey)
    requires HandledUpTo(job, s, after, picked, done, moved) && k !in done && !HasTarget(job, k)
    ensures var n := |Having(job, s.tables.rows, picked, k)|;
      HandledUpTo(job, s, State(after.tables, after.counts[k := CountOf(after.counts, k) + n]), picked, done + {k}, moved)
  {
    hide HasTarget, Delivered, Justified, Readable, Having;
    var rows := s.tables.rows;
    assert MovableIn(job, rows, picked, done + {k}) == MovableIn(job, rows, picked, done);
  }

  lemma TargetCountsNothing(job: Job, rows: map<Ctid, Row>, picked: set<Ctid>, k: GroupKey)
    requires HasTarget(job, k)
    ensures NewCount(job, rows, picked, k) == 0
  {
  }

  /** A group with a target moves there. */
  lemma HandleFound(job: Job, s: State, mid: State, after: State, picked: set<Ctid>, done: set<GroupKey>,
                    moved: map<Ctid, string>, k: GroupKey, r: PartRow)
    requires HandledUpTo(job, s, mid, picked, done, moved) && k !in done && r in job.meta && IsTarget(job, k, r)
    requires forall c :: c in Having(job, s.tables.rows, picked, k) ==> s.tables.rows[c].control.Finite?
    requires Delivered(mid.tables, after.tables, map c | c in Having(job, s.tables.rows, picked, k) :: r.name)
    requires after.counts == mid.counts
    ensures HandledUpTo(job, s, after, picked, done + {k},
                        moved + map c | c in Having(job, s.tables.rows, picked, k) :: r.name)
  {
    hide Delivered, IsTarget, NewCount, MovableIn, Having, Justified;
    var rows, cs := s.tables.rows, Having(job, s.tables.rows, picked, k);
    var second := map c | c in cs :: r.name;
    assert HasTarget(job, k);
    TargetCountsNothing(job, rows, picked, k);
    assert second.Keys == cs;
    MovableWith(job, rows, picked, done, k);
    DeliveredTwice(s.tables, mid.tables, after.tables, moved, second);
    GroupJustified(job, rows, picked, moved, k, r);
  }

  /** The rows of a group with a target join those that are to move. */
  lemma MovableWith(job: Job, rows: map<Ctid, Row>, picked: set<Ctid>, done: set<GroupKey>, k: GroupKey)
    requires HasTarget(job, k)
    requires forall c :: c in Having(job, rows, picked, k) ==> rows[c].control.Finite?
    ensures MovableIn(job, rows, picked, done + {k}) == MovableIn(job, rows, picked, done) + Having(job, rows, picked, k)
  {
    hide HasTarget, KeyOf, Readable;
  }

  lemma GroupJustified(job: Job, rows: map<Ctid, Row>, picked: set<Ctid>, moved: map<Ctid, string>, k: GroupKey, r: PartRow)
    requires Justified(job, rows, moved) && r in job.meta && IsTarget(job, k, r)
    requires forall c :: c in Having(job, rows, picked, k) ==> rows[c].control.Finite?
    ensures Justified(job, rows, moved + map c | c in Having(job, rows, picked, k) :: r.name)
  {
    hide IsTarget, KeyOf, Readable;
  }

  /** Handling other groups leaves the rows of a group in the default. */
  lemma GroupRemains(job: Job, s: State, mid: State, picked: set<Ctid>, done: set<GroupKey>, moved: map<Ctid, string>,
                     k: GroupKey)
    requires HandledUpTo(job, s, mid, picked, done, moved) && k !in done
    ensures Having(job, s.tables.rows, picked, k) <= mid.tables.rows.Keys
  {
    hide HasTarget, Justified, Readable;
    assert mid.tables.rows == s.tables.rows - moved.Keys;
  }

  /** Handling groups changes no row that is left. */
  lemma RowsLeft(job: Job, s: State, mid: State, picked: set<Ctid>, done: set<GroupKey>, moved: map<Ctid, string>)
    requires HandledUpTo(job, s, mid, picked, done, moved)
    ensures forall c :: c in mid.tables.rows ==> c in s.tables.rows && mid.tables.rows[c] == s.tables.rows[c]
  {
    hide HasTarget, Justified, Readable;
    assert mid.tables.rows == s.tables.rows - moved.Keys;
  }

  ghost predicate SentToTarget(job: Job, mid: State, after: State, k: GroupKey, cs: set<Ctid>, r: PartRow) {
    && IsTarget(job, k, r) && Delivered(mid.tables, after.tables, map c | c in cs :: r.name)
    && forall c :: c in cs ==> c in mid.tables.rows && mid.tables.rows[c].control.Finite?
  }

  /** The effect of handling one group. */
  ghost predicate GroupRouted(job: Job, mid: State, after: State, k: GroupKey, ctids: seq<Ctid>) {
    if HasTarget(job, k) then
      after.counts == mid.counts && (exists r :: r in job.meta && SentToTarget(job, mid, after, k, SetOf(ctids), r))
    else
      after == State(mid.tables, mid.counts[k := CountOf(mid.counts, k) + |ctids|])
  }

  lemma HandleGroup(job: Job, s: State, mid: State, after: State, picked: set<Ctid>, done: set<GroupKey>,
                    moved: map<Ctid, string>, k: GroupKey, ctids: seq<Ctid>) returns (all: map<Ctid, string>)
    requires HandledUpTo(job, s, mid, picked, done, moved) && k !in done && GroupRouted(job, mid, after, k, ctids)
    requires SetOf(ctids) == Having(job, s.tables.rows, picked, k) && |ctids| == |Having(job, s.tables.rows, picked, k)|
    ensures HandledUpTo(job, s, after, picked, done + {k}, all)
  {
    hide Delivered, HandledUpTo, IsTarget, SetOf, Having;
    if HasTarget(job, k) {
      var r :| r in job.meta && SentToTarget(job, mid, after, k, SetOf(ctids), r);
      RowsLeft(job, s, mid, picked, done, moved);
      HandleFound(job, s, mid, after, picked, done, moved, k, r);
      all := moved + map c | c in Having(job, s.tables.rows, picked, k) :: r.name;
    } else {
      HandleMissing(job, s, mid, picked, done, moved, k);
      all := moved;
    }
  }

  /** Nothing goes wrong: no cancellation, no failing query, and every move
      commits within its attempts. */
  ghost predicate NoFaults(faults: Faults) {
    && faults.summaryFails.None?
    && (forall i :: !faults.cancelled(i) && !faults.readFails(i))
    && forall i: nat, k :: !faults.lookupFails(i, k) && GoesThrough(faults.attempt(i, k), faults.interrupted(i, k))
  }

  /** What made the batch numbered `batch` fail at the group of a key: its lookup,
      or the transaction of its move, which does not get through or meets a row that
      the target does not take. */
  ghost predicate FailsAt(job: Job, faults: Faults, batch: nat, k: GroupKey, refused: bool, err: DrainError) {
    if faults.lookupFails(batch, k) then err == LookupFailed
    else
      && err == MoveFailed && HasTarget(job, k)
      && (refused || !GoesThrough(faults.attempt(batch, k), faults.interrupted(batch, k)))
  }

  ghost predicate BatchFails(job: Job, faults: Faults, batch: nat, refused: bool, err: DrainError) {
    exists k :: FailsAt(job, faults, batch, k, refused, err)
  }

  /** An error of a call that was let in is one that was met: in a batch, on the
      way to the next one, or in the summary. */
  ghost predicate ErrorIsReal(job: Job, faults: Faults, rows: map<Ctid, Row>, report: Report, err: DrainError) {
    var n := report.batchesRun;
    match err
    case CallCancelled => faults.cancelled(n)
    case ReadFailed => faults.readFails(n) || !Fits(job, rows)
    case SummaryFailed => faults.summaryFails.Some?
    case LookupFailed => n > 0 && BatchFails(job, faults, n - 1, Refusals(job, rows) != {}, err)
    case MoveFailed => n > 0 && BatchFails(job, faults, n - 1, Refusals(job, rows) != {}, err)
    case _ => false
  }

  /** The first batches were neither cancelled nor met a failing read. */
  ghost predicate Clear(faults: Faults, batches: nat) {
    forall i: nat :: i < batches ==> !faults.cancelled(i) && !faults.readFails(i)
  }

  /** No batch is run past a cancellation or a failing read, and the end of the rows
      is not found past one either. */
  ghost predicate StopsInTime(opts: Options, faults: Faults, err: Option<DrainError>, report: Report) {
    && Clear(faults, report.batchesRun)
    && (err.None? && RanDry(opts, report.batchesRun) ==>
          !faults.cancelled(report.batchesRun) && !faults.readFails(report.batchesRun))
  }

  predicate Fits(job: Job, rows: map<Ctid, Row>) { ReadParams(job, |MissingKeys(job, rows)|) <= PARAM_LIMIT }

  /** And no move would be refused, and a read can exclude all the keys that have
      no target. */
  ghost predicate Unhindered(job: Job, faults: Faults, rows: map<Ctid, Row>) {
    NoFaults(faults) && Refusals(job, rows) == {} && ReadParams(job, |MissingKeys(job, rows)|) <= PARAM_LIMIT
  }

  /* ----- the report ----- */

  /** The anomalies of a complete drain: the NULL rows by tenant, and then every
      key that has rows left, once, with a count from one to the rows left. */
  ghost predicate AnomaliesExact(job: Job, rows: map<Ctid, Row>, anomalies: seq<Anomaly>) {
    exists tenants, nulls, order, missing ::
      && SummarizesNulls(job, rows, tenants, nulls) && MissingExact(job, rows, order, missing)
      && anomalies == nulls + missing
  }

  ghost predicate MissingExact(job: Job, rows: map<Ctid, Row>, order: seq<GroupKey>, missing: seq<Anomaly>) {
    && Distinct(order) && SetOf(order) == KeysIn(job, rows, rows.Keys) && |missing| == |order|
    && forall i :: 0 <= i < |order| ==>
         && missing[i].bounds == order[i].bounds && missing[i].tenant == order[i].tenant
         && 1 <= missing[i].rowCount <= |Having(job, rows, rows.Keys, order[i])|
  }

  /** Whether the loop ended because nothing was left to read. */
  predicate RanDry(opts: Options, batchesRun: nat) { opts.MaxBatches() == 0 || batchesRun < opts.MaxBatches() }

  /** No more rows were moved than the batches can have had. */
  predicate MovedWithin(moved: nat, batches: nat, size: nat) { moved <= batches * size }

  /** The promise of a drain, for the tables before and after. */
  ghost predicate DrainContract(job: Job, opts: Options, before: Tables, after: Tables, err: Option<DrainError>,
                                report: Report) {
    var start, n := State(before, map[]), report.batchesRun;
    && Progressed(job, before, after)
    && report.rowsMoved == |before.rows| - |after.rows|
    && MovedWithin(report.rowsMoved, report.batchesRun, opts.BatchSize())
    && (opts.MaxBatches() > 0 ==> n <= opts.MaxBatches())
    && (NoneStuck(job, before.rows) && n > 0 ==> (n - 1) * opts.BatchSize() < |Live(job, start)|)
    && (err.None? && RanDry(opts, n) ==> Complete(job, before, after, report))
    && (err.None? && RanDry(opts, n) && AllTargeted(job, before.rows) ==>
          n == (|Live(job, start)| + opts.BatchSize() - 1) / opts.BatchSize())
    && (err.None? ==> AnomaliesKnown(job, before, after, report.anomalies))
    && (err.Some? ==> PartialReport(job, after.rows, err.value, report))
  }

  /** The anomalies of any drain that ends well: the NULL rows by tenant, and then
      keys that had rows and no target at the start. */
  ghost predicate AnomaliesKnown(job: Job, before: Tables, after: Tables, anomalies: seq<Anomaly>) {
    exists tenants, nulls, order, missing ::
      && SummarizesNulls(job, after.rows, tenants, nulls) && FromMissing(job, before.rows, order, missing)
      && anomalies == nulls + missing
  }

  ghost predicate FromMissing(job: Job, rows: map<Ctid, Row>, order: seq<GroupKey>, missing: seq<Anomaly>) {
    && Distinct(order) && |missing| == |order|
    && forall i :: 0 <= i < |order| ==>
         order[i] in MissingKeys(job, rows) && missing[i].bounds == order[i].bounds && missing[i].tenant == order[i].tenant
  }

  /** A drain that read until nothing was left, the last time past the keys of all
      rows without a target. */
  ghost predicate Complete(job: Job, before: Tables, after: Tables, report: Report) {
    && NoneStuck(job, before.rows) && Refusals(job, before.rows) == {}
    && ReadParams(job, |MissingKeys(job, before.rows)|) <= PARAM_LIMIT
    && RoutedAll(job, before, after) && AnomaliesExact(job, after.rows, report.anomalies)
  }

  /** The anomalies of a failed call: some of the NULL rows' if the summary failed,
      and none otherwise. */
  ghost predicate PartialReport(job: Job, rows: map<Ctid, Row>, err: DrainError, report: Report) {
    if err == SummaryFailed then exists tenants :: CountsNulls(job, rows, tenants, report.anomalies)
    else report.anomalies == []
  }

  /** A drain that stops for any reason: after the batches of `run`, perhaps
      within the next one. */
  lemma DrainStops(job: Job, opts: Options, before: Tables, run: seq<State>, after: Tables, moved: map<Ctid, string>,
                   err: DrainError, report: Report)
    requires Tiling(job.grid) && run != [] && IsRun(job, opts.BatchSize(), run) && run[0] == State(before, map[])
    requires Delivered(run[|run| - 1].tables, after, moved) && Justified(job, run[|run| - 1].tables.rows, moved)
    requires report.rowsMoved == |before.rows| - |after.rows| && PartialReport(job, after.rows, err, report)
    requires report.batchesRun == |run| - 1 || (report.batchesRun == |run| && Live(job, run[|run| - 1]) != {})
    requires opts.MaxBatches() > 0 ==> report.batchesRun <= opts.MaxBatches()
    requires MovedWithin(report.rowsMoved, report.batchesRun, opts.BatchSize())
    ensures DrainContract(job, opts, before, after, Some(err), report)
  {
    hide Delivered, Justified, IsRun, Live, Progressed, NoneStuck, Complete, AllTargeted, RanDry, PartialReport,
      MovedWithin;
    RunConserves(job, opts.BatchSize(), run);
    ProgressedStep(job, before, run[|run| - 1].tables, after, moved);
    if NoneStuck(job, before.rows) {
      NothingRecorded(job, before);
      RunIsBounded(job, opts.BatchSize(), run);
      assert Live(job, run[|run| - 1]) != {} ==> |Live(job, run[|run| - 1])| > 0;
    }
  }

  lemma NothingRecorded(job: Job, before: Tables)
    ensures Recorded(job, State(before, map[]))
  {
  }

  /** A drain that ends well after the batches of `run`. */
  lemma DrainEnds(job: Job, opts: Options, before: Tables, run: seq<State>, tenants: seq<Option<string>>,
                  nulls: seq<Anomaly>, order: seq<GroupKey>, missing: seq<Anomaly>, report: Report)
    requires Tiling(job.grid) && run != [] && IsRun(job, opts.BatchSize(), run) && run[0] == State(before, map[])
    requires report.rowsMoved == |before.rows| - |run[|run| - 1].tables.rows|
    requires report.batchesRun == |run| - 1
    requires opts.MaxBatches() > 0 ==> report.batchesRun <= opts.MaxBatches()
    requires RanDry(opts, report.batchesRun) ==> Live(job, run[|run| - 1]) == {}
    requires SummarizesNulls(job, run[|run| - 1].tables.rows, tenants, nulls)
    requires Listed(run[|run| - 1].counts, order, missing)
    requires report.anomalies == nulls + missing
    requires RanDry(opts, report.batchesRun) ==> ReadParams(job, |run[|run| - 1].counts|) <= PARAM_LIMIT
    requires MovedWithin(report.rowsMoved, report.batchesRun, opts.BatchSize())
    ensures DrainContract(job, opts, before, run[|run| - 1].tables, None, report)
  {
    hide Delivered, Justified, IsRun, Live, Progressed, NoneStuck, AllTargeted, RanDry, Complete, PartialReport,
      SummarizesNulls, Listed, Recorded, FromMissing, MovedWithin;
    var size, s := opts.BatchSize(), run[|run| - 1];
    RunConserves(job, size, run);
    ListedMissing(job, size, run, order, missing);
    assert AnomaliesKnown(job, before, s.tables, report.anomalies);
    hide AnomaliesKnown;
    if NoneStuck(job, before.rows) {
      NothingRecorded(job, before);
      RunIsBounded(job, size, run);
    }
    if RanDry(opts, report.batchesRun) {
      DryIsComplete(job, size, before, run, tenants, nulls, order, missing, report);
      if AllTargeted(job, before.rows) {
        FullRunLength(job, size, run);
      }
    }
  }

  lemma ListedMissing(job: Job, size: nat, run: seq<State>, order: seq<GroupKey>, missing: seq<Anomaly>)
    requires IsRun(job, size, run) && run != [] && run[0].counts == map[] && Listed(run[|run| - 1].counts, order, missing)
    ensures FromMissing(job, run[0].tables.rows, order, missing)
  {
    hide IsRun, MissingKeys, Distinct;
    RecordsMissing(job, size, run);
  }

  /** Nothing is left to read. */
  lemma DryIsComplete(job: Job, size: nat, before: Tables, run: seq<State>, tenants: seq<Option<string>>,
                      nulls: seq<Anomaly>, order: seq<GroupKey>, missing: seq<Anomaly>, report: Report)
    requires Tiling(job.grid) && size >= 1 && run != [] && IsRun(job, size, run) && run[0] == State(before, map[])
    requires Live(job, run[|run| - 1]) == {}
    requires SummarizesNulls(job, run[|run| - 1].tables.rows, tenants, nulls)
    requires Listed(run[|run| - 1].counts, order, missing)
    requires report.anomalies == nulls + missing
    requires ReadParams(job, |run[|run| - 1].counts|) <= PARAM_LIMIT
    ensures Complete(job, before, run[|run| - 1].tables, report)
  {
    hide IsRun, Live, Progressed, NoneStuck, RoutedAll, SummarizesNulls, Recorded, Having, KeysIn, Distinct, SetOf,
      Refusals, MissingKeys;
    var s := run[|run| - 1];
    RunConserves(job, size, run);
    DryMeansNoneStuck(job, size, run);
    NothingRecorded(job, before);
    RunIsBounded(job, size, run);
    DrainedIsRouted(job, before, s);
    DrainedAnomaliesExact(job, s);
    DryRecordsAll(job, before, s);
    assert |s.counts| == |s.counts.Keys|;
    assert MissingExact(job, s.tables.rows, order, missing);
  }

  /* ----- the state of a drain between its batches ----- */

  /** The report once another batch has run. */
  function After(report: Report, n: nat): Report {
    report.(batchesRun := report.batchesRun + 1, rowsMoved := report.rowsMoved + n)
  }

  /** The state after the batches of `run`. */
  ghost predicate Reached(job: Job, opts: Options, faults: Faults, before: Tables, run: seq<State>, s: State,
                          report: Report) {
    && IsRun(job, opts.BatchSize(), run) && run[0] == State(before, map[]) && run[|run| - 1] == s
    && report.anomalies == [] && report.rowsMoved == |before.rows| - |s.tables.rows| && report.batchesRun == |run| - 1
    && MovedWithin(report.rowsMoved, report.batchesRun, opts.BatchSize())
    && (opts.MaxBatches() > 0 ==> report.batchesRun <= opts.MaxBatches())
    && (opts.MaxBatches() == 0 ==> !Endless(job, opts.BatchSize(), before.rows))
    && Clear(faults, report.batchesRun)
  }

  lemma ReachedFirst(job: Job, opts: Options, faults: Faults, before: Tables)
    requires opts.MaxBatches() == 0 ==> !Endless(job, opts.BatchSize(), before.rows)
    ensures Reached(job, opts, faults, before, [State(before, map[])], State(before, map[]), Report([], 0, 0))
  {
    hide Endless, BatchStep, Clear;
    ClearOn(faults, 0);
  }

  lemma ReachedStops(job: Job, opts: Options, faults: Faults, before: Tables, run: seq<State>, s: State,
                     report: Report, err: DrainError)
    requires Tiling(job.grid) && Reached(job, opts, faults, before, run, s, report)
    requires if err == CallCancelled then faults.cancelled(report.batchesRun)
             else err == ReadFailed && (faults.readFails(report.batchesRun) || !Fits(job, before.rows))
    ensures DrainContract(job, opts, before, s.tables, Some(err), report)
    ensures ErrorIsReal(job, faults, before.rows, report, err) && StopsInTime(opts, faults, Some(err), report)
  {
    hide IsRun, MovedWithin, Endless, DrainContract, Delivered, Justified, Tiling, Live, Fits, Clear;
    NoProgress(job, s.tables);
    DrainStops(job, opts, before, run, s.tables, map[], err, report);
  }

  /** A batch that fails within. */
  lemma ReachedBreaks(job: Job, opts: Options, faults: Faults, before: Tables, run: seq<State>, s: State, after: Tables,
                      picked: set<Ctid>, moved: map<Ctid, string>, n: nat, report: Report, err: DrainError)
    requires Tiling(job.grid) && Reached(job, opts, faults, before, run, s, report) && err != SummaryFailed
    requires BatchFails(job, faults, report.batchesRun, Refusals(job, s.tables.rows) != {}, err)
    requires !faults.cancelled(report.batchesRun) && !faults.readFails(report.batchesRun)
    requires opts.MaxBatches() == 0 || report.batchesRun < opts.MaxBatches()
    requires Live(job, s) != {} && IsBatch(job, opts.BatchSize(), s, picked)
    requires Delivered(s.tables, after, moved) && Justified(job, s.tables.rows, moved)
    requires n == |s.tables.rows| - |after.rows| <= |picked|
    ensures DrainContract(job, opts, before, after, Some(err), After(report, n))
    ensures ErrorIsReal(job, faults, before.rows, After(report, n), err)
    ensures StopsInTime(opts, faults, Some(err), After(report, n))
  {
    hide IsRun, MovedWithin, Endless, DrainContract, Delivered, Justified, Tiling, Live, IsBatch, BatchFails, Refusals,
      StopsInTime, ErrorIsReal, Clear;
    ReachedEasily(job, opts, faults, before, run, s, report);
    FailedBatch(job, opts, faults, before.rows, s.tables.rows, report, n, err);
    MovesBatches(job, opts.BatchSize(), s, picked, report.rowsMoved, report.batchesRun, n);
    DrainStops(job, opts, before, run, after, moved, err, After(report, n));
  }

  /** A batch that goes through leaves fewer rows that move. */
  lemma ReachedNext(job: Job, opts: Options, faults: Faults, before: Tables, run: seq<State>, s: State, after: State,
                    picked: set<Ctid>, moved: map<Ctid, string>, n: nat, report: Report)
    requires Tiling(job.grid) && Reached(job, opts, faults, before, run, s, report)
    requires opts.MaxBatches() == 0 || report.batchesRun < opts.MaxBatches()
    requires Live(job, s) != {} && IsBatch(job, opts.BatchSize(), s, picked) && Handled(job, s, after, picked, moved)
    requires n == |s.tables.rows| - |after.tables.rows| <= |picked|
    requires !faults.cancelled(report.batchesRun) && !faults.readFails(report.batchesRun)
    ensures Reached(job, opts, faults, before, run + [after], after, After(report, n))
    ensures opts.MaxBatches() == 0 ==> |Moving(job, after)| < |Moving(job, s)|
  {
    hide IsRun, MovedWithin, Endless, Tiling, Live, IsBatch, Handled, Moving, Clear;
    ClearOn(faults, report.batchesRun);
    assert run != [] by { RunHasStates(job, opts.BatchSize(), run); }
    MovesBatches(job, opts.BatchSize(), s, picked, report.rowsMoved, report.batchesRun, n);
    ExtendRun(job, opts.BatchSize(), run, after, picked, moved);
    if opts.MaxBatches() == 0 {
      RunShrinks(job, opts.BatchSize(), run, after);
    }
  }

  lemma FailedBatch(job: Job, opts: Options, faults: Faults, rows: map<Ctid, Row>, left: map<Ctid, Row>,
                    report: Report, n: nat,
                    err: DrainError)
    requires BatchFails(job, faults, report.batchesRun, Refusals(job, left) != {}, err)
    requires Refusals(job, rows) == {} ==> Refusals(job, left) == {}
    requires Clear(faults, report.batchesRun)
    requires !faults.cancelled(report.batchesRun) && !faults.readFails(report.batchesRun)
    ensures ErrorIsReal(job, faults, rows, After(report, n), err)
    ensures StopsInTime(opts, faults, Some(err), After(report, n))
  {
    hide Refusals, HasTarget, GoesThrough;
    var k :| FailsAt(job, faults, report.batchesRun, k, Refusals(job, left) != {}, err);
    assert FailsAt(job, faults, After(report, n).batchesRun - 1, k, Refusals(job, rows) != {}, err);
  }

  /** A call that is through its batches. */
  lemma Finished(job: Job, opts: Options, faults: Faults, rows: map<Ctid, Row>, ran: Report, report: Report,
                 err: Option<DrainError>)
    requires Clear(faults, ran.batchesRun) && report.batchesRun == ran.batchesRun
    requires RanDry(opts, ran.batchesRun) ==> !faults.cancelled(ran.batchesRun) && !faults.readFails(ran.batchesRun)
    requires err.Some? ==> err == Some(SummaryFailed) && faults.summaryFails.Some?
    ensures StopsInTime(opts, faults, err, report) && (err.Some? ==> ErrorIsReal(job, faults, rows, report, err.value))
  {
    hide Clear;
  }

  lemma FailsSomewhere(job: Job, faults: Faults, batch: nat, k: GroupKey, refused: bool, err: DrainError)
    requires FailsAt(job, faults, batch, k, refused, err)
    ensures BatchFails(job, faults, batch, refused, err)
  {
    hide FailsAt;
  }

  lemma ClearOn(faults: Faults, n: nat)
    ensures Clear(faults, 0)
    ensures Clear(faults, n) && !faults.cancelled(n) && !faults.readFails(n) ==> Clear(faults, n + 1)
  {
  }

  lemma RunHasStates(job: Job, size: nat, run: seq<State>)
    requires IsRun(job, size, run)
    ensures run != []
  {
  }

  /** An unhindered call meets no error up to here, and none in the next batch. */
  lemma ReachedEasily(job: Job, opts: Options, faults: Faults, before: Tables, run: seq<State>, s: State, report: Report)
    requires Reached(job, opts, faults, before, run, s, report)
    ensures Fits(job, before.rows) ==> ReadParams(job, |s.counts|) <= PARAM_LIMIT
    ensures Refusals(job, before.rows) == {} ==> Refusals(job, s.tables.rows) == {}
  {
    hide IsRun, MovedWithin, Endless, ReadParams, MissingKeys, Refused, Stuck, Clear;
    RunHasStates(job, opts.BatchSize(), run);
    RunKeepsStuck(job, opts.BatchSize(), run);
    if Fits(job, before.rows) {
      RecordedFit(job, opts.BatchSize(), run);
    }
  }

  lemma EasyCall(job: Job, faults: Faults, rows: map<Ctid, Row>)
    ensures Unhindered(job, faults, rows) ==>
      && NoFaults(faults) && Refusals(job, rows) == {} && Fits(job, rows)
      && faults.summaryFails.None? && forall i :: !faults.cancelled(i) && !faults.readFails(i)
  {
    hide ReadParams, MissingKeys, Refusals;
  }

  /* ----- the promise in the parent's own terms ----- */

  /** The call is about this row: its tenant is the one asked for, if any. */
  predicate Asked(parent: Parent, opts: Options, row: Row) {
    parent.tenanted && opts.tenant.Some? ==> row.tenant == opts.tenant
  }

  /** The partition whose range and tenant a row has; a row of the empty tenant
      belongs where those without one do. */
  predicate IsHome(parent: Parent, row: Row, r: PartRow) {
    && row.control.Finite? && WindowFor(parent.interval, row.control.at) == Some(r.bounds)
    && r.parentId == parent.id && r.status == Active && !r.isDefault
    && r.tenant == if parent.tenanted && row.tenant != Some("") then row.tenant else None
  }

  predicate HasHome(parent: Parent, meta: seq<PartRow>, row: Row) { exists r :: r in meta && IsHome(parent, row, r) }

  /** The rows of a row's tenant and window, or those of its tenant without a
      control value. */
  predicate Alike(parent: Parent, row: Row, other: Row) {
    && (parent.tenanted ==> other.tenant == row.tenant)
    && ((row.control.Null? && other.control.Null?)
        || (row.control.Finite? && other.control.Finite?
            && WindowFor(parent.interval, other.control.at) == WindowFor(parent.interval, row.control.at)))
  }

  function AllAlike(parent: Parent, rows: map<Ctid, Row>, row: Row): set<Ctid> {
    set e | e in rows && Alike(parent, row, rows[e])
  }

  /** An anomaly that a row left behind gives rise to: for rows without a control
      value it counts them, for others it counts one at least. */
  predicate Explains(parent: Parent, rows: map<Ctid, Row>, row: Row, a: Anomaly) {
    && a.tenant == (if parent.tenanted && row.tenant.Some? then row.tenant.value else "")
    && match row.control
       case Null => a.bounds == Naming.ZERO_BOUNDS && a.rowCount == |AllAlike(parent, rows, row)|
       case Finite(at) =>
         WindowFor(parent.interval, at) == Some(a.bounds) && 1 <= a.rowCount <= |AllAlike(parent, rows, row)|
       case _ => false
  }

  /** Rows go home, and only rows that were asked for. */
  ghost predicate SentHome(parent: Parent, meta: seq<PartRow>, opts: Options, before: Tables, after: Tables,
                           moved: map<Ctid, string>)
  {
    && Delivered(before, after, moved)
    && forall c :: c in moved ==>
         && c in before.rows && Asked(parent, opts, before.rows[c])
         && exists r :: r in meta && r.name == moved[c] && IsHome(parent, before.rows[c], r)
  }

  /** After a complete drain the rows left are those that were not asked for, have
      no control value, or have no home; the last two are what the anomalies are
      about, and all they are about. */
  ghost predicate AllAccounted(parent: Parent, meta: seq<PartRow>, opts: Options, before: Tables, after: Tables,
                               report: Report)
  {
    && (forall c :: c in before.rows && Asked(parent, opts, before.rows[c]) ==>
          && !before.rows[c].control.IsInfinite()
          && (c in after.rows <==> before.rows[c].control.Null? || !HasHome(parent, meta, before.rows[c]))
          && (c in after.rows ==> exists a :: a in report.anomalies && Explains(parent, after.rows, before.rows[c], a)))
    && forall a :: a in report.anomalies ==>
         exists c :: c in after.rows && Asked(parent, opts, after.rows[c]) && Explains(parent, after.rows, after.rows[c], a)
  }

  lemma HomeIsTarget(parent: Parent, k: Kind, meta: seq<PartRow>, opts: Options, row: Row)
    requires KindFromLabel(parent.interval) == Some(k)
    ensures var job := JobOf(parent, k, meta, opts);
      && (Readable(job, row) <==> !row.control.Null? && Asked(parent, opts, row))
      && (row.control.Finite? ==>
            && WindowFor(parent.interval, row.control.at) == Some(KeyOf(job, row).bounds)
            && (forall r :: IsTarget(job, KeyOf(job, row), r) <==> IsHome(parent, row, r))
            && (HasTarget(job, KeyOf(job, row)) <==> HasHome(parent, meta, row)))
  {
    hide WindowFor, PeriodOf, KindFromLabel;
    if row.control.Finite? {
      LabelWindow(parent.interval, row.control.at);
    }
  }

  lemma MovesSendHome(parent: Parent, k: Kind, meta: seq<PartRow>, opts: Options, before: Tables, after: Tables)
    requires KindFromLabel(parent.interval) == Some(k) && Progressed(JobOf(parent, k, meta, opts), before, after)
    ensures exists moved :: SentHome(parent, meta, opts, before, after, moved)
  {
    hide Delivered, WindowFor, KindFromLabel, IsHome, IsTarget, KeyOf, Readable, JobOf;
    var job := JobOf(parent, k, meta, opts);
    SameMeta(parent, k, meta, opts);
    var moved :| Delivered(before, after, moved) && Justified(job, before.rows, moved);
    forall c | c in moved
      ensures c in before.rows && Asked(parent, opts, before.rows[c])
      ensures exists r :: r in meta && r.name == moved[c] && IsHome(parent, before.rows[c], r)
    {
      HomeIsTarget(parent, k, meta, opts, before.rows[c]);
      var r :| r in job.meta && IsTarget(job, KeyOf(job, before.rows[c]), r) && r.name == moved[c];
      assert IsHome(parent, before.rows[c], r);
    }
    assert SentHome(parent, meta, opts, before, after, moved);
  }

  lemma AlikeNulls(parent: Parent, k: Kind, meta: seq<PartRow>, opts: Options, rows: map<Ctid, Row>, c: Ctid)
    requires c in rows && rows[c].control.Null? && Asked(parent, opts, rows[c])
    ensures var job := JobOf(parent, k, meta, opts);
      AllAlike(parent, rows, rows[c]) == NullRowsOf(job, rows, NullTenant(job, rows[c]))
  {
    hide WindowFor;
  }

  lemma AlikeRows(parent: Parent, k: Kind, meta: seq<PartRow>, opts: Options, rows: map<Ctid, Row>, c: Ctid)
    requires c in rows && rows[c].control.Finite? && Asked(parent, opts, rows[c])
    requires KindFromLabel(parent.interval) == Some(k)
    requires forall e :: e in rows && Asked(parent, opts, rows[e]) ==> !rows[e].control.IsInfinite()
    ensures var job := JobOf(parent, k, meta, opts);
      AllAlike(parent, rows, rows[c]) == Having(job, rows, rows.Keys, KeyOf(job, rows[c]))
  {
    hide WindowFor, KindFromLabel, HasTarget, IsTarget, HasHome, IsHome, PeriodOf;
    var job := JobOf(parent, k, meta, opts);
    HomeIsTarget(parent, k, meta, opts, rows[c]);
    forall e | e in rows
      ensures Alike(parent, rows[c], rows[e]) <==> Readable(job, rows[e]) && KeyOf(job, rows[e]) == KeyOf(job, rows[c])
    {
      HomeIsTarget(parent, k, meta, opts, rows[e]);
    }
  }

  /** The anomalies for rows without a control value. */
  lemma NullsExplained(parent: Parent, k: Kind, meta: seq<PartRow>, opts: Options, rows: map<Ctid, Row>,
                       tenants: seq<Option<string>>, nulls: seq<Anomaly>)
    requires KindFromLabel(parent.interval) == Some(k)
    requires SummarizesNulls(JobOf(parent, k, meta, opts), rows, tenants, nulls)
    ensures forall c :: c in rows && rows[c].control.Null? && Asked(parent, opts, rows[c]) ==>
      exists a :: a in nulls && Explains(parent, rows, rows[c], a)
    ensures forall a :: a in nulls ==>
      exists c :: c in rows && Asked(parent, opts, rows[c]) && Explains(parent, rows, rows[c], a)
  {
    hide Distinct, NullRowsOf, WindowFor, KindFromLabel, AllAlike;
    var job := JobOf(parent, k, meta, opts);
    forall c | c in rows && rows[c].control.Null? && Asked(parent, opts, rows[c])
      ensures exists a :: a in nulls && Explains(parent, rows, rows[c], a)
    {
      AlikeNulls(parent, k, meta, opts, rows, c);
      assert NullTenant(job, rows[c]) in SetOf(tenants);
      var i :| 0 <= i < |tenants| && tenants[i] == NullTenant(job, rows[c]);
      assert Explains(parent, rows, rows[c], nulls[i]);
    }
    forall a | a in nulls
      ensures exists c :: c in rows && Asked(parent, opts, rows[c]) && Explains(parent, rows, rows[c], a)
    {
      var i :| 0 <= i < |nulls| && nulls[i] == a;
      assert tenants[i] in SetOf(tenants);
      var c :| c in NullRows(job, rows) && NullTenant(job, rows[c]) == tenants[i];
      AlikeNulls(parent, k, meta, opts, rows, c);
      assert Explains(parent, rows, rows[c], a);
    }
  }

  /** A row without a home has an anomaly. */
  lemma MissingListed(parent: Parent, k: Kind, meta: seq<PartRow>, opts: Options, rows: map<Ctid, Row>,
                      order: seq<GroupKey>, missing: seq<Anomaly>, c: Ctid) returns (a: Anomaly)
    requires KindFromLabel(parent.interval) == Some(k)
    requires MissingExact(JobOf(parent, k, meta, opts), rows, order, missing)
    requires forall e :: e in rows && Asked(parent, opts, rows[e]) ==> !rows[e].control.IsInfinite()
    requires c in rows && rows[c].control.Finite? && Asked(parent, opts, rows[c])
    ensures a in missing && Explains(parent, rows, rows[c], a)
  {
    hide Distinct, Having, WindowFor, KindFromLabel, Asked, AllAlike, HasTarget, IsTarget, HasHome;
    var job := JobOf(parent, k, meta, opts);
    HomeIsTarget(parent, k, meta, opts, rows[c]);
    AlikeRows(parent, k, meta, opts, rows, c);
    assert KeyOf(job, rows[c]) in SetOf(order);
    var i :| 0 <= i < |order| && order[i] == KeyOf(job, rows[c]);
    a := missing[i];
  }

  /** An anomaly of that kind has such a row. */
  lemma ListedMissed(parent: Parent, k: Kind, meta: seq<PartRow>, opts: Options, rows: map<Ctid, Row>,
                     order: seq<GroupKey>, missing: seq<Anomaly>, i: nat) returns (c: Ctid)
    requires KindFromLabel(parent.interval) == Some(k) && i < |missing|
    requires MissingExact(JobOf(parent, k, meta, opts), rows, order, missing)
    requires forall e :: e in rows && Asked(parent, opts, rows[e]) ==> !rows[e].control.IsInfinite()
    ensures c in rows && Asked(parent, opts, rows[c]) && Explains(parent, rows, rows[c], missing[i])
  {
    hide Distinct, Having, WindowFor, KindFromLabel, Asked, AllAlike, HasTarget, IsTarget, HasHome;
    var job := JobOf(parent, k, meta, opts);
    assert order[i] in SetOf(order);
    c :| c in rows && Readable(job, rows[c]) && KeyOf(job, rows[c]) == order[i];
    HomeIsTarget(parent, k, meta, opts, rows[c]);
    AlikeRows(parent, k, meta, opts, rows, c);
  }

  /** The anomalies for rows without a home. */
  lemma MissingExplained(parent: Parent, k: Kind, meta: seq<PartRow>, opts: Options, rows: map<Ctid, Row>,
                         order: seq<GroupKey>, missing: seq<Anomaly>)
    requires KindFromLabel(parent.interval) == Some(k)
    requires MissingExact(JobOf(parent, k, meta, opts), rows, order, missing)
    requires forall e :: e in rows && Asked(parent, opts, rows[e]) ==> !rows[e].control.IsInfinite()
    ensures forall c :: c in rows && rows[c].control.Finite? && Asked(parent, opts, rows[c]) ==>
      exists a :: a in missing && Explains(parent, rows, rows[c], a)
    ensures forall a :: a in missing ==>
      exists c :: c in rows && Asked(parent, opts, rows[c]) && Explains(parent, rows, rows[c], a)
  {
    hide MissingExact, KindFromLabel, Asked, Explains, JobOf;
    forall c | c in rows && rows[c].control.Finite? && Asked(parent, opts, rows[c])
      ensures exists a :: a in missing && Explains(parent, rows, rows[c], a)
    {
      var a := MissingListed(parent, k, meta, opts, rows, order, missing, c);
    }
    forall a | a in missing
      ensures exists c :: c in rows && Asked(parent, opts, rows[c]) && Explains(parent, rows, rows[c], a)
    {
      var i :| 0 <= i < |missing| && missing[i] == a;
      var c := ListedMissed(parent, k, meta, opts, rows, order, missing, i);
    }
  }

  /** Which rows a complete drain leaves. */
  lemma CompleteLeaves(parent: Parent, k: Kind, meta: seq<PartRow>, opts: Options, before: Tables, after: Tables,
                       report: Report, c: Ctid)
    requires KindFromLabel(parent.interval) == Some(k) && Complete(JobOf(parent, k, meta, opts), before, after, report)
    requires c in before.rows && Asked(parent, opts, before.rows[c])
    ensures !before.rows[c].control.IsInfinite()
    ensures c in after.rows <==> before.rows[c].control.Null? || !HasHome(parent, meta, before.rows[c])
  {
    hide WindowFor, KindFromLabel, Asked, KeyOf, HasTarget, HasHome, Readable, AnomaliesExact, MissingKeys, Content,
      Routed, RowsAt, UniqueTargets, JobOf;
    HomeIsTarget(parent, k, meta, opts, before.rows[c]);
    assert !Stuck(JobOf(parent, k, meta, opts), before.rows[c]);
    assert c !in Refusals(JobOf(parent, k, meta, opts), before.rows);
  }

  lemma CompleteAccounts(parent: Parent, k: Kind, meta: seq<PartRow>, opts: Options, before: Tables, after: Tables,
                         report: Report)
    requires KindFromLabel(parent.interval) == Some(k) && Complete(JobOf(parent, k, meta, opts), before, after, report)
    ensures AllAccounted(parent, meta, opts, before, after, report)
  {
    hide WindowFor, KindFromLabel, Asked, HasHome, Explains, JobOf, SummarizesNulls, MissingExact, NoneStuck, Refusals,
      MissingKeys, Stays, Content, Routed, RowsAt, UniqueTargets;
    var job := JobOf(parent, k, meta, opts);
    var rows := after.rows;
    var tenants, nulls, order, missing :|
      SummarizesNulls(job, rows, tenants, nulls) && MissingExact(job, rows, order, missing)
      && report.anomalies == nulls + missing;
    forall c | c in before.rows && Asked(parent, opts, before.rows[c])
      ensures !before.rows[c].control.IsInfinite()
      ensures c in rows <==> before.rows[c].control.Null? || !HasHome(parent, meta, before.rows[c])
    {
      CompleteLeaves(parent, k, meta, opts, before, after, report, c);
    }
    assert forall c :: c in rows ==> c in before.rows && rows[c] == before.rows[c];
    NullsExplained(parent, k, meta, opts, rows, tenants, nulls);
    MissingExplained(parent, k, meta, opts, rows, order, missing);
  }

  /** What a call for one tenant leaves alone, and what it reports, whatever it
      meets: every row of another tenant or of none stays, and no anomaly has
      another tenant. */
  lemma OthersUntouched(job: Job, opts: Options, before: Tables, after: Tables, err: Option<DrainError>, report: Report)
    requires DrainContract(job, opts, before, after, err, report) && job.tenanted && job.filter.Some?
    ensures forall c :: c in before.rows && before.rows[c].tenant != job.filter ==>
      c in after.rows && after.rows[c] == before.rows[c]
    ensures forall a :: a in report.anomalies ==> a.tenant == job.filter.value
  {
    hide MissingKeys, ReadParams, Live, Complete, NoneStuck, AllTargeted, HasTarget, Content, RowsAt, IsTarget;
    var moved :| Delivered(before, after, moved) && Justified(job, before.rows, moved);
    if err.None? {
      var tenants, nulls, order, missing :|
        SummarizesNulls(job, after.rows, tenants, nulls) && FromMissing(job, before.rows, order, missing)
        && report.anomalies == nulls + missing;
      NullsOfTenant(job, after.rows, tenants, nulls);
      MissingOfTenant(job, before.rows, order, missing);
    } else if err.value == SummaryFailed {
      var tenants :| CountsNulls(job, after.rows, tenants, report.anomalies);
      NullsOfTenant(job, after.rows, tenants, report.anomalies);
    }
  }

  lemma NullsOfTenant(job: Job, rows: map<Ctid, Row>, tenants: seq<Option<string>>, nulls: seq<Anomaly>)
    requires CountsNulls(job, rows, tenants, nulls) && job.tenanted && job.filter.Some?
    ensures forall a :: a in nulls ==> a.tenant == job.filter.value
  {
    hide Distinct, NullRowsOf;
    forall i | 0 <= i < |tenants|
      ensures tenants[i] == job.filter
    {
      assert tenants[i] in SetOf(tenants);
    }
  }

  lemma MissingOfTenant(job: Job, rows: map<Ctid, Row>, order: seq<GroupKey>, missing: seq<Anomaly>)
    requires FromMissing(job, rows, order, missing) && job.tenanted && job.filter.Some?
    ensures forall a :: a in missing ==> a.tenant == job.filter.value
  {
    hide Distinct, HasTarget;
  }

  /** The rows a call reads. */
  function AskedRows(parent: Parent, opts: Options, rows: map<Ctid, Row>): set<Ctid> {
    set c | c in rows && !rows[c].control.Null? && Asked(parent, opts, rows[c])
  }

  lemma LiveIsAsked(parent: Parent, k: Kind, meta: seq<PartRow>, opts: Options, before: Tables)
    ensures Live(JobOf(parent, k, meta, opts), State(before, map[])) == AskedRows(parent, opts, before.rows)
  {
  }

  /** A drain's promise, in terms of the parent and the call. */
  lemma ContractMeans(parent: Parent, k: Kind, meta: seq<PartRow>, opts: Options, before: Tables, after: Tables,
                      err: Option<DrainError>, report: Report)
    requires KindFromLabel(parent.interval) == Some(k)
    requires DrainContract(JobOf(parent, k, meta, opts), opts, before, after, err, report)
    ensures exists moved :: SentHome(parent, meta, opts, before, after, moved)
    ensures parent.tenanted && opts.tenant.Some? ==>
      && (forall c :: c in before.rows && before.rows[c].tenant != opts.tenant ==>
            c in after.rows && after.rows[c] == before.rows[c])
      && forall a :: a in report.anomalies ==> a.tenant == opts.tenant.value
    ensures opts.maxBatches > 0 ==> report.batchesRun <= opts.maxBatches
    ensures report.rowsMoved <= report.batchesRun * if opts.batchSize <= 0 then 1000 else opts.batchSize
    ensures err.None? && !(0 < opts.maxBatches <= report.batchesRun) ==>
      AllAccounted(parent, meta, opts, before, after, report)
      && (report.batchesRun > 0 ==>
            (report.batchesRun - 1) * (if opts.batchSize <= 0 then 1000 else opts.batchSize)
            < |AskedRows(parent, opts, before.rows)|)
  {
    hide KindFromLabel, Complete, NoneStuck, Live, AllTargeted, AnomaliesKnown, PartialReport, SentHome, AllAccounted,
      Progressed, AskedRows;
    var job := JobOf(parent, k, meta, opts);
    MovesSendHome(parent, k, meta, opts, before, after);
    if parent.tenanted && opts.tenant.Some? {
      OthersUntouched(job, opts, before, after, err, report);
    }
    if err.None? && !(0 < opts.maxBatches <= report.batchesRun) {
      CompleteAccounts(parent, k, meta, opts, before, after, report);
      LiveIsAsked(parent, k, meta, opts, before);
      CompleteIsUnstuck(job, before, after, report);
    }
  }

  lemma EntryMeans(entry: Entry, meta: seq<PartRow>, opts: Options, before: Tables, after: Tables,
                   err: Option<DrainError>, report: Report)
    requires Refusal(entry).None? ==> DrainContract(EntryJob(entry, meta, opts), opts, before, after, err, report)
    ensures Refusal(entry).None? ==>
      && (exists moved :: SentHome(entry.parent.value, meta, opts, before, after, moved))
      && (entry.parent.value.tenanted && opts.tenant.Some? ==>
            && (forall c :: c in before.rows && before.rows[c].tenant != opts.tenant ==>
                  c in after.rows && after.rows[c] == before.rows[c])
            && forall a :: a in report.anomalies ==> a.tenant == opts.tenant.value)
      && (opts.maxBatches > 0 ==> report.batchesRun <= opts.maxBatches)
      && report.rowsMoved <= report.batchesRun * (if opts.batchSize <= 0 then 1000 else opts.batchSize)
      && (err.None? && !(0 < opts.maxBatches <= report.batchesRun) ==>
            && AllAccounted(entry.parent.value, meta, opts, before, after, report)
            && (report.batchesRun > 0 ==>
                  (report.batchesRun - 1) * (if opts.batchSize <= 0 then 1000 else opts.batchSize)
                  < |AskedRows(entry.parent.value, opts, before.rows)|))
  {
    hide DrainContract, SentHome, AllAccounted, AskedRows, JobOf, KindFromLabel;
    if Refusal(entry).None? {
      var k := KindFromLabel(entry.parent.value.interval).value;
      ContractMeans(entry.parent.value, k, meta, opts, before, after, err, report);
    }
  }

  lemma CompleteIsUnstuck(job: Job, before: Tables, after: Tables, report: Report)
    requires Complete(job, before, after, report)
    ensures NoneStuck(job, before.rows)
  {
  }

  lemma SameMeta(parent: Parent, k: Kind, meta: seq<PartRow>, opts: Options)
    ensures JobOf(parent, k, meta, opts).meta == meta
  {
  }

  /* ----- the drain ----- */

  class Drainer {
    var rows: map<Ctid, Row>
    var children: map<string, multiset<Row>>

    constructor (rows: map<Ctid, Row>, children: map<string, multiset<Row>>)
      ensures Stored() == Tables(rows, children)
    {
      this.rows, this.children := rows, children;
    }

    function Stored(): Tables
      reads this
    {
      Tables(rows, children)
    }

    /** The transaction of moveGroup, once it commits. */
    method MoveGroup(name: string, ctids: seq<Ctid>) returns (affected: nat)
      requires Distinct(ctids) && SetOf(ctids) <= rows.Keys
      modifies this
      ensures Delivered(old(Stored()), Stored(), map c | c in SetOf(ctids) :: name)
      ensures affected == |ctids| && |rows| == |old(rows)| - affected
    {
      hide RowsAt, SetOf, Distinct, Delivered, Content;
      ghost var before := Stored();
      var left, returned, n := DeleteReturning(rows, ctids);
      DeliverOne(before, name, SetOf(ctids));
      rows, affected := left, n;
      children := children[name := Content(Tables(left, children), name) + returned];
      assert Content(Tables(left, before.children), name) == Content(before, name) by { SameContent(before, left, name); }
      assert Stored() == Tables(left, before.children[name := Content(before, name) + returned]);
      DistinctSize(ctids);
      ghost var moved := map c | c in SetOf(ctids) :: name;
      assert moved.Keys == SetOf(ctids);
      DefaultShrinks(before, Stored(), moved);
    }

    /** One group: its rows move to the target that is found, unless the server
        refuses one of them, or the group is recorded. */
    method RouteGroup(job: Job, k: GroupKey, ctids: seq<Ctid>, tracker: AnomalyTracker, faults: Faults, batch: nat)
      returns (err: Option<DrainError>, n: nat)
      requires tracker.Valid() && Distinct(ctids) && SetOf(ctids) <= rows.Keys
      requires forall c :: c in ctids ==> c in rows && !rows[c].control.Null?
      modifies this, tracker
      ensures tracker.Valid()
      ensures |rows| == |old(rows)| - n
      ensures err.Some? ==> Stored() == old(Stored()) && tracker.byKey == old(tracker.byKey)
      ensures err != Some(SummaryFailed)
      ensures err.None? ==> GroupRouted(job, old(State(Stored(), tracker.byKey)), State(Stored(), tracker.byKey), k, ctids)
      ensures NoFaults(faults) && !(HasTarget(job, k) && exists c :: c in ctids && old(rows)[c].control.IsInfinite()) ==>
        err.None?
      ensures err.Some? ==>
        FailsAt(job, faults, batch, k, exists c :: c in ctids && old(rows)[c].control.IsInfinite(), err.value)
      ensures err.None? ==> !faults.lookupFails(batch, k)
    {
      hide IsTarget, Delivered, Distinct, GoesThrough;
      n := 0;
      if faults.lookupFails(batch, k) {
        return Some(LookupFailed), n;
      }
      if HasTarget(job, k) {
        hide HasTarget;
        var r := FindActivePartitionByBounds(job, k);
        var refused := exists c :: c in ctids && rows[c].control.IsInfinite();
        assert forall c :: c in ctids ==> c in SetOf(ctids) && !rows[c].control.Null?;
        var e, _ := RunTx(!refused, faults.attempt(batch, k), faults.interrupted(batch, k));
        if e.Some? {
          return Some(MoveFailed), n;
        }
        ghost var mid := State(Stored(), tracker.byKey);
        n := MoveGroup(r.name, ctids);
        assert SentToTarget(job, mid, State(Stored(), tracker.byKey), k, SetOf(ctids), r);
      } else {
        tracker.Record(k, |ctids|);
      }
      err := None;
    }

    /** One group of a batch, after the groups in `done`. */
    method RouteNext(job: Job, k: GroupKey, ctids: seq<Ctid>, tracker: AnomalyTracker, faults: Faults, batch: nat,
                     ghost s: State, ghost picked: set<Ctid>, ghost done: set<GroupKey>, ghost moved: map<Ctid, string>)
      returns (err: Option<DrainError>, n: nat, ghost all: map<Ctid, string>)
      requires tracker.Valid() && HandledUpTo(job, s, State(Stored(), tracker.byKey), picked, done, moved) && k !in done
      requires Bucket(job, s.tables.rows, picked, k, ctids)
      modifies this, tracker
      ensures tracker.Valid() && |Stored().rows| == |old(Stored()).rows| - n
      ensures err.Some? ==> Stored() == old(Stored())
      ensures err != Some(SummaryFailed)
      ensures err.None? ==> HandledUpTo(job, s, State(Stored(), tracker.byKey), picked, done + {k}, all)
      ensures NoFaults(faults) && Refusals(job, s.tables.rows) == {} ==> err.None?
      ensures err.Some? ==> FailsAt(job, faults, batch, k, Refusals(job, s.tables.rows) != {}, err.value)
    {
      hide Refusals, Having, Justified, Delivered, SetOf, Distinct, HandledUpTo, GroupRouted, NoFaults,
        AnomalyTracker.Valid;
      ghost var mid := State(Stored(), tracker.byKey);
      GroupRemains(job, s, mid, picked, done, moved, k);
      RowsLeft(job, s, mid, picked, done, moved);
      GroupRows(job, s.tables.rows, picked, k, ctids);
      err, n := RouteGroup(job, k, ctids, tracker, faults, batch);
      all := moved;
      if err.None? {
        all := HandleGroup(job, s, mid, State(Stored(), tracker.byKey), picked, done, moved, k, ctids);
      }
    }

    /** The groups of one batch, in any order. */
    method ProcessGroups(job: Job, groups: map<GroupKey, seq<Ctid>>, tracker: AnomalyTracker, faults: Faults, batch: nat,
                         ghost picked: set<Ctid>)
      returns (err: Option<DrainError>, rowsMoved: nat, ghost moved: map<Ctid, string>)
      requires tracker.Valid() && Grouped(job, Stored().rows, picked, groups)
      modifies this, tracker
      ensures tracker.Valid()
      ensures Delivered(old(Stored()), Stored(), moved) && Justified(job, old(Stored()).rows, moved)
      ensures rowsMoved == |old(Stored()).rows| - |Stored().rows| <= |picked|
      ensures err != Some(SummaryFailed)
      ensures err.None? ==>
        Handled(job, old(State(Stored(), tracker.byKey)), State(Stored(), tracker.byKey), picked, moved)
      ensures NoFaults(faults) && Refusals(job, old(Stored()).rows) == {} ==> err.None?
      ensures err.Some? ==> BatchFails(job, faults, batch, Refusals(job, old(Stored()).rows) != {}, err.value)
    {
      hide *;
      ghost var s := State(Stored(), tracker.byKey);
      ghost var all := groups.Keys;
      var pending := groups.Keys;
      rowsMoved, moved := 0, map[];
      HandledAtFirst(job, s, picked);
      NoneDone(all);
      while pending != {}
        invariant pending <= all && tracker.Valid()
        invariant HandledUpTo(job, s, State(Stored(), tracker.byKey), picked, all - pending, moved)
        invariant rowsMoved == |s.tables.rows| - |Stored().rows|
        decreases pending
      {
        HandledIsProgress(job, s, State(Stored(), tracker.byKey), picked, all - pending, moved);
        MovesPicked(job, s, State(Stored(), tracker.byKey), picked, all - pending, moved);
        var k :| k in pending;
        NextDone(all, pending, k);
        BucketOf(job, s.tables.rows, picked, groups, k);
        var e, n, m := RouteNext(job, k, groups[k], tracker, faults, batch, s, picked, all - pending, moved);
        if e.Some? {
          FailsSomewhere(job, faults, batch, k, Refusals(job, s.tables.rows) != {}, e.value);
          return e, rowsMoved, moved;
        }
        rowsMoved, moved := rowsMoved + n, m;
        pending := pending - {k};
      }
      NoneDone(all);
      BucketKeys(job, s.tables.rows, picked, groups);
      HandledIsProgress(job, s, State(Stored(), tracker.byKey), picked, all, moved);
      MovesPicked(job, s, State(Stored(), tracker.byKey), picked, all, moved);
      HandledAtLast(job, s, State(Stored(), tracker.byKey), picked, moved);
      err := None;
    }

    /** PartitionData.  Once the lock was granted, an unlock is tried on every way
        out; the grant is left behind exactly when the context is over by then,
        as it is after a cancellation, and the session is not.  An unlimited drain
        needs that stuck rows cannot fill its batches: BatchesBoundedIff says
        why. */
    method PartitionData(locker: Locks.Locker, entry: Entry, meta: seq<PartRow>, opts: Options, faults: Faults)
      returns (err: Option<DrainError>, report: Report)
      requires locker.unlocks <= locker.grants
      requires Refusal(entry).None? && opts.MaxBatches() == 0 ==>
        !Endless(EntryJob(entry, meta, opts), opts.BatchSize(), rows)
      modifies this, locker
      ensures Refusal(entry).Some? ==> err == Refusal(entry) && report == Report([], 0, 0) && Stored() == old(Stored())
      ensures Refusal(entry).None? ==> DrainContract(EntryJob(entry, meta, opts), opts, old(Stored()), Stored(), err, report)
      ensures Refusal(entry).None? && Unhindered(EntryJob(entry, meta, opts), faults, old(rows)) ==> err.None?
      ensures Refusal(entry).None? ==> StopsInTime(opts, faults, err, report)
      ensures Refusal(entry).None? && err.Some? ==>
        ErrorIsReal(EntryJob(entry, meta, opts), faults, old(rows), report, err.value)
      ensures Refusal(entry).None? ==>
        exists moved :: SentHome(entry.parent.value, meta, opts, old(Stored()), Stored(), moved)
      ensures Refusal(entry).None? && entry.parent.value.tenanted && opts.tenant.Some? ==>
        && (forall c :: c in old(rows) && old(rows)[c].tenant != opts.tenant ==> c in rows && rows[c] == old(rows)[c])
        && forall a :: a in report.anomalies ==> a.tenant == opts.tenant.value
      ensures opts.maxBatches > 0 ==> report.batchesRun <= opts.maxBatches
      ensures report.rowsMoved <= report.batchesRun * if opts.batchSize <= 0 then 1000 else opts.batchSize
      ensures Refusal(entry).None? && err.None? && !(0 < opts.maxBatches <= report.batchesRun) ==>
        && AllAccounted(entry.parent.value, meta, opts, old(Stored()), Stored(), report)
        && (report.batchesRun > 0 ==>
              (report.batchesRun - 1) * (if opts.batchSize <= 0 then 1000 else opts.batchSize)
              < |AskedRows(entry.parent.value, opts, old(rows))|)
      ensures var n := if entry.connects && entry.lock.Found? then 1 else 0;
        && locker.grants == old(locker.grants) + n && locker.unlocks == old(locker.unlocks) + n
        && locker.leaks == old(locker.leaks)
             + if n == 1 && (faults.contextOver || err == Some(CallCancelled)) && faults.sessionLives then 1 else 0
    {
      hide DrainContract, Endless, Unhindered, CalendarGrid, EntryJob, SentHome, AllAccounted, AskedRows,
        KindFromLabel, StopsInTime, ErrorIsReal;
      report := Report([], 0, 0);
      if !entry.connects {
        return Some(NoConnection), report;
      }
      match entry.lock {
        case Failed => return Some(LockFailed), report;
        case Absent => return Some(ParentBusy), report;
        case Found(_) =>
      }
      locker.Grant();
      err, report := DrainLocked(entry, meta, opts, faults);
      EntryMeans(entry, meta, opts, old(Stored()), Stored(), err, report);
      var ok := locker.Unlock(faults.contextOver || err == Some(CallCancelled), faults.sessionLives);
    }

    /** The part under the lock. */
    method DrainLocked(entry: Entry, meta: seq<PartRow>, opts: Options, faults: Faults)
      returns (err: Option<DrainError>, report: Report)
      requires entry.connects && entry.lock.Found?
      requires Refusal(entry).None? && opts.MaxBatches() == 0 ==>
        !Endless(EntryJob(entry, meta, opts), opts.BatchSize(), rows)
      modifies this
      ensures Refusal(entry).Some? ==> err == Refusal(entry) && report == Report([], 0, 0) && Stored() == old(Stored())
      ensures Refusal(entry).None? ==> DrainContract(EntryJob(entry, meta, opts), opts, old(Stored()), Stored(), err, report)
      ensures Refusal(entry).None? && Unhindered(EntryJob(entry, meta, opts), faults, old(rows)) ==> err.None?
      ensures Refusal(entry).None? ==> StopsInTime(opts, faults, err, report)
      ensures Refusal(entry).None? && err.Some? ==>
        ErrorIsReal(EntryJob(entry, meta, opts), faults, old(rows), report, err.value)
    {
      hide DrainContract, Endless, Unhindered, CalendarGrid, StopsInTime, ErrorIsReal;
      report := Report([], 0, 0);
      match entry.parent {
        case Failed => return Some(ParentFailed), report;
        case Absent => return Some(ParentNotFound), report;
        case Found(_) =>
      }
      match KindFromLabel(entry.parent.value.interval) {
        case None => return Some(UnknownInterval), report;
        case Some(k) =>
          if entry.columns.Failed? {
            return Some(ColumnsFailed), report;
          }
          if entry.columns.Absent? || entry.columns.value == 0 {
            return Some(NoColumns), report;
          }
          if entry.default.Failed? {
            return Some(DefaultFailed), report;
          }
          if entry.default.Absent? {
            return Some(DefaultMissing), report;
          }
          CalendarTiles(k);
          err, report := Drain(JobOf(entry.parent.value, k, meta, opts), opts, faults);
      }
    }

    method Drain(job: Job, opts: Options, faults: Faults) returns (err: Option<DrainError>, report: Report)
      requires Tiling(job.grid)
      requires opts.MaxBatches() == 0 ==> !Endless(job, opts.BatchSize(), rows)
      modifies this
      ensures DrainContract(job, opts, old(Stored()), Stored(), err, report)
      ensures Unhindered(job, faults, old(rows)) ==> err.None?
      ensures job.tenanted && job.filter.Some? ==>
        && (forall c :: c in old(rows) && old(rows)[c].tenant != job.filter ==> c in rows && rows[c] == old(rows)[c])
        && forall a :: a in report.anomalies ==> a.tenant == job.filter.value
      ensures StopsInTime(opts, faults, err, report)
      ensures err.Some? ==> ErrorIsReal(job, faults, old(rows), report, err.value)
    {
      hide ErrorIsReal, StopsInTime;
      err, report := RunBatches(job, opts, faults);
      if job.tenanted && job.filter.Some? {
        OthersUntouched(job, opts, old(Stored()), Stored(), err, report) by { hide DrainContract; }
      }
    }

    /** The batch loop and the report at its end. */
    method RunBatches(job: Job, opts: Options, faults: Faults) returns (err: Option<DrainError>, report: Report)
      requires Tiling(job.grid)
      requires opts.MaxBatches() == 0 ==> !Endless(job, opts.BatchSize(), rows)
      modifies this
      ensures DrainContract(job, opts, old(Stored()), Stored(), err, report)
      ensures Unhindered(job, faults, old(rows)) ==> err.None?
      ensures StopsInTime(opts, faults, err, report)
      ensures err.Some? ==> ErrorIsReal(job, faults, old(rows), report, err.value)
    {
      hide MissingKeys, ReadParams, Live, Moving, Endless, Refusals, DrainContract, Delivered, Justified, Handled, IsBatch,
        SetOf, Distinct, Grouped, Sorted, AnomalyTracker.Valid, Tiling, NoFaults, MovedWithin, Fits, Unhindered, Reached,
        Readable, BatchFails, Clear, StopsInTime, ErrorIsReal;
      ghost var before := Stored();
      var size := opts.BatchSize();
      var tracker := new AnomalyTracker();
      ghost var run := [State(before, map[])];
      ReachedFirst(job, opts, faults, before);
      EasyCall(job, faults, before.rows);
      report := Report([], 0, 0);
      while opts.MaxBatches() == 0 || report.batchesRun < opts.MaxBatches()
        invariant tracker.Valid() && fresh(tracker)
        invariant Reached(job, opts, faults, before, run, State(Stored(), tracker.byKey), report)
        decreases if opts.MaxBatches() == 0 then |Moving(job, State(Stored(), tracker.byKey))|
                  else opts.MaxBatches() - report.batchesRun
      {
        ghost var s := State(Stored(), tracker.byKey);
        ReachedEasily(job, opts, faults, before, run, s, report);
        if faults.cancelled(report.batchesRun) {
          ReachedStops(job, opts, faults, before, run, s, report, CallCancelled);
          return Some(CallCancelled), report;
        }
        if faults.readFails(report.batchesRun) || ReadParams(job, |tracker.byKey|) > PARAM_LIMIT {
          ReachedStops(job, opts, faults, before, run, s, report, ReadFailed);
          return Some(ReadFailed), report;
        }
        var batch := ReadBatch(job, State(Stored(), tracker.byKey), size);
        EmptyOnlyAtEnd(job, size, s, batch);
        if batch == [] {
          break;
        }
        var groups := GroupByBounds(job, rows, batch);
        var e, n, moved := ProcessGroups(job, groups, tracker, faults, report.batchesRun, SetOf(batch));
        ghost var now := State(Stored(), tracker.byKey);
        if e.Some? {
          ReachedBreaks(job, opts, faults, before, run, s, now.tables, SetOf(batch), moved, n, report, e.value);
          return e, After(report, n);
        }
        ReachedNext(job, opts, faults, before, run, s, now, SetOf(batch), moved, n, report);
        report := After(report, n);
        run := run + [now];
      }
      err, report := Finish(job, opts, faults, tracker, before, run, report);
    }

    /** The anomalies of a drain that is through its batches. */
    method Finish(job: Job, opts: Options, faults: Faults, tracker: AnomalyTracker, ghost before: Tables,
                  ghost run: seq<State>, ran: Report)
      returns (err: Option<DrainError>, report: Report)
      requires Tiling(job.grid) && tracker.Valid()
      requires Reached(job, opts, faults, before, run, State(Stored(), tracker.byKey), ran)
      requires RanDry(opts, ran.batchesRun) ==>
        && Live(job, State(Stored(), tracker.byKey)) == {} && ReadParams(job, |tracker.byKey|) <= PARAM_LIMIT
        && !faults.cancelled(ran.batchesRun) && !faults.readFails(ran.batchesRun)
      ensures DrainContract(job, opts, before, Stored(), err, report)
      ensures err.None? <==> faults.summaryFails.None? || |NullTenants(job, rows)| < faults.summaryFails.value
      ensures StopsInTime(opts, faults, err, report)
      ensures err.Some? ==> ErrorIsReal(job, faults, before.rows, report, err.value)
    {
      hide Live, IsRun, CountsNulls, DrainContract, Delivered, Justified, SummarizesNulls, Listed, ReadParams,
        AnomalyTracker.Valid, Tiling, RanDry, MovedWithin, Clear, StopsInTime, ErrorIsReal;
      NoProgress(job, Stored());
      var ok, nulls := SummarizeNulls(job, rows, faults.summaryFails);
      ghost var tenants :| CountsNulls(job, rows, tenants, nulls) && (ok ==> SummarizesNulls(job, rows, tenants, nulls));
      report := ran.(anomalies := nulls);
      if !ok {
        DrainStops(job, opts, before, run, Stored(), map[], SummaryFailed, report);
        Finished(job, opts, faults, before.rows, ran, report, Some(SummaryFailed));
        return Some(SummaryFailed), report;
      }
      var missing := tracker.List();
      report := ran.(anomalies := nulls + missing);
      DrainEnds(job, opts, before, run, tenants, nulls, tracker.order, missing, report);
      Finished(job, opts, faults, before.rows, ran, report, None);
      err := None;
    }
  }

  lemma NoProgress(job: Job, t: Tables)
    ensures Delivered(t, t, map[]) && Justified(job, t.rows, map[])
  {
    NothingDelivered(t);
  }

  lemma EmptyOnlyAtEnd(job: Job, size: nat, s: State, batch: seq<Ctid>)
    requires size >= 1 && Distinct(batch) && IsBatch(job, size, s, SetOf(batch)) && Sorted(s, batch)
    ensures batch == [] <==> Live(job, s) == {}
    ensures forall c :: c in batch ==> c in s.tables.rows && Readable(job, s.tables.rows[c])
  {
    hide Live, Sorted;
    DistinctSize(batch);
    LiveHasControl(job, s);
    assert forall c :: c in batch ==> c in SetOf(batch) && c in Live(job, s);
  }

  lemma ExtendRun(job: Job, size: nat, run: seq<State>, after: State, picked: set<Ctid>, moved: map<Ctid, string>)
    requires IsRun(job, size, run) && Live(job, run[|run| - 1]) != {}
    requires IsBatch(job, size, run[|run| - 1], picked) && Handled(job, run[|run| - 1], after, picked, moved)
    ensures IsRun(job, size, run + [after])
  {
    hide Live, IsBatch, Handled;
    var longer := run + [after];
    forall i | 0 <= i < |longer| - 1
      ensures BatchStep(job, size, longer[i], longer[i + 1])
    {
      if i < |run| - 1 {
        assert BatchStep(job, size, run[i], run[i + 1]);
      }
    }
  }

  lemma RunShrinks(job: Job, size: nat, run: seq<State>, after: State)
    requires Tiling(job.grid) && size >= 1 && IsRun(job, size, run) && IsRun(job, size, run + [after])
    requires !Endless(job, size, run[0].tables.rows)
    ensures |Moving(job, after)| < |Moving(job, run[|run| - 1])|
  {
    hide Endless, Moving, BatchStep;
    RunEnds(job, size, run);
    var longer := run + [after];
    var n := |run| - 1;
    assert BatchStep(job, size, longer[n], longer[n + 1]);
    StepMoves(job, size, run[n], after);
  }

  /** The rows of a bucket have its key; none is infinite if it has a target and
      no row is refused. */
  lemma GroupRows(job: Job, rows: map<Ctid, Row>, picked: set<Ctid>, k: GroupKey, ctids: seq<Ctid>)
    requires Bucket(job, rows, picked, k, ctids)
    ensures forall c :: c in ctids ==> c in SetOf(ctids) && c in rows && !rows[c].control.Null?
    ensures Refusals(job, rows) == {} && HasTarget(job, k) ==> forall c :: c in ctids ==> !rows[c].control.IsInfinite()
  {
    hide Distinct, HasTarget;
    assert forall c :: c in ctids ==> c in SetOf(ctids);
    if Refusals(job, rows) == {} && HasTarget(job, k) {
      forall c | c in ctids
        ensures !rows[c].control.IsInfinite()
      {
        assert c in Having(job, rows, picked, k);
        assert c !in Refusals(job, rows);
      }
    }
  }

  lemma NoneDone(all: set<GroupKey>)
    ensures all - all == {} && all - {} == all
  {
  }

  lemma NextDone(all: set<GroupKey>, pending: set<GroupKey>, k: GroupKey)
    requires k in pending && pending <= all
    ensures k !in all - pending && k in all && pending - {k} <= all
    ensures all - (pending - {k}) == (all - pending) + {k}
  {
  }

  lemma HandledIsProgress(job: Job, s: State, after: State, picked: set<Ctid>, done: set<GroupKey>, moved: map<Ctid,
                          string>)
    requires HandledUpTo(job, s, after, picked, done, moved)
    ensures Delivered(s.tables, after.tables, moved) && Justified(job, s.tables.rows, moved)
  {
  }

  /** A batch moves no more rows than it picked. */
  lemma MovesPicked(job: Job, s: State, after: State, picked: set<Ctid>, done: set<GroupKey>, moved: map<Ctid, string>)
    requires HandledUpTo(job, s, after, picked, done, moved)
    ensures |s.tables.rows| - |after.tables.rows| <= |picked|
  {
    hide Delivered, Justified, HasTarget, Readable, KeyOf;
    DefaultShrinks(s.tables, after.tables, moved);
    SubsetSize(moved.Keys, picked);
    assert |moved| == |moved.Keys|;
  }

  /** So a call moves no more rows than its batches can. */
  lemma MovesBatches(job: Job, size: nat, s: State, picked: set<Ctid>, moved: nat, batches: nat, n: nat)
    requires IsBatch(job, size, s, picked) && n <= |picked| && MovedWithin(moved, batches, size)
    ensures MovedWithin(moved + n, batches + 1, size)
  {
    hide Live;
  }

  lemma BucketOf(job: Job, rows: map<Ctid, Row>, ctids: set<Ctid>, groups: map<GroupKey, seq<Ctid>>, k: GroupKey)
    requires Grouped(job, rows, ctids, groups) && k in groups
    ensures Bucket(job, rows, ctids, k, groups[k])
  {
    DistinctSize(groups[k]);
  }

  lemma BucketKeys(job: Job, rows: map<Ctid, Row>, ctids: set<Ctid>, groups: map<GroupKey, seq<Ctid>>)
    requires Grouped(job, rows, ctids, groups)
    ensures groups.Keys == KeysIn(job, rows, ctids)
  {
  }

  /** The lookup of a group's target: any active row that matches. */
  method FindActivePartitionByBounds(job: Job, k: GroupKey) returns (r: PartRow)
    requires HasTarget(job, k)
    ensures r in job.meta && IsTarget(job, k, r)
  {
    r :| r in job.meta && IsTarget(job, k, r);
  }
}
