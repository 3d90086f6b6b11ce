/** Draining the default partition: what a batch may do, and what follows for
    whole runs.  The loop itself is in module DrainLoop. */
module Drain {
  import opened Wrappers
  import opened Calendar
  import opened Periods
  import opened Metadata

  type Ctid = nat

  /** A value of the control column, a timestamptz: PostgreSQL orders both
      infinities around all others. */
  datatype Control = Null | MinusInfinity | Finite(at: Instant) | Infinity {
    /** The time.Time the driver scans: infinities leave it zero. */
    function Scanned(): Instant { if Finite? then at else ZERO_TIME }

    predicate IsInfinite() { MinusInfinity? || Infinity? }
  }

  /** `a <= b`, for values that are not NULL. */
  predicate NotAfter(a: Control, b: Control) {
    a.MinusInfinity? || b.Infinity? || (a.Finite? && b.Finite? && a.at <= b.at)
  }

  /** A row of the default partition; both columns may be NULL. */
  datatype Row = Row(control: Control, tenant: Option<string>, payload: string)

  /** The default partition by physical address, and the rows of each child. */
  datatype Tables = Tables(rows: map<Ctid, Row>, children: map<string, multiset<Row>>)

  /** The target of a group.  `tenantOK` is false for a NULL tenant and for
      parents without a tenant column. */
  datatype GroupKey = GroupKey(bounds: Bounds, tenant: string, tenantOK: bool)

  /** What one call works on: the parent's interval as a grid, its tenant column
      if any, the tenant filter, and the metadata. */
  datatype Job = Job(grid: Grid, tenanted: bool, filter: Option<string>, parentId: string, meta: seq<PartRow>)

  /** A drain in progress: the tables, and the anomalies recorded so far. */
  datatype State = State(tables: Tables, counts: map<GroupKey, nat>)

  /* ----- queries ----- */

  /** The rows the read selects before any exclusion. */
  predicate Readable(job: Job, row: Row) {
    !row.control.Null? && (job.tenanted && job.filter.Some? ==> row.tenant == job.filter)
  }

  function KeyOf(job: Job, row: Row): GroupKey
    requires !row.control.Null?
  {
    if job.tenanted && row.tenant.Some?
    then GroupKey(job.grid(row.control.Scanned()), row.tenant.value, true)
    else GroupKey(job.grid(row.control.Scanned()), "", false)
  }

  /** The SQL value of a key's tenant: the empty string becomes NULL. */
  function SqlTenant(k: GroupKey): Option<string> {
    if !k.tenantOK || k.tenant == "" then None else Some(k.tenant)
  }

  /** FindActivePartitionByBounds. */
  predicate IsTarget(job: Job, k: GroupKey, r: PartRow) {
    && r.parentId == job.parentId && r.tenant == SqlTenant(k)
    && !r.isDefault && r.status == Active && r.bounds == k.bounds
  }

  predicate HasTarget(job: Job, k: GroupKey) { exists r :: r in job.meta && IsTarget(job, k, r) }

  /** The clause that excludes the rows of a recorded key. */
  predicate Covers(job: Job, k: GroupKey, row: Row) {
    && row.control.Finite? && k.bounds.Contains(row.control.at)
    && (job.tenanted ==> row.tenant == SqlTenant(k))
  }

  predicate Selected(job: Job, excluded: set<GroupKey>, row: Row) {
    Readable(job, row) && forall k :: k in excluded ==> !Covers(job, k, row)
  }

  /** The rows the next read chooses from. */
  function Live(job: Job, s: State): set<Ctid> {
    set c | c in s.tables.rows && Selected(job, s.counts.Keys, s.tables.rows[c])
  }

  predicate Precedes(s: State, c: Ctid, e: Ctid)
    requires c in s.tables.rows && e in s.tables.rows
  {
    NotAfter(s.tables.rows[c].control, s.tables.rows[e].control)
  }

  function Min(a: nat, b: nat): nat { if a < b then a else b }

  /** A result of the read: ORDER BY the control column, LIMIT `size`. */
  ghost predicate IsBatch(job: Job, size: nat, s: State, picked: set<Ctid>) {
    && picked <= Live(job, s) && |picked| == Min(size, |Live(job, s)|)
    && forall c, e :: c in picked && e in Live(job, s) - picked ==> Precedes(s, c, e)
  }

  /* ----- moving rows ----- */

  function Content(t: Tables, name: string): multiset<Row> {
    if name in t.children then t.children[name] else multiset{}
  }

  /** The rows at some addresses. */
  ghost function RowsAt(rows: map<Ctid, Row>, cs: set<Ctid>): multiset<Row>
    requires cs <= rows.Keys
  {
    if cs == {} then multiset{}
    else
      var c :| c in cs;
      multiset{rows[c]} + RowsAt(rows, cs - {c})
  }

  lemma {:induction false} RowsAtWithout(rows: map<Ctid, Row>, cs: set<Ctid>, c: Ctid)
    requires cs <= rows.Keys && c in cs
    ensures RowsAt(rows, cs) == multiset{rows[c]} + RowsAt(rows, cs - {c})
    decreases |cs|
  {
    var e :| e in cs && RowsAt(rows, cs) == multiset{rows[e]} + RowsAt(rows, cs - {e});
    if e != c {
      RowsAtWithout(rows, cs - {e}, c);
      RowsAtWithout(rows, cs - {c}, e);
      assert cs - {e} - {c} == cs - {c} - {e};
    }
  }

  lemma {:induction false} RowsAtUnion(rows: map<Ctid, Row>, a: set<Ctid>, b: set<Ctid>)
    requires a + b <= rows.Keys && a !! b
    ensures RowsAt(rows, a + b) == RowsAt(rows, a) + RowsAt(rows, b)
    decreases |a|
  {
    if a == {} {
      assert a + b == b;
    } else {
      var c :| c in a;
      RowsAtWithout(rows, a, c);
      RowsAtWithout(rows, a + b, c);
      RowsAtUnion(rows, a - {c}, b);
      assert a + b - {c} == (a - {c}) + b;
    }
  }

  lemma {:induction false} RowsAtAgree(rows: map<Ctid, Row>, other: map<Ctid, Row>, cs: set<Ctid>)
    requires cs <= rows.Keys && cs <= other.Keys && forall c :: c in cs ==> rows[c] == other[c]
    ensures RowsAt(rows, cs) == RowsAt(other, cs)
    decreases |cs|
  {
    if cs != {} {
      var c :| c in cs;
      RowsAtWithout(rows, cs, c);
      RowsAtWithout(other, cs, c);
      RowsAtAgree(rows, other, cs - {c});
    }
  }

  function Sent(moved: map<Ctid, string>, name: string): set<Ctid> {
    set c | c in moved && moved[c] == name
  }

  /** The rows in `moved`, and no others, have left the default partition, each
      for the child it is mapped to. */
  ghost predicate Delivered(before: Tables, after: Tables, moved: map<Ctid, string>) {
    && moved.Keys <= before.rows.Keys
    && after.rows == before.rows - moved.Keys
    && forall name :: Content(after, name) == Content(before, name) + RowsAt(before.rows, Sent(moved, name))
  }

  /** Every row in `moved` was readable and went to an active partition of its
      own tenant and window, whose constraint no infinite value meets. */
  ghost predicate Justified(job: Job, rows: map<Ctid, Row>, moved: map<Ctid, string>) {
    forall c :: c in moved ==>
      && c in rows && Readable(job, rows[c]) && rows[c].control.Finite?
      && exists r :: r in job.meta && IsTarget(job, KeyOf(job, rows[c]), r) && r.name == moved[c]
  }

  lemma NothingDelivered(t: Tables)
    ensures Delivered(t, t, map[])
  {
    forall name ensures Content(t, name) == Content(t, name) + RowsAt(t.rows, Sent(map[], name)) {
      assert Sent(map[], name) == {};
    }
    var none: map<Ctid, string> := map[];
    assert t.rows - none.Keys == t.rows;
  }

  lemma SentTwice(first: map<Ctid, string>, second: map<Ctid, string>, name: string)
    requires first.Keys !! second.Keys
    ensures Sent(first + second, name) == Sent(first, name) + Sent(second, name)
    ensures Sent(first, name) !! Sent(second, name)
    ensures Sent(first, name) <= first.Keys && Sent(second, name) <= second.Keys
  {
  }

  lemma DeliveredTwice(a: Tables, b: Tables, c: Tables, first: map<Ctid, string>, second: map<Ctid, string>)
    requires Delivered(a, b, first) && Delivered(b, c, second)
    ensures Delivered(a, c, first + second) && first.Keys !! second.Keys
  {
    hide Content, Sent, RowsAt;
    assert first.Keys !! second.Keys;
    assert a.rows - (first + second).Keys == b.rows - second.Keys;
    forall name
      ensures Sent(first + second, name) <= a.rows.Keys
      ensures Content(c, name) == Content(a, name) + RowsAt(a.rows, Sent(first + second, name))
    {
      SentTwice(first, second, name);
      var x, y := Sent(first, name), Sent(second, name);
      RowsAtUnion(a.rows, x, y);
      RowsAtAgree(a.rows, b.rows, y);
      assert Content(b, name) == Content(a, name) + RowsAt(a.rows, x);
      assert Content(c, name) == Content(b, name) + RowsAt(b.rows, y);
    }
  }

  /** A window's target holds only rows of its own range and tenant, an empty
      tenant counting as none. */
  lemma MovedRowsFit(job: Job, rows: map<Ctid, Row>, moved: map<Ctid, string>, c: Ctid)
    requires Tiling(job.grid) && Justified(job, rows, moved) && c in moved
    ensures rows[c].control.Finite?
    ensures exists r :: r in job.meta && r.name == moved[c] && r.bounds.Contains(rows[c].control.at)
                     && r.tenant == if job.tenanted && rows[c].tenant != Some("") then rows[c].tenant else None
  {
    var t := rows[c].control.at;
    var r :| r in job.meta && IsTarget(job, KeyOf(job, rows[c]), r) && r.name == moved[c];
    assert job.grid(t).Contains(t);
  }

  /* ----- one batch ----- */

  /** How many picked rows have key `k`. */
  function Having(job: Job, rows: map<Ctid, Row>, cs: set<Ctid>, k: GroupKey): set<Ctid> {
    set c | c in cs && c in rows && Readable(job, rows[c]) && KeyOf(job, rows[c]) == k
  }

  /** The keys of the picked rows. */
  function KeysIn(job: Job, rows: map<Ctid, Row>, cs: set<Ctid>): set<GroupKey> {
    set c | c in cs && c in rows && Readable(job, rows[c]) :: KeyOf(job, rows[c])
  }

  function CountOf(counts: map<GroupKey, nat>, k: GroupKey): nat { if k in counts then counts[k] else 0 }

  /** How many rows a batch adds to the anomaly of a key. */
  function NewCount(job: Job, rows: map<Ctid, Row>, picked: set<Ctid>, k: GroupKey): nat {
    if HasTarget(job, k) then 0 else |Having(job, rows, picked, k)|
  }

  /** The picked rows whose group has a target. */
  function Movable(job: Job, rows: map<Ctid, Row>, picked: set<Ctid>): set<Ctid> {
    set c | c in picked && c in rows && Readable(job, rows[c]) && HasTarget(job, KeyOf(job, rows[c]))
  }

  /** The effect of a whole batch: groups with a target move, the others are
      recorded. */
  ghost predicate Handled(job: Job, s: State, after: State, picked: set<Ctid>, moved: map<Ctid, string>) {
    var rows := s.tables.rows;
    && moved.Keys == Movable(job, rows, picked)
    && Justified(job, rows, moved)
    && Delivered(s.tables, after.tables, moved)
    && after.counts.Keys == s.counts.Keys + (set k | k in KeysIn(job, rows, picked) && !HasTarget(job, k))
    && forall k :: k in after.counts ==> after.counts[k] == CountOf(s.counts, k) + NewCount(job, rows, picked, k)
  }

  /** One turn of the batch loop that reads at least one row and meets no error. */
  ghost predicate BatchStep(job: Job, size: nat, s: State, after: State) {
    Live(job, s) != {} &&
    exists picked, moved :: IsBatch(job, size, s, picked) && Handled(job, s, after, picked, moved)
  }

  /** Rows no exclusion clause selects: those of an empty-string tenant, and those
      with an infinite control value. */
  predicate NeverExcluded(job: Job, row: Row) {
    (job.tenanted && row.tenant == Some("")) || row.control.IsInfinite()
  }

  /** Rows the drain can neither move nor exclude. */
  predicate Stuck(job: Job, row: Row) {
    Readable(job, row) && NeverExcluded(job, row) && !HasTarget(job, KeyOf(job, row))
  }

  /** Rows whose move the server refuses: the zero time an infinite value is read
      as has a target, which does not take them. */
  predicate Refused(job: Job, row: Row) {
    Readable(job, row) && row.control.IsInfinite() && HasTarget(job, KeyOf(job, row))
  }

  predicate NoneStuck(job: Job, rows: map<Ctid, Row>) {
    forall c :: c in rows ==> !Stuck(job, rows[c])
  }

  /** A recorded key stands for rows that have no target, one at least. */
  ghost predicate Recorded(job: Job, s: State) {
    forall k :: k in s.counts ==>
      && !HasTarget(job, k)
      && 1 <= s.counts[k] <= |Having(job, s.tables.rows, s.tables.rows.Keys, k)|
  }

  /** The exclusion by range and tenant selects exactly the rows of a recorded
      key that have a finite control value, if that key was not recorded for an
      empty-string tenant. */
  lemma ExclusionIsGroup(job: Job, row: Row, other: Row)
    requires Tiling(job.grid) && Readable(job, row) && Readable(job, other)
    requires !(job.tenanted && other.tenant == Some(""))
    ensures Covers(job, KeyOf(job, other), row) <==> row.control.Finite? && KeyOf(job, row) == KeyOf(job, other)
  {
    var t, u := other.control.Scanned(), row.control.Scanned();
    assert job.grid(t).Contains(u) <==> job.grid(u) == job.grid(t);
  }

  /** A row of an empty-string tenant, or with an infinite control value, is
      excluded by no key at all. */
  lemma StuckNeverExcluded(job: Job, k: GroupKey, row: Row)
    requires NeverExcluded(job, row)
    ensures !Covers(job, k, row)
  {
  }

  lemma SubsetSize<T>(a: set<T>, b: set<T>)
    requires a <= b
    ensures |a| <= |b| && |b - a| == |b| - |a|
  {
    assert b == a + (b - a);
  }

  /** Nothing that a batch picked is read again, and nothing new is read. */
  lemma StepShrinksLive(job: Job, size: nat, s: State, after: State, picked: set<Ctid>, moved: map<Ctid, string>)
    requires Tiling(job.grid) && NoneStuck(job, s.tables.rows)
    requires IsBatch(job, size, s, picked) && Handled(job, s, after, picked, moved)
    ensures Live(job, after) <= Live(job, s) - picked
    ensures |Live(job, after)| <= |Live(job, s)| - Min(size, |Live(job, s)|)
  {
    var rows := s.tables.rows;
    forall c | c in Live(job, after)
      ensures c in Live(job, s) && c !in picked
    {
      assert Selected(job, s.counts.Keys, rows[c]);
      if c in picked {
        var k := KeyOf(job, rows[c]);
        assert k in KeysIn(job, rows, picked);
        assert !HasTarget(job, k);
        assert k in after.counts.Keys;
        assert !Stuck(job, rows[c]);
        ExclusionIsGroup(job, rows[c], rows[c]);
      }
    }
    SubsetSize(Live(job, after), Live(job, s) - picked);
    SubsetSize(picked, Live(job, s));
  }

  lemma PickedAvoidRecorded(job: Job, s: State, picked: set<Ctid>, k: GroupKey)
    requires Tiling(job.grid) && NoneStuck(job, s.tables.rows)
    requires picked <= Live(job, s) && k in s.counts && !HasTarget(job, k)
    ensures Having(job, s.tables.rows, picked, k) == {}
  {
    var rows := s.tables.rows;
    forall c | c in picked
      ensures KeyOf(job, rows[c]) != k
    {
      assert c in Live(job, s) && Selected(job, s.counts.Keys, rows[c]);
      assert !Covers(job, k, rows[c]) && !Stuck(job, rows[c]);
      if !NeverExcluded(job, rows[c]) {
        ExclusionIsGroup(job, rows[c], rows[c]);
      }
    }
  }

  /** Rows of a key without a target stay where they are. */
  lemma MissingGroupStays(job: Job, s: State, after: State, picked: set<Ctid>, moved: map<Ctid, string>, k: GroupKey)
    requires Handled(job, s, after, picked, moved) && !HasTarget(job, k)
    ensures Having(job, after.tables.rows, after.tables.rows.Keys, k) == Having(job, s.tables.rows, s.tables.rows.Keys, k)
  {
    hide IsTarget, Readable;
    assert forall c :: c in Having(job, s.tables.rows, s.tables.rows.Keys, k) ==> c !in Movable(job, s.tables.rows, picked);
  }

  /** A recorded anomaly keeps its count, and a new one counts rows that stay. */
  lemma StepKeepsRecorded(job: Job, size: nat, s: State, after: State, picked: set<Ctid>, moved: map<Ctid, string>)
    requires Tiling(job.grid) && NoneStuck(job, s.tables.rows) && Recorded(job, s)
    requires IsBatch(job, size, s, picked) && Handled(job, s, after, picked, moved)
    ensures Recorded(job, after) && NoneStuck(job, after.tables.rows)
  {
    hide HasTarget, Live, Stuck;
    var rows, left := s.tables.rows, after.tables.rows;
    forall k | k in after.counts
      ensures !HasTarget(job, k) && 1 <= after.counts[k] <= |Having(job, left, left.Keys, k)|
    {
      assert !HasTarget(job, k);
      MissingGroupStays(job, s, after, picked, moved, k);
      if k in s.counts {
        PickedAvoidRecorded(job, s, picked, k);
      } else {
        SubsetSize(Having(job, rows, picked, k), Having(job, rows, rows.Keys, k));
        var c :| c in picked && c in rows && Readable(job, rows[c]) && KeyOf(job, rows[c]) == k;
        assert c in Having(job, rows, picked, k);
      }
    }
  }

  /** What one turn of the loop is known to do when no row is stuck. */
  lemma StepFacts(job: Job, size: nat, s: State, after: State)
    requires Tiling(job.grid) && NoneStuck(job, s.tables.rows) && Recorded(job, s) && BatchStep(job, size, s, after)
    ensures Recorded(job, after) && NoneStuck(job, after.tables.rows)
    ensures |Live(job, after)| <= |Live(job, s)| - Min(size, |Live(job, s)|)
  {
    hide Handled, IsBatch, Live, Recorded, NoneStuck;
    var picked, moved :| IsBatch(job, size, s, picked) && Handled(job, s, after, picked, moved);
    StepShrinksLive(job, size, s, after, picked, moved);
    StepKeepsRecorded(job, size, s, after, picked, moved);
  }

  /* ----- whole runs ----- */

  /** The states of a run, each batch leading from one to the next. */
  ghost predicate IsRun(job: Job, size: nat, run: seq<State>) {
    run != [] && forall i :: 0 <= i < |run| - 1 ==> BatchStep(job, size, run[i], run[i + 1])
  }

  /** What holds after any number of batches, and of groups within a batch. */
  ghost predicate Progressed(job: Job, before: Tables, after: Tables) {
    exists moved :: Delivered(before, after, moved) && Justified(job, before.rows, moved)
  }

  lemma ProgressedStep(job: Job, before: Tables, mid: Tables, after: Tables, second: map<Ctid, string>)
    requires Progressed(job, before, mid) && Delivered(mid, after, second) && Justified(job, mid.rows, second)
    ensures Progressed(job, before, after)
  {
    var first :| Delivered(before, mid, first) && Justified(job, before.rows, first);
    DeliveredTwice(before, mid, after, first, second);
    JustifiedTwice(job, before, mid, first, second);
  }

  lemma JustifiedTwice(job: Job, before: Tables, mid: Tables, first: map<Ctid, string>, second: map<Ctid, string>)
    requires Delivered(before, mid, first) && Justified(job, before.rows, first) && Justified(job, mid.rows, second)
    ensures Justified(job, before.rows, first + second)
  {
    hide Content, RowsAt, IsTarget, KeyOf;
  }

  /** Rows are conserved and every moved row fits its target at every state of
      every run, whatever the batch size. */
  lemma {:induction false} RunConserves(job: Job, size: nat, run: seq<State>)
    requires IsRun(job, size, run)
    ensures Progressed(job, run[0].tables, run[|run| - 1].tables)
    decreases |run|
  {
    NothingDelivered(run[0].tables);
    if |run| == 1 {
      var none: map<Ctid, string> := map[];
      assert Delivered(run[0].tables, run[0].tables, none) && Justified(job, run[0].tables.rows, none);
    } else {
      var most := run[..|run| - 1];
      var s, after := run[|run| - 2], run[|run| - 1];
      assert BatchStep(job, size, run[|run| - 2], run[|run| - 2 + 1]);
      RunConserves(job, size, most);
      var picked, moved :| IsBatch(job, size, s, picked) && Handled(job, s, after, picked, moved);
      ProgressedStep(job, run[0].tables, s.tables, after.tables, moved);
    }
  }

  /** Without stuck rows every batch takes `size` rows off those still to be
      read, or all of them: a run has no more than N / size batches, rounded up. */
  lemma {:induction false} RunIsBounded(job: Job, size: nat, run: seq<State>)
    requires Tiling(job.grid) && size >= 1 && IsRun(job, size, run)
    requires NoneStuck(job, run[0].tables.rows) && Recorded(job, run[0])
    ensures NoneStuck(job, run[|run| - 1].tables.rows) && Recorded(job, run[|run| - 1])
    ensures |run| > 1 ==> (|run| - 2) * size < |Live(job, run[0])|
    ensures Live(job, run[|run| - 1]) != {} ==>
      |Live(job, run[|run| - 1])| + (|run| - 1) * size <= |Live(job, run[0])|
    decreases |run|
  {
    hide Live, BatchStep, Recorded, NoneStuck;
    if |run| > 1 {
      var n := |run| - 1;
      RunIsBounded(job, size, run[..n]);
      assert BatchStep(job, size, run[n - 1], run[n - 1 + 1]);
      assert Live(job, run[n - 1]) != {} by { StepReads(job, size, run[n - 1], run[n]); }
      StepFacts(job, size, run[n - 1], run[n]);
      assert n * size == (n - 1) * size + size;
      if Live(job, run[n]) != {} {
        assert |Live(job, run[n])| > 0;
      }
    }
  }

  lemma StepReads(job: Job, size: nat, s: State, after: State)
    requires BatchStep(job, size, s, after)
    ensures Live(job, s) != {}
  {
  }

  /* ----- the one-shot specification ----- */

  /** Rows that belong where they are: not read at all, or without a target. */
  predicate Stays(job: Job, row: Row) {
    !Readable(job, row) || !HasTarget(job, KeyOf(job, row))
  }

  /** The rows whose tenant and window name a given child. */
  function Routed(job: Job, rows: map<Ctid, Row>, name: string): set<Ctid> {
    set c | c in rows && Readable(job, rows[c])
            && exists r :: r in job.meta && IsTarget(job, KeyOf(job, rows[c]), r) && r.name == name
  }

  /** Two active bounded partitions of one tenant and range. */
  predicate SameTarget(job: Job, r: PartRow, q: PartRow) {
    && r.parentId == q.parentId == job.parentId && !r.isDefault && !q.isDefault
    && r.status == q.status == Active && r.tenant == q.tenant && r.bounds == q.bounds
  }

  /** At most one active partition per tenant and range. */
  predicate UniqueTargets(job: Job) {
    forall r, q :: r in job.meta && q in job.meta && SameTarget(job, r, q) ==> r.name == q.name
  }

  /** Routing every row at once. */
  ghost predicate RoutedAll(job: Job, before: Tables, after: Tables) {
    && after.rows == (map c | c in before.rows && Stays(job, before.rows[c]) :: before.rows[c])
    && (UniqueTargets(job) ==>
          forall name :: Content(after, name) == Content(before, name) + RowsAt(before.rows, Routed(job, before.rows, name)))
  }

  lemma LeftoversStay(job: Job, s: State, c: Ctid)
    requires Tiling(job.grid) && NoneStuck(job, s.tables.rows) && Recorded(job, s) && Live(job, s) == {}
    requires c in s.tables.rows && Readable(job, s.tables.rows[c])
    ensures KeyOf(job, s.tables.rows[c]) in s.counts && !HasTarget(job, KeyOf(job, s.tables.rows[c]))
  {
    hide HasTarget;
    var rows := s.tables.rows;
    assert c !in Live(job, s);
    var k :| k in s.counts.Keys && Covers(job, k, rows[c]);
    assert |Having(job, rows, rows.Keys, k)| >= 1;
    var e :| e in Having(job, rows, rows.Keys, k);
    assert !Stuck(job, rows[e]);
    ExclusionIsGroup(job, rows[c], rows[e]);
  }

  /** A run that reads until nothing is left routes every row: the default keeps
      exactly the rows that belong there, and every child gains exactly the rows
      whose tenant and window name it. */
  lemma DrainedIsRouted(job: Job, before: Tables, s: State)
    requires Tiling(job.grid) && NoneStuck(job, before.rows)
    requires Progressed(job, before, s.tables) && Recorded(job, s) && Live(job, s) == {}
    ensures RoutedAll(job, before, s.tables)
    ensures job.tenanted && job.filter.Some? ==>
      forall c :: c in before.rows && before.rows[c].tenant != job.filter ==> c in s.tables.rows
    ensures forall c :: c in before.rows && before.rows[c].control.Finite? ==>
      (job.tenanted && job.filter.Some? ==> before.rows[c].tenant == job.filter) ==>
      HasTarget(job, KeyOf(job, before.rows[c])) ==> c !in s.tables.rows
  {
    hide HasTarget, Stuck, Content, RowsAt, Recorded, Live;
    var moved :| Delivered(before, s.tables, moved) && Justified(job, before.rows, moved);
    var rows := s.tables.rows;
    forall c | c in before.rows
      ensures c in rows <==> Stays(job, before.rows[c])
    {
      if c in rows && Readable(job, rows[c]) {
        LeftoversStay(job, s, c);
      }
      if c in moved {
        MovedHasTarget(job, before.rows, moved, c);
      }
    }
    assert rows == map c | c in before.rows && Stays(job, before.rows[c]) :: before.rows[c];
    if UniqueTargets(job) {
      forall name
        ensures Content(s.tables, name) == Content(before, name) + RowsAt(before.rows, Routed(job, before.rows, name))
      {
        SentIsRouted(job, before.rows, moved, name);
      }
    }
  }

  lemma MovedHasTarget(job: Job, rows: map<Ctid, Row>, moved: map<Ctid, string>, c: Ctid)
    requires Justified(job, rows, moved) && c in moved
    ensures HasTarget(job, KeyOf(job, rows[c])) && Readable(job, rows[c])
  {
    var r :| r in job.meta && IsTarget(job, KeyOf(job, rows[c]), r) && r.name == moved[c];
  }

  lemma SentIsRouted(job: Job, rows: map<Ctid, Row>, moved: map<Ctid, string>, name: string)
    requires UniqueTargets(job) && Justified(job, rows, moved)
    requires forall c :: c in rows ==> (c in moved <==> !Stays(job, rows[c]))
    ensures Sent(moved, name) == Routed(job, rows, name)
  {
    forall c | c in moved
      ensures moved[c] == name <==> c in Routed(job, rows, name)
    {
      var r :| r in job.meta && IsTarget(job, KeyOf(job, rows[c]), r) && r.name == moved[c];
      if c in Routed(job, rows, name) {
        var q :| q in job.meta && IsTarget(job, KeyOf(job, rows[c]), q) && q.name == name;
      }
    }
    forall c | c in Routed(job, rows, name)
      ensures c in moved
    {
      var q :| q in job.meta && IsTarget(job, KeyOf(job, rows[c]), q) && q.name == name;
      assert HasTarget(job, KeyOf(job, rows[c]));
    }
  }

  /** The recorded anomalies are exactly the keys of readable rows that are left,
      each with a count between one and the rows left for it. */
  lemma DrainedAnomaliesExact(job: Job, s: State)
    requires Tiling(job.grid) && NoneStuck(job, s.tables.rows) && Recorded(job, s) && Live(job, s) == {}
    ensures s.counts.Keys == KeysIn(job, s.tables.rows, s.tables.rows.Keys)
    ensures forall k :: k in s.counts ==> 1 <= s.counts[k] <= |Having(job, s.tables.rows, s.tables.rows.Keys, k)|
  {
    hide HasTarget, Live, Stuck;
    var rows := s.tables.rows;
    forall c | c in rows && Readable(job, rows[c])
      ensures KeyOf(job, rows[c]) in s.counts
    {
      LeftoversStay(job, s, c);
    }
    forall k | k in s.counts
      ensures k in KeysIn(job, rows, rows.Keys)
    {
      assert |Having(job, rows, rows.Keys, k)| >= 1;
      var c :| c in Having(job, rows, rows.Keys, k);
    }
  }

  /* ----- how many keys a read can exclude ----- */

  /** The keys of the rows that have no target. */
  function MissingKeys(job: Job, rows: map<Ctid, Row>): set<GroupKey> {
    set k | k in KeysIn(job, rows, rows.Keys) && !HasTarget(job, k)
  }

  /** The most parameters a statement can carry. */
  const PARAM_LIMIT: nat := 65535

  /** The parameters of a read that excludes so many keys. */
  function ReadParams(job: Job, keys: nat): nat {
    1 + (if job.tenanted && job.filter.Some? then 1 else 0) + (if job.tenanted then 3 * keys else 2 * keys)
  }

  /** A value that is sent along with a statement. */
  datatype Param = TextParam(value: Option<string>) | TimeParam(at: Instant) | SizeParam(size: nat)

  /** The values of one exclusion clause. */
  function ClauseArgs(job: Job, k: GroupKey): seq<Param> {
    [TimeParam(k.bounds.from), TimeParam(k.bounds.to)] + if job.tenanted then [TextParam(SqlTenant(k))] else []
  }

  function ClausesArgs(job: Job, ks: seq<GroupKey>): seq<Param> {
    if ks == [] then [] else ClausesArgs(job, ks[..|ks| - 1]) + ClauseArgs(job, ks[|ks| - 1])
  }

  /** The values of a read: the tenant asked for, those of the clauses, and the
      batch size. */
  function ReadArgs(job: Job, ks: seq<GroupKey>, size: nat): seq<Param> {
    (if job.tenanted && job.filter.Some? then [TextParam(job.filter)] else []) + ClausesArgs(job, ks) + [SizeParam(size)]
  }

  lemma {:induction false} ClausesCount(job: Job, ks: seq<GroupKey>)
    ensures |ClausesArgs(job, ks)| == if job.tenanted then 3 * |ks| else 2 * |ks|
  {
    if ks != [] {
      ClausesCount(job, ks[..|ks| - 1]);
    }
  }

  lemma ParamsAreArgs(job: Job, ks: seq<GroupKey>, size: nat)
    ensures ReadParams(job, |ks|) == |ReadArgs(job, ks, size)|
  {
    ClausesCount(job, ks);
  }

  /** A read can exclude 21844 keys of a tenanted parent, or 32767 of another. */
  lemma ParamsFitIff(job: Job, keys: nat)
    ensures ReadParams(job, keys) <= PARAM_LIMIT <==> keys <= if job.tenanted then 21844 else 32767
  {
  }

  /** What a run has recorded are keys that had no target to begin with. */
  lemma {:induction false} RecordsMissing(job: Job, size: nat, run: seq<State>)
    requires IsRun(job, size, run) && run != [] && run[0].counts == map[]
    ensures run[|run| - 1].counts.Keys <= MissingKeys(job, run[0].tables.rows)
    ensures forall c :: c in run[|run| - 1].tables.rows ==>
      c in run[0].tables.rows && run[|run| - 1].tables.rows[c] == run[0].tables.rows[c]
    decreases |run|
  {
    hide BatchStep, MissingKeys;
    if |run| > 1 {
      var n := |run| - 1;
      assert run[..n][|run[..n]| - 1] == run[n - 1];
      RecordsMissing(job, size, run[..n]);
      assert BatchStep(job, size, run[n - 1], run[n - 1 + 1]);
      StepRecordsMissing(job, size, run[0].tables.rows, run[n - 1], run[n]);
    }
  }

  lemma StepRecordsMissing(job: Job, size: nat, rows: map<Ctid, Row>, s: State, after: State)
    requires BatchStep(job, size, s, after) && s.counts.Keys <= MissingKeys(job, rows)
    requires forall c :: c in s.tables.rows ==> c in rows && s.tables.rows[c] == rows[c]
    ensures after.counts.Keys <= MissingKeys(job, rows)
    ensures forall c :: c in after.tables.rows ==> c in rows && after.tables.rows[c] == rows[c]
  {
    hide HasTarget, Live, Justified, IsBatch, KeyOf, Content, RowsAt;
    var picked, moved :| IsBatch(job, size, s, picked) && Handled(job, s, after, picked, moved);
    forall k | k in after.counts && k !in s.counts
      ensures k in MissingKeys(job, rows)
    {
      var c :| c in picked && c in s.tables.rows && Readable(job, s.tables.rows[c]) && KeyOf(job, s.tables.rows[c]) == k;
      assert KeyOf(job, rows[c]) in KeysIn(job, rows, rows.Keys);
    }
  }

  lemma RecordedFit(job: Job, size: nat, run: seq<State>)
    requires IsRun(job, size, run) && run != [] && run[0].counts == map[]
    requires ReadParams(job, |MissingKeys(job, run[0].tables.rows)|) <= PARAM_LIMIT
    ensures ReadParams(job, |run[|run| - 1].counts|) <= PARAM_LIMIT
  {
    hide IsRun, MissingKeys;
    RecordsMissing(job, size, run);
    SubsetSize(run[|run| - 1].counts.Keys, MissingKeys(job, run[0].tables.rows));
  }

  /** When nothing is left to read, all of them are recorded. */
  lemma DryRecordsAll(job: Job, before: Tables, s: State)
    requires s.counts.Keys == KeysIn(job, s.tables.rows, s.tables.rows.Keys) && RoutedAll(job, before, s.tables)
    ensures s.counts.Keys == MissingKeys(job, before.rows)
  {
    hide HasTarget, KeyOf, Content, RowsAt;
    forall k | k in MissingKeys(job, before.rows)
      ensures k in s.counts
    {
      var c :| c in before.rows && Readable(job, before.rows[c]) && KeyOf(job, before.rows[c]) == k;
      assert c in s.tables.rows && s.tables.rows[c] == before.rows[c];
    }
    forall k | k in s.counts
      ensures k in MissingKeys(job, before.rows)
    {
      var c :| c in s.tables.rows && Readable(job, s.tables.rows[c]) && KeyOf(job, s.tables.rows[c]) == k;
      assert c in before.rows && s.tables.rows[c] == before.rows[c];
      assert k in KeysIn(job, before.rows, before.rows.Keys);
    }
  }

  /* ----- termination ----- */

  /** The least `size` rows of a pool, or all of it. */
  lemma {:induction false} LeastOf(s: State, pool: set<Ctid>, size: nat) returns (picked: set<Ctid>)
    requires forall c :: c in pool ==> c in s.tables.rows && !s.tables.rows[c].control.Null?
    ensures picked <= pool && |picked| == Min(size, |pool|)
    ensures forall c, e :: c in picked && e in pool - picked ==> Precedes(s, c, e)
    decreases size
  {
    picked := {};
    if size > 0 {
      picked := LeastOf(s, pool, size - 1);
      var rest := pool - picked;
      SubsetSize(picked, pool);
      if rest != {} {
        var c := LeastControl(s, rest);
        picked := picked + {c};
      } else {
        assert picked == pool;
      }
    }
  }

  lemma LiveHasControl(job: Job, s: State)
    ensures forall c :: c in Live(job, s) ==>
      c in s.tables.rows && !s.tables.rows[c].control.Null? && Readable(job, s.tables.rows[c])
  {
  }

  lemma {:induction false} LeastControl(s: State, cs: set<Ctid>) returns (c: Ctid)
    requires cs != {} && forall e :: e in cs ==> e in s.tables.rows && !s.tables.rows[e].control.Null?
    ensures c in cs && forall e :: e in cs ==> Precedes(s, c, e)
    decreases |cs|
  {
    var first :| first in cs;
    var rest := cs - {first};
    c := first;
    if rest != {} {
      var e := LeastControl(s, rest);
      if !Precedes(s, first, e) {
        c := e;
      }
    }
    forall e | e in cs
      ensures Precedes(s, c, e)
    {
      assert e == first || e in rest;
    }
  }

  ghost function TargetName(job: Job, k: GroupKey): string
    requires HasTarget(job, k)
  {
    var r :| r in job.meta && IsTarget(job, k, r);
    r.name
  }

  /** The tables once some rows are delivered. */
  ghost function Deliver(t: Tables, moved: map<Ctid, string>): Tables
    requires moved.Keys <= t.rows.Keys
  {
    Tables(t.rows - moved.Keys,
           map name | name in t.children.Keys + moved.Values :: Content(t, name) + RowsAt(t.rows, Sent(moved, name)))
  }

  lemma DeliverDelivers(t: Tables, moved: map<Ctid, string>)
    requires moved.Keys <= t.rows.Keys
    ensures Delivered(t, Deliver(t, moved), moved)
  {
    forall name
      ensures Content(Deliver(t, moved), name) == Content(t, name) + RowsAt(t.rows, Sent(moved, name))
    {
      if name !in t.children.Keys + moved.Values {
        assert Sent(moved, name) == {} by {
          forall c | c in moved ensures moved[c] != name {
            assert moved[c] in moved.Values;
          }
        }
      }
    }
  }

  /** The targets a batch may choose. */
  ghost function Choose(job: Job, rows: map<Ctid, Row>, picked: set<Ctid>): (moved: map<Ctid, string>)
    ensures moved.Keys == Movable(job, rows, picked)
  {
    map c | c in Movable(job, rows, picked) :: TargetName(job, KeyOf(job, rows[c]))
  }

  lemma ChoiceIsJustified(job: Job, rows: map<Ctid, Row>, picked: set<Ctid>)
    requires forall c :: c in picked && c in rows ==> !Refused(job, rows[c])
    ensures Justified(job, rows, Choose(job, rows, picked))
  {
    var moved := Choose(job, rows, picked);
    forall c | c in moved
      ensures exists r :: r in job.meta && IsTarget(job, KeyOf(job, rows[c]), r) && r.name == moved[c]
    {
      NamedTarget(job, KeyOf(job, rows[c]));
    }
  }

  /** As long as rows are left to read, a batch the server does not refuse leads
      on. */
  lemma StepExists(job: Job, size: nat, s: State, picked: set<Ctid>) returns (after: State)
    requires Live(job, s) != {} && IsBatch(job, size, s, picked)
    requires forall c :: c in picked && c in s.tables.rows ==> !Refused(job, s.tables.rows[c])
    ensures BatchStep(job, size, s, after)
  {
    hide Live, RowsAt, IsBatch, Readable, HasTarget, Content, Choose, Movable, Delivered, Justified, Deliver,
      NewCount, Refused;
    var rows := s.tables.rows;
    var moved := Choose(job, rows, picked);
    var missing := set k | k in KeysIn(job, rows, picked) && !HasTarget(job, k);
    var counts := map k | k in s.counts.Keys + missing :: CountOf(s.counts, k) + NewCount(job, rows, picked, k);
    ChoiceIsJustified(job, rows, picked);
    assert moved.Keys <= rows.Keys by { MovableAreRows(job, rows, picked); }
    DeliverDelivers(s.tables, moved);
    after := State(Deliver(s.tables, moved), counts);
    assert Handled(job, s, after, picked, moved);
  }

  lemma MovableAreRows(job: Job, rows: map<Ctid, Row>, picked: set<Ctid>)
    ensures Movable(job, rows, picked) <= rows.Keys
  {
  }

  lemma NamedTarget(job: Job, k: GroupKey)
    requires HasTarget(job, k)
    ensures exists r :: r in job.meta && IsTarget(job, k, r) && r.name == TargetName(job, k)
  {
  }

  /** The rows whose move the server refuses. */
  function Refusals(job: Job, rows: map<Ctid, Row>): set<Ctid> { set c | c in rows && Refused(job, rows[c]) }

  /** The stuck rows that a read may put before every refused one. */
  function StuckFirst(job: Job, rows: map<Ctid, Row>): set<Ctid> {
    set c | c in rows && Stuck(job, rows[c])
            && forall e :: e in Refusals(job, rows) ==> NotAfter(rows[c].control, rows[e].control)
  }

  /** Stuck rows can fill batch after batch: any stuck row, when no move would
      be refused and end the call; otherwise enough of them to keep the refused
      rows out of a batch. */
  predicate Endless(job: Job, size: nat, rows: map<Ctid, Row>) {
    StuckFirst(job, rows) != {} && (Refusals(job, rows) == {} || |StuckFirst(job, rows)| >= size)
  }

  /** No batch takes a stuck or refused row away. */
  lemma StepKeepsStuck(job: Job, s: State, after: State, picked: set<Ctid>, moved: map<Ctid, string>)
    requires Handled(job, s, after, picked, moved)
    ensures after.tables.rows.Keys <= s.tables.rows.Keys
    ensures forall c :: c in after.tables.rows ==> after.tables.rows[c] == s.tables.rows[c]
    ensures forall c :: c in s.tables.rows && (Stuck(job, s.tables.rows[c]) || Refused(job, s.tables.rows[c])) ==>
      c in after.tables.rows
  {
    hide HasTarget, KeyOf;
    var rows, left := s.tables.rows, after.tables.rows;
    forall c | c in rows && (Stuck(job, rows[c]) || Refused(job, rows[c]))
      ensures c in left
    {
      if c in moved {
        MovedHasTarget(job, rows, moved, c);
      }
    }
  }

  lemma {:induction false} RunKeepsStuck(job: Job, size: nat, run: seq<State>)
    requires IsRun(job, size, run)
    ensures var rows, left := run[0].tables.rows, run[|run| - 1].tables.rows;
      && left.Keys <= rows.Keys && (forall c :: c in left ==> left[c] == rows[c])
      && (forall c :: c in rows && (Stuck(job, rows[c]) || Refused(job, rows[c])) ==> c in left)
    decreases |run|
  {
    hide Handled, IsBatch, Stuck, Refused;
    var n := |run| - 1;
    if n > 0 {
      RunKeepsStuck(job, size, run[..n]);
      assert BatchStep(job, size, run[n - 1], run[n - 1 + 1]);
      var picked, moved :| IsBatch(job, size, run[n - 1], picked) && Handled(job, run[n - 1], run[n], picked, moved);
      StepKeepsStuck(job, run[n - 1], run[n], picked, moved);
    }
  }

  /** So whether batches go on without end does not change with the batches. */
  lemma SameStuck(job: Job, rows: map<Ctid, Row>, left: map<Ctid, Row>)
    requires left.Keys <= rows.Keys && forall c :: c in left ==> left[c] == rows[c]
    requires forall c :: c in rows && (Stuck(job, rows[c]) || Refused(job, rows[c])) ==> c in left
    ensures Refusals(job, left) == Refusals(job, rows) && StuckFirst(job, left) == StuckFirst(job, rows)
  {
    hide Stuck, Refused;
    assert Refusals(job, left) == Refusals(job, rows);
  }

  /** A run that reads until nothing is left had no stuck and no refused row. */
  lemma DryMeansNoneStuck(job: Job, size: nat, run: seq<State>)
    requires IsRun(job, size, run) && Live(job, run[|run| - 1]) == {}
    ensures NoneStuck(job, run[0].tables.rows) && Refusals(job, run[0].tables.rows) == {}
  {
    RunKeepsStuck(job, size, run);
    hide Stuck, Refused, IsRun, Live;
    var rows, s := run[0].tables.rows, run[|run| - 1];
    forall c | c in rows
      ensures !Stuck(job, rows[c]) && !Refused(job, rows[c])
    {
      if Stuck(job, rows[c]) || Refused(job, rows[c]) {
        NeverExcludedIsLive(job, s, c);
      }
    }
  }

  lemma NeverExcludedIsLive(job: Job, s: State, c: Ctid)
    requires c in s.tables.rows && (Stuck(job, s.tables.rows[c]) || Refused(job, s.tables.rows[c]))
    ensures c in Live(job, s)
  {
    forall k
      ensures !Covers(job, k, s.tables.rows[c])
    {
      StuckNeverExcluded(job, k, s.tables.rows[c]);
    }
  }

  /** Refused rows are read again by every batch. */
  lemma RefusedStayLive(job: Job, s: State)
    ensures Refusals(job, s.tables.rows) <= Live(job, s)
  {
    forall c | c in Refusals(job, s.tables.rows)
      ensures c in Live(job, s)
    {
      NeverExcludedIsLive(job, s, c);
    }
  }

  /* ----- runs without end ----- */

  /** A batch that avoids the refused rows. */
  lemma AvoidingBatch(job: Job, size: nat, s: State) returns (picked: set<Ctid>)
    requires Endless(job, size, s.tables.rows) && StuckFirst(job, s.tables.rows) <= Live(job, s)
    ensures IsBatch(job, size, s, picked)
    ensures forall c :: c in picked && c in s.tables.rows ==> !Refused(job, s.tables.rows[c])
  {
    hide Stuck, Refused, Live, StuckFirst, Refusals, Precedes;
    var rows, live := s.tables.rows, Live(job, s);
    var refused, first := Refusals(job, rows), StuckFirst(job, rows);
    LiveHasControl(job, s);
    RefusedStayLive(job, s);
    var pool := live - refused;
    picked := LeastOf(s, pool, size);
    PickedNotRefused(job, rows);
    if refused == {} {
      assert pool == live;
    } else {
      FirstNotRefused(job, rows);
      SubsetSize(first, pool);
      SubsetSize(pool, live);
      forall c, e | c in picked && e in live - picked
        ensures Precedes(s, c, e)
      {
        if e in refused {
          PickedComesFirst(job, s, picked, c, e);
        }
      }
    }
  }

  lemma PickedNotRefused(job: Job, rows: map<Ctid, Row>)
    ensures forall c :: c in rows && Refused(job, rows[c]) ==> c in Refusals(job, rows)
  {
    hide Refused;
  }

  lemma FirstNotRefused(job: Job, rows: map<Ctid, Row>)
    ensures forall c :: c in StuckFirst(job, rows) ==> c !in Refusals(job, rows)
  {
    hide Stuck, Refused;
    forall c | c in StuckFirst(job, rows) ensures c !in Refusals(job, rows) {
      FirstIsStuck(job, rows, c);
      StuckNotRefused(job, rows, c);
    }
  }

  /** What is picked among the rows that are not refused comes before a refused
      one, when stuck rows that do are enough to fill the batch. */
  lemma PickedComesFirst(job: Job, s: State, picked: set<Ctid>, c: Ctid, e: Ctid)
    requires c in picked && c in s.tables.rows && e in Refusals(job, s.tables.rows)
    requires |picked| <= |StuckFirst(job, s.tables.rows)|
    requires forall b :: b in StuckFirst(job, s.tables.rows) && b !in picked ==> Precedes(s, c, b)
    ensures Precedes(s, c, e)
  {
    hide Stuck, Refused, StuckFirst;
    var rows, first := s.tables.rows, StuckFirst(job, s.tables.rows);
    if c !in first {
      var b := NotPicked(first, picked, c);
      FirstIsStuck(job, rows, b);
      ComesBefore(s, c, b, e);
    } else {
      FirstIsStuck(job, rows, c);
    }
  }

  lemma FirstIsStuck(job: Job, rows: map<Ctid, Row>, c: Ctid)
    requires c in StuckFirst(job, rows)
    ensures c in rows && Stuck(job, rows[c])
    ensures forall e :: e in Refusals(job, rows) ==> NotAfter(rows[c].control, rows[e].control)
  {
    hide Stuck, Refused;
  }

  lemma ComesBefore(s: State, c: Ctid, b: Ctid, e: Ctid)
    requires c in s.tables.rows && b in s.tables.rows && e in s.tables.rows && Precedes(s, c, b) && Precedes(s, b, e)
    ensures Precedes(s, c, e)
  {
  }

  lemma StuckNotRefused(job: Job, rows: map<Ctid, Row>, c: Ctid)
    requires c in rows && Stuck(job, rows[c])
    ensures c !in Refusals(job, rows)
  {
    hide HasTarget;
  }

  /** A set as large as another that holds a stranger leaves an element out. */
  lemma NotPicked(first: set<Ctid>, picked: set<Ctid>, c: Ctid) returns (b: Ctid)
    requires |picked| <= |first| && c in picked && c !in first
    ensures b in first && b !in picked
  {
    if first <= picked {
      SubsetSize(first, picked - {c});
    }
    b :| b in first && b !in picked;
  }

  /** Then there are runs of any number of batches. */
  lemma {:induction false} RunsOn(job: Job, size: nat, s: State, n: nat) returns (run: seq<State>)
    requires Endless(job, size, s.tables.rows)
    ensures IsRun(job, size, run) && run[0] == s && |run| == n + 1
    decreases n
  {
    hide Live, BatchStep, Stuck, IsBatch, Refused, StuckFirst, Refusals;
    if n == 0 {
      run := [s];
    } else {
      var front := RunsOn(job, size, s, n - 1);
      var last := front[n - 1];
      RunKeepsStuck(job, size, front);
      SameStuck(job, s.tables.rows, last.tables.rows);
      StuckFirstLive(job, last);
      var picked := AvoidingBatch(job, size, last);
      var after := StepExists(job, size, last, picked);
      run := front + [after];
      forall i | 0 <= i < |run| - 1
        ensures BatchStep(job, size, run[i], run[i + 1])
      {
        if i < n - 1 {
          assert BatchStep(job, size, front[i], front[i + 1]);
        }
      }
    }
  }

  lemma StuckFirstLive(job: Job, s: State)
    ensures StuckFirst(job, s.tables.rows) <= Live(job, s)
  {
    forall c | c in StuckFirst(job, s.tables.rows)
      ensures c in Live(job, s)
    {
      NeverExcludedIsLive(job, s, c);
    }
  }

  /* ----- runs that end ----- */

  /** The rows to be read that are not stuck. */
  function Moving(job: Job, s: State): set<Ctid> { set c | c in Live(job, s) && !Stuck(job, s.tables.rows[c]) }

  /** Nothing new is read after a batch, and of what it picked only stuck rows are
      read again. */
  lemma PickedLeave(job: Job, size: nat, s: State, after: State, picked: set<Ctid>, moved: map<Ctid, string>)
    requires Tiling(job.grid) && IsBatch(job, size, s, picked) && Handled(job, s, after, picked, moved)
    ensures Live(job, after) <= Live(job, s)
    ensures Moving(job, after) <= Moving(job, s) - picked
  {
    var rows := s.tables.rows;
    forall c | c in Live(job, after)
      ensures c in Live(job, s) && (c in picked ==> Stuck(job, rows[c]))
    {
      assert Selected(job, s.counts.Keys, rows[c]);
      if c in picked {
        var k := KeyOf(job, rows[c]);
        assert k in KeysIn(job, rows, picked);
        assert !HasTarget(job, k);
        assert k in after.counts.Keys;
        if !NeverExcluded(job, rows[c]) {
          ExclusionIsGroup(job, rows[c], rows[c]);
        }
      }
    }
  }

  /** A batch of stuck rows only comes before every refused row. */
  lemma AllStuckIsFirst(job: Job, size: nat, s: State, picked: set<Ctid>)
    requires IsBatch(job, size, s, picked)
    requires forall c :: c in picked ==> c in s.tables.rows && Stuck(job, s.tables.rows[c])
    ensures picked <= StuckFirst(job, s.tables.rows)
    ensures Refusals(job, s.tables.rows) <= Live(job, s) - picked
  {
    hide Stuck, Refused, Selected;
    RefusedStayLive(job, s);
    forall c | c in picked
      ensures c !in Refusals(job, s.tables.rows)
    {
      StuckNotRefused(job, s.tables.rows, c);
    }
    var rows, refused := s.tables.rows, Refusals(job, s.tables.rows);
    assert refused <= Live(job, s) - picked;
    hide Refusals, Live;
    forall c | c in picked
      ensures c in StuckFirst(job, rows)
    {
      forall e | e in refused
        ensures e in rows && NotAfter(rows[c].control, rows[e].control)
      {
        assert Precedes(s, c, e);
      }
    }
  }

  /** When stuck rows can fill one batch they can fill all. */
  lemma AllStuckIsEndless(job: Job, size: nat, s: State, picked: set<Ctid>)
    requires size >= 1 && Live(job, s) != {} && IsBatch(job, size, s, picked)
    requires forall c :: c in picked ==> c in s.tables.rows && Stuck(job, s.tables.rows[c])
    ensures Endless(job, size, s.tables.rows)
  {
    AllStuckIsFirst(job, size, s, picked);
    hide Stuck, StuckFirst, Refusals, Live;
    var live, first, refused := Live(job, s), StuckFirst(job, s.tables.rows), Refusals(job, s.tables.rows);
    assert |live| > 0;
    SubsetSize(picked, first);
    assert |picked| > 0;
    if refused != {} {
      var r :| r in refused;
      SubsetSize(picked, live - {r});
    }
  }

  /** When stuck rows cannot fill the batches, every batch that the server takes
      has a row that is not stuck. */
  lemma PicksMoving(job: Job, size: nat, s: State, picked: set<Ctid>)
    requires size >= 1 && !Endless(job, size, s.tables.rows) && Live(job, s) != {}
    requires IsBatch(job, size, s, picked) && picked <= s.tables.rows.Keys
    ensures picked * Moving(job, s) != {}
  {
    hide Stuck, Endless, Live;
    if !(exists c :: c in picked && !Stuck(job, s.tables.rows[c])) {
      AllStuckIsEndless(job, size, s, picked);
    } else {
      var c :| c in picked && !Stuck(job, s.tables.rows[c]);
      assert c in picked * Moving(job, s);
    }
  }

  /** Each batch then takes off at least one of the rows that move. */
  lemma StepMoves(job: Job, size: nat, s: State, after: State)
    requires Tiling(job.grid) && size >= 1 && !Endless(job, size, s.tables.rows) && BatchStep(job, size, s, after)
    ensures |Moving(job, after)| < |Moving(job, s)|
    ensures !Endless(job, size, after.tables.rows)
  {
    hide Live, Stuck, StuckFirst, Refusals;
    var picked, moved :| IsBatch(job, size, s, picked) && Handled(job, s, after, picked, moved);
    NoneRefused(job, s, after, picked, moved) by { LiveHasControl(job, s); }
    PicksMoving(job, size, s, picked);
    PickedLeave(job, size, s, after, picked, moved);
    StepKeepsStuck(job, s, after, picked, moved);
    SameStuck(job, s.tables.rows, after.tables.rows);
    var c :| c in picked * Moving(job, s);
    hide Moving;
    SubsetSize(Moving(job, after), Moving(job, s) - {c});
  }

  /** A batch that went through had no refused row. */
  lemma NoneRefused(job: Job, s: State, after: State, picked: set<Ctid>, moved: map<Ctid, string>)
    requires Handled(job, s, after, picked, moved) && picked <= s.tables.rows.Keys
    ensures forall c :: c in picked ==> c in s.tables.rows && !Refused(job, s.tables.rows[c])
  {
    hide HasTarget, Delivered;
    forall c | c in picked
      ensures !Refused(job, s.tables.rows[c])
    {
      assert Refused(job, s.tables.rows[c]) ==> c in Movable(job, s.tables.rows, picked);
    }
  }

  lemma {:induction false} RunEnds(job: Job, size: nat, run: seq<State>)
    requires Tiling(job.grid) && size >= 1 && IsRun(job, size, run) && !Endless(job, size, run[0].tables.rows)
    ensures |Moving(job, run[|run| - 1])| + |run| - 1 <= |Moving(job, run[0])|
    ensures !Endless(job, size, run[|run| - 1].tables.rows)
    decreases |run|
  {
    hide Moving, BatchStep, Endless;
    var n := |run| - 1;
    if n > 0 {
      RunEnds(job, size, run[..n]);
      assert BatchStep(job, size, run[n - 1], run[n - 1 + 1]);
      StepMoves(job, size, run[n - 1], run[n]);
    }
  }

  ghost predicate BoundedBy(job: Job, size: nat, s: State, n: nat) {
    forall run :: IsRun(job, size, run) && run[0] == s ==> |run| <= n
  }

  /** The batches of a drain from `s` are bounded. */
  ghost predicate Bounded(job: Job, size: nat, s: State) { exists n: nat :: BoundedBy(job, size, s, n) }

  /** Every unlimited drain ends exactly when stuck rows cannot fill its batches:
      then it has no more batches than there are rows that move, and otherwise
      it may have any number. */
  lemma BatchesBoundedIff(job: Job, size: nat, s: State)
    requires Tiling(job.grid) && size >= 1
    ensures Bounded(job, size, s) <==> !Endless(job, size, s.tables.rows)
  {
    hide Endless, Moving, BatchStep;
    if !Endless(job, size, s.tables.rows) {
      forall run | IsRun(job, size, run) && run[0] == s
        ensures |run| <= |Moving(job, s)| + 1
      {
        RunEnds(job, size, run);
      }
      assert BoundedBy(job, size, s, |Moving(job, s)| + 1);
    } else {
      forall n: nat
        ensures !BoundedBy(job, size, s, n)
      {
        var run := RunsOn(job, size, s, n);
      }
    }
  }

  /** Without refused rows the condition is that no row is stuck. */
  lemma EndlessWhenStuck(job: Job, size: nat, rows: map<Ctid, Row>)
    ensures NoneStuck(job, rows) ==> !Endless(job, size, rows)
    ensures Refusals(job, rows) == {} ==> (Endless(job, size, rows) <==> !NoneStuck(job, rows))
  {
    hide Stuck, Refused;
    if !NoneStuck(job, rows) {
      var c :| c in rows && Stuck(job, rows[c]);
      assert Refusals(job, rows) == {} ==> c in StuckFirst(job, rows);
    }
  }

  /** One row with the control value `infinity`, without a partition for the
      year 1: it is stuck, whatever its tenant. */
  lemma InfinityIsEndless(job: Job, size: nat, c: Ctid, payload: string)
    requires job.meta == [] && job.filter.None?
    ensures Endless(job, size, map[c := Row(Infinity, None, payload)])
  {
    var rows := map[c := Row(Infinity, None, payload)];
    assert Stuck(job, rows[c]);
    assert Refusals(job, rows) == {};
    assert c in StuckFirst(job, rows);
  }

  /** Every readable row has a target. */
  predicate AllTargeted(job: Job, rows: map<Ctid, Row>) {
    forall c :: c in rows && Readable(job, rows[c]) ==> HasTarget(job, KeyOf(job, rows[c]))
  }

  /** When every readable row has a target, each batch but the last is full. */
  lemma {:induction false} FullBatches(job: Job, size: nat, run: seq<State>)
    requires size >= 1 && IsRun(job, size, run) && run[0].counts == map[]
    requires AllTargeted(job, run[0].tables.rows)
    ensures var s, n := run[|run| - 1], |run| - 1;
      && s.counts == map[] && AllTargeted(job, s.tables.rows)
      && |Live(job, s)| == if n * size < |Live(job, run[0])| then |Live(job, run[0])| - n * size else 0
    decreases |run|
  {
    hide Live, BatchStep, AllTargeted;
    var n := |run| - 1;
    if n > 0 {
      FullBatches(job, size, run[..n]);
      assert BatchStep(job, size, run[n - 1], run[n - 1 + 1]);
      FullStep(job, size, run[n - 1], run[n]);
      StepReads(job, size, run[n - 1], run[n]);
      assert |Live(job, run[n - 1])| > 0;
      assert n * size == (n - 1) * size + size;
    }
  }

  lemma FullStep(job: Job, size: nat, s: State, after: State)
    requires BatchStep(job, size, s, after) && s.counts == map[] && AllTargeted(job, s.tables.rows)
    ensures after.counts == map[]
    ensures AllTargeted(job, after.tables.rows)
    ensures |Live(job, after)| == |Live(job, s)| - Min(size, |Live(job, s)|)
  {
    hide HasTarget;
    var picked, moved :| IsBatch(job, size, s, picked) && Handled(job, s, after, picked, moved);
    assert after.counts.Keys == {};
    assert moved.Keys == picked;
    assert Live(job, after) == Live(job, s) - picked;
    SubsetSize(picked, Live(job, s));
  }

  /** A complete run with all targets present takes exactly N / size batches,
      rounded up. */
  lemma FullRunLength(job: Job, size: nat, run: seq<State>)
    requires size >= 1 && IsRun(job, size, run) && run[0].counts == map[] && Live(job, run[|run| - 1]) == {}
    requires AllTargeted(job, run[0].tables.rows)
    ensures |run| - 1 == (|Live(job, run[0])| + size - 1) / size
  {
    hide Live, BatchStep, AllTargeted;
    var n, total := |run| - 1, |Live(job, run[0])|;
    FullBatches(job, size, run);
    assert n * size >= total;
    if n > 0 {
      FullBatches(job, size, run[..n]);
      assert BatchStep(job, size, run[n - 1], run[n - 1 + 1]);
      StepReads(job, size, run[n - 1], run[n]);
      assert |Live(job, run[n - 1])| > 0;
      assert (n - 1) * size < total;
      assert (total + size - 1) / size == n by {
        DivBetween(total + size - 1, size, n);
      }
    } else {
      assert total == 0;
      DivBetween(size - 1, size, 0);
    }
  }

  lemma DivBetween(x: nat, d: nat, q: nat)
    requires d >= 1 && q * d <= x < q * d + d
    ensures x / d == q
  {
    var p := x / d;
    assert x == p * d + x % d;
    if p < q {
      ProductOrder(p + 1, q, d);
    } else if p > q {
      ProductOrder(q + 1, p, d);
    }
  }

  lemma ProductOrder(a: nat, b: nat, d: nat)
    requires a <= b
    ensures a * d <= b * d
  {
  }

  /* ----- conservation ----- */

  /** All rows of some children. */
  ghost function SumContents(t: Tables, names: set<string>): multiset<Row> {
    if names == {} then multiset{}
    else
      var name :| name in names;
      Content(t, name) + SumContents(t, names - {name})
  }

  lemma {:induction false} SumWithout(t: Tables, names: set<string>, name: string)
    requires name in names
    ensures SumContents(t, names) == Content(t, name) + SumContents(t, names - {name})
    decreases |names|
  {
    var other :| other in names && SumContents(t, names) == Content(t, other) + SumContents(t, names - {other});
    if other != name {
      SumWithout(t, names - {other}, name);
      SumWithout(t, names - {name}, other);
      assert names - {other} - {name} == names - {name} - {other};
    }
  }

  /** The rows sent to some children. */
  function SentTo(moved: map<Ctid, string>, names: set<string>): set<Ctid> {
    set c | c in moved && moved[c] in names
  }

  lemma SentToSplit(moved: map<Ctid, string>, names: set<string>, name: string)
    requires name in names
    ensures SentTo(moved, names) == Sent(moved, name) + SentTo(moved, names - {name})
    ensures Sent(moved, name) !! SentTo(moved, names - {name})
    ensures SentTo(moved, names) <= moved.Keys
  {
  }

  lemma {:induction false} SumAfter(before: Tables, after: Tables, moved: map<Ctid, string>, names: set<string>)
    requires Delivered(before, after, moved) && SentTo(moved, names) <= before.rows.Keys
    ensures SumContents(after, names) == SumContents(before, names) + RowsAt(before.rows, SentTo(moved, names))
    decreases |names|
  {
    if names == {} {
      assert SentTo(moved, names) == {};
    } else {
      hide *;
      var name :| name in names;
      SumWithout(before, names, name);
      SumWithout(after, names, name);
      SentToSplit(moved, names, name);
      SumAfter(before, after, moved, names - {name});
      RowsAtUnion(before.rows, Sent(moved, name), SentTo(moved, names - {name}));
      assert Content(after, name) == Content(before, name) + RowsAt(before.rows, Sent(moved, name));
      Regroup(Content(before, name), RowsAt(before.rows, Sent(moved, name)),
              SumContents(before, names - {name}), RowsAt(before.rows, SentTo(moved, names - {name})));
    }
  }

  lemma Regroup<T>(a: multiset<T>, b: multiset<T>, c: multiset<T>, d: multiset<T>)
    ensures (a + b) + (c + d) == (a + c) + (b + d)
  {
  }

  lemma SentToAll(moved: map<Ctid, string>, names: set<string>)
    requires moved.Values <= names
    ensures SentTo(moved, names) == moved.Keys
  {
    forall c | c in moved ensures moved[c] in names {
      assert moved[c] in moved.Values;
    }
  }

  /** The default shrinks by the number of rows moved. */
  lemma DefaultShrinks(before: Tables, after: Tables, moved: map<Ctid, string>)
    requires Delivered(before, after, moved)
    ensures |after.rows| == |before.rows| - |moved|
  {
    hide Content, RowsAt;
    SubsetSize(moved.Keys, before.rows.Keys);
    assert after.rows.Keys == before.rows.Keys - moved.Keys;
    assert |before.rows| == |before.rows.Keys| && |after.rows| == |after.rows.Keys| && |moved| == |moved.Keys|;
  }

  /** No row is lost or duplicated: the default partition and the children hold
      the same rows before and after. */
  lemma RowsConserved(before: Tables, after: Tables, moved: map<Ctid, string>, names: set<string>)
    requires Delivered(before, after, moved) && moved.Values <= names
    ensures RowsAt(after.rows, after.rows.Keys) + SumContents(after, names)
         == RowsAt(before.rows, before.rows.Keys) + SumContents(before, names)
  {
    hide Content, RowsAt, SumContents;
    SentToAll(moved, names);
    SumAfter(before, after, moved, names);
    assert before.rows.Keys == after.rows.Keys + moved.Keys;
    RowsAtUnion(before.rows, after.rows.Keys, moved.Keys);
    RowsAtAgree(after.rows, before.rows, after.rows.Keys);
    Regroup(RowsAt(before.rows, after.rows.Keys), multiset{}, SumContents(before, names), RowsAt(before.rows, moved.Keys));
  }
}
