/** The advisory lock of a parent: session-scoped and re-entrant, taken on
    pooled connections by any number of maintainers and drains. */
module Locks {

  type Proc = nat
  type Conn = nat

  /** What the lock functions are called with: hashtext of schema and table. */
  type Key = (int, int)

  datatype ParentRef = ParentRef(schema: string, table: string)

  /** Any hash at all; parents may share a key. */
  type Hash = ParentRef -> Key

  /** Where a caller is.  `lost` records that its session ended under it. */
  datatype Place =
    | Connected(conn: Conn, parent: ParentRef)
    | Inside(conn: Conn, parent: ParentRef, lost: bool)

  /** The server's lock table, counting re-entrant grants; the callers that
      hold a connection; and, for the proofs, the grants nobody will undo. */
  datatype State = State(held: map<(Conn, Key), nat>, procs: map<Proc, Place>, leaked: map<(Conn, Key), nat>)

  const NO_LOCKS := State(map[], map[], map[])

  function Count(m: map<(Conn, Key), nat>, c: Conn, k: Key): nat { if (c, k) in m then m[(c, k)] else 0 }

  function Add(m: map<(Conn, Key), nat>, c: Conn, k: Key): map<(Conn, Key), nat> { m[(c, k) := Count(m, c, k) + 1] }

  function Remove(m: map<(Conn, Key), nat>, c: Conn, k: Key): map<(Conn, Key), nat> {
    m[(c, k) := if Count(m, c, k) > 0 then Count(m, c, k) - 1 else 0]
  }

  /** A session's end gives up all its locks. */
  function EndSession(m: map<(Conn, Key), nat>, c: Conn): map<(Conn, Key), nat> {
    map x | x in m && x.0 != c :: m[x]
  }

  datatype Step =
    | Acquire(proc: Proc, conn: Conn, parent: ParentRef)
    | TryGranted(proc: Proc)
    | TryRefused(proc: Proc)
    | TryFails(proc: Proc, granted: bool)
    | UnlockSucceeds(proc: Proc)
    | UnlockFails(proc: Proc)
    | IdleSessionEnds(conn: Conn)
    | SessionLost(proc: Proc)

  predicate InUse(s: State, c: Conn) { exists q :: q in s.procs && s.procs[q].conn == c }

  /** Another session holds the key. */
  predicate HeldElsewhere(s: State, c: Conn, k: Key) {
    exists x :: x in s.held && x.0 != c && x.1 == k && s.held[x] > 0
  }

  predicate IsConnected(s: State, q: Proc) { q in s.procs && s.procs[q].Connected? }

  predicate IsInside(s: State, q: Proc) { q in s.procs && s.procs[q].Inside? }

  function KeyOf(h: Hash, s: State, q: Proc): Key
    requires q in s.procs
  {
    h(s.procs[q].parent)
  }

  predicate Enabled(h: Hash, s: State, x: Step) {
    match x
    case Acquire(q, c, _) => q !in s.procs && !InUse(s, c)
    case TryGranted(q) => IsConnected(s, q) && !HeldElsewhere(s, s.procs[q].conn, KeyOf(h, s, q))
    case TryRefused(q) => IsConnected(s, q) && HeldElsewhere(s, s.procs[q].conn, KeyOf(h, s, q))
    case TryFails(q, granted) =>
      IsConnected(s, q) && (granted ==> !HeldElsewhere(s, s.procs[q].conn, KeyOf(h, s, q)))
    case UnlockSucceeds(q) => IsInside(s, q) && !s.procs[q].lost
    case UnlockFails(q) => IsInside(s, q)
    case IdleSessionEnds(c) => !InUse(s, c)
    case SessionLost(q) => IsInside(s, q)
  }

  function Apply(h: Hash, s: State, x: Step): State
    requires Enabled(h, s, x)
  {
    match x
    case Acquire(q, c, p) => s.(procs := s.procs[q := Connected(c, p)])
    case TryGranted(q) =>
      var c := s.procs[q].conn;
      s.(held := Add(s.held, c, KeyOf(h, s, q)), procs := s.procs[q := Inside(c, s.procs[q].parent, false)])
    case TryRefused(q) => s.(procs := s.procs - {q})
    case TryFails(q, granted) =>
      var c, k := s.procs[q].conn, KeyOf(h, s, q);
      State(if granted then Add(s.held, c, k) else s.held, s.procs - {q}, if granted then Add(s.leaked, c, k) else s.leaked)
    case UnlockSucceeds(q) =>
      s.(held := Remove(s.held, s.procs[q].conn, KeyOf(h, s, q)), procs := s.procs - {q})
    case UnlockFails(q) =>
      s.(procs := s.procs - {q},
         leaked := if s.procs[q].lost then s.leaked else Add(s.leaked, s.procs[q].conn, KeyOf(h, s, q)))
    case IdleSessionEnds(c) => s.(held := EndSession(s.held, c), leaked := EndSession(s.leaked, c))
    case SessionLost(q) =>
      var c := s.procs[q].conn;
      State(EndSession(s.held, c), s.procs[q := s.procs[q].(lost := true)], EndSession(s.leaked, c))
  }

  /** Whether some caller is inside with that session and key, its session
      alive. */
  predicate OwnedBy(h: Hash, s: State, q: Proc, c: Conn, k: Key) {
    IsInside(s, q) && !s.procs[q].lost && s.procs[q].conn == c && KeyOf(h, s, q) == k
  }

  predicate Owned(h: Hash, s: State, c: Conn, k: Key) { exists q :: q in s.procs && OwnedBy(h, s, q, c, k) }

  predicate ConnsUnshared(s: State) {
    forall p, q :: p in s.procs && q in s.procs && p != q ==> s.procs[p].conn != s.procs[q].conn
  }

  ghost predicate KeysExclusive(s: State) {
    forall c, d, k :: Count(s.held, c, k) > 0 && Count(s.held, d, k) > 0 ==> c == d
  }

  /** The server's count of one session and key. */
  predicate Accounted(h: Hash, s: State, c: Conn, k: Key) {
    Count(s.held, c, k) == Count(s.leaked, c, k) + if Owned(h, s, c, k) then 1 else 0
  }

  /** Connections are not shared; a key is held by one session at a time; and
      the server counts exactly the callers inside and the leaked grants. */
  ghost predicate Inv(h: Hash, s: State) {
    ConnsUnshared(s) && KeysExclusive(s) && forall c, k :: Accounted(h, s, c, k)
  }

  ghost predicate IsRun(h: Hash, steps: seq<Step>, states: seq<State>) {
    && |states| == |steps| + 1 && states[0] == NO_LOCKS
    && forall i :: 0 <= i < |steps| ==> Enabled(h, states[i], steps[i]) && states[i + 1] == Apply(h, states[i], steps[i])
  }

  lemma NotElsewhere(s: State, c: Conn, k: Key)
    ensures HeldElsewhere(s, c, k) <==> exists d :: d != c && Count(s.held, d, k) > 0
  {
    if HeldElsewhere(s, c, k) {
      var x :| x in s.held && x.0 != c && x.1 == k && s.held[x] > 0;
      assert Count(s.held, x.0, k) > 0;
    }
    if exists d :: d != c && Count(s.held, d, k) > 0 {
      var d :| d != c && Count(s.held, d, k) > 0;
      assert (d, k) in s.held;
    }
  }

  /** The caller a step is about. */
  function Actor(x: Step): Proc {
    match x
    case Acquire(q, _, _) => q
    case TryGranted(q) => q
    case TryRefused(q) => q
    case TryFails(q, _) => q
    case UnlockSucceeds(q) => q
    case UnlockFails(q) => q
    case IdleSessionEnds(_) => 0
    case SessionLost(q) => q
  }

  /** The session a step is about. */
  function Session(s: State, x: Step): Conn {
    match x
    case Acquire(_, c, _) => c
    case IdleSessionEnds(c) => c
    case _ => if Actor(x) in s.procs then s.procs[Actor(x)].conn else 0
  }

  /** A session belongs to its one caller only. */
  lemma OwnSession(h: Hash, s: State, q: Proc, k: Key)
    requires ConnsUnshared(s) && q in s.procs
    ensures Owned(h, s, s.procs[q].conn, k) <==> OwnedBy(h, s, q, s.procs[q].conn, k)
  {
  }

  lemma UnusedSession(h: Hash, s: State, c: Conn, k: Key)
    requires !InUse(s, c)
    ensures !Owned(h, s, c, k)
  {
  }

  lemma ConnsStayUnshared(h: Hash, s: State, x: Step)
    requires ConnsUnshared(s) && Enabled(h, s, x)
    ensures ConnsUnshared(Apply(h, s, x))
  {
    hide Add, Remove, EndSession, HeldElsewhere;
  }

  /** Other sessions do not notice a step. */
  lemma OthersUnchanged(h: Hash, s: State, x: Step, c: Conn, k: Key)
    requires ConnsUnshared(s) && Enabled(h, s, x) && c != Session(s, x)
    ensures var after := Apply(h, s, x);
      && Count(after.held, c, k) == Count(s.held, c, k) && Count(after.leaked, c, k) == Count(s.leaked, c, k)
      && (Owned(h, after, c, k) <==> Owned(h, s, c, k))
  {
    hide HeldElsewhere, InUse, ConnsUnshared;
    var after := Apply(h, s, x);
    if Owned(h, s, c, k) {
      var q :| q in s.procs && OwnedBy(h, s, q, c, k);
      assert OwnedBy(h, after, q, c, k);
    }
    if Owned(h, after, c, k) {
      var q :| q in after.procs && OwnedBy(h, after, q, c, k);
      assert OwnedBy(h, s, q, c, k);
    }
  }

  /** A step keeps the account of its own session. */
  lemma OwnAccount(h: Hash, s: State, x: Step, k: Key)
    requires Inv(h, s) && Enabled(h, s, x)
    ensures Accounted(h, Apply(h, s, x), Session(s, x), k)
  {
    hide HeldElsewhere, KeysExclusive, ConnsUnshared;
    var after, c, q := Apply(h, s, x), Session(s, x), Actor(x);
    assert Accounted(h, s, c, k);
    ConnsStayUnshared(h, s, x);
    match x
    case Acquire(_, _, _) => UnusedSession(h, s, c, k); OwnSession(h, after, q, k);
    case TryGranted(_) => OwnSession(h, s, q, k); OwnSession(h, after, q, k);
    case IdleSessionEnds(_) => UnusedSession(h, s, c, k); UnusedSession(h, after, c, k);
    case SessionLost(_) => OwnSession(h, after, q, k);
    case _ =>
      OwnSession(h, s, q, k);
      Departed(s, after, q);
      UnusedSession(h, after, c, k);
  }

  lemma Departed(s: State, after: State, q: Proc)
    requires ConnsUnshared(s) && q in s.procs && after.procs == s.procs - {q}
    ensures !InUse(after, s.procs[q].conn)
  {
  }

  /** Only a grant adds to a session's count, and only if no other session has
      the key. */
  lemma GrantNeedsFreeKey(h: Hash, s: State, x: Step, k: Key)
    requires Enabled(h, s, x) && HeldElsewhere(s, Session(s, x), k)
    ensures Count(Apply(h, s, x).held, Session(s, x), k) <= Count(s.held, Session(s, x), k)
  {
    hide HeldElsewhere, InUse;
  }

  /** While another session holds a key, the session of a step does not. */
  lemma OwnHoldsNothing(h: Hash, s: State, x: Step, d: Conn, k: Key)
    requires KeysExclusive(s) && Enabled(h, s, x) && d != Session(s, x) && Count(s.held, d, k) > 0
    ensures Count(Apply(h, s, x).held, Session(s, x), k) == 0
  {
    hide Apply, Enabled, HeldElsewhere;
    NotElsewhere(s, Session(s, x), k);
    GrantNeedsFreeKey(h, s, x, k);
    assert Count(s.held, Session(s, x), k) == 0;
  }

  lemma KeysStayExclusive(h: Hash, s: State, x: Step)
    requires Inv(h, s) && Enabled(h, s, x)
    ensures KeysExclusive(Apply(h, s, x))
  {
    hide Apply, Enabled, Accounted, Owned, ConnsUnshared, Count, Session;
    var after, own := Apply(h, s, x), Session(s, x);
    forall c, d, k | Count(after.held, c, k) > 0 && Count(after.held, d, k) > 0
      ensures c == d
    {
      if c == own && d != own {
        OthersUnchanged(h, s, x, d, k);
        OwnHoldsNothing(h, s, x, d, k);
      } else if c != own && d == own {
        OthersUnchanged(h, s, x, c, k);
        OwnHoldsNothing(h, s, x, c, k);
      } else if c != own && d != own {
        OthersUnchanged(h, s, x, c, k);
        OthersUnchanged(h, s, x, d, k);
      }
    }
  }

  lemma StepKeepsInv(h: Hash, s: State, x: Step)
    requires Inv(h, s) && Enabled(h, s, x)
    ensures Inv(h, Apply(h, s, x))
  {
    hide Enabled, Apply, KeysExclusive, ConnsUnshared, Accounted;
    ConnsStayUnshared(h, s, x);
    KeysStayExclusive(h, s, x);
    forall c, k
      ensures Accounted(h, Apply(h, s, x), c, k)
    {
      assert Accounted(h, s, c, k);
      if c == Session(s, x) {
        OwnAccount(h, s, x, k);
      } else {
        OthersUnchanged(h, s, x, c, k);
        SameAccount(h, s, Apply(h, s, x), c, k);
      }
    }
  }

  lemma SameAccount(h: Hash, s: State, after: State, c: Conn, k: Key)
    requires Accounted(h, s, c, k) && Count(after.held, c, k) == Count(s.held, c, k)
    requires Count(after.leaked, c, k) == Count(s.leaked, c, k) && (Owned(h, after, c, k) <==> Owned(h, s, c, k))
    ensures Accounted(h, after, c, k)
  {
  }

  lemma {:induction false} RunKeepsInv(h: Hash, steps: seq<Step>, states: seq<State>, i: nat)
    requires IsRun(h, steps, states) && i < |states|
    ensures Inv(h, states[i])
    decreases i
  {
    if i == 0 {
      assert forall c, k :: Accounted(h, NO_LOCKS, c, k);
    } else {
      hide Enabled, Apply, Inv;
      RunKeepsInv(h, steps, states, i - 1);
      StepKeepsInv(h, states[i - 1], steps[i - 1]);
      assert states[i - 1 + 1] == Apply(h, states[i - 1], steps[i - 1]);
    }
  }

  /* ----- mutual exclusion ----- */

  /** For any number of callers and any hash, in every run with failing queries,
      failing unlocks and leaked locks: of two callers inside for one key, one
      has lost its session. */
  lemma MutualExclusion(h: Hash, steps: seq<Step>, states: seq<State>, i: nat, p: Proc, q: Proc)
    requires IsRun(h, steps, states) && i < |states|
    requires IsInside(states[i], p) && IsInside(states[i], q) && p != q
    requires KeyOf(h, states[i], p) == KeyOf(h, states[i], q)
    ensures states[i].procs[p].lost || states[i].procs[q].lost
  {
    var s := states[i];
    RunKeepsInv(h, steps, states, i);
    var k := KeyOf(h, s, p);
    InsideHolds(h, s, p);
    InsideHolds(h, s, q);
  }

  /** A caller inside with a live session holds its key. */
  lemma InsideHolds(h: Hash, s: State, q: Proc)
    requires Inv(h, s) && IsInside(s, q)
    ensures !s.procs[q].lost ==> Count(s.held, s.procs[q].conn, KeyOf(h, s, q)) > 0
  {
    if !s.procs[q].lost {
      var c, k := s.procs[q].conn, KeyOf(h, s, q);
      assert OwnedBy(h, s, q, c, k) && Accounted(h, s, c, k);
    }
  }

  /** While a caller is inside, another one can be granted the same key exactly
      when no leaked grant of another session is in its way and the caller
      inside has lost its session. */
  lemma EntryIff(h: Hash, s: State, p: Proc, q: Proc)
    requires Inv(h, s) && IsInside(s, p) && IsConnected(s, q) && KeyOf(h, s, p) == KeyOf(h, s, q)
    requires forall r :: IsInside(s, r) && KeyOf(h, s, r) == KeyOf(h, s, p) ==> r == p
    requires forall c :: Count(s.leaked, c, KeyOf(h, s, p)) > 0 ==> c == s.procs[q].conn
    ensures Enabled(h, s, TryGranted(q)) <==> s.procs[p].lost
  {
    hide HeldElsewhere;
    var c, d, k := s.procs[p].conn, s.procs[q].conn, KeyOf(h, s, p);
    NotElsewhere(s, d, k);
    if s.procs[p].lost {
      forall e | e != d
        ensures Count(s.held, e, k) == 0
      {
        assert Accounted(h, s, e, k);
      }
    } else {
      InsideHolds(h, s, p);
    }
  }

  /** A caller is refused exactly when another one is inside for the key with its
      session alive, or a grant of another session was left behind; otherwise it is
      granted the key. */
  lemma RefusedIff(h: Hash, steps: seq<Step>, states: seq<State>, i: nat, q: Proc)
    requires IsRun(h, steps, states) && i < |states| && IsConnected(states[i], q)
    ensures var s := states[i];
      && (Enabled(h, s, TryRefused(q)) <==>
            (exists p :: IsInside(s, p) && !s.procs[p].lost && KeyOf(h, s, p) == KeyOf(h, s, q))
            || exists c :: c != s.procs[q].conn && Count(s.leaked, c, KeyOf(h, s, q)) > 0)
      && (Enabled(h, s, TryGranted(q)) <==> !Enabled(h, s, TryRefused(q)))
      && (Enabled(h, s, TryFails(q, true)) <==> Enabled(h, s, TryGranted(q))) && Enabled(h, s, TryFails(q, false))
  {
    RunKeepsInv(h, steps, states, i);
    var s := states[i];
    var d, k := s.procs[q].conn, KeyOf(h, s, q);
    hide HeldElsewhere, IsRun, Count, KeysExclusive;
    NotElsewhere(s, d, k);
    if HeldElsewhere(s, d, k) {
      var c :| c != d && Count(s.held, c, k) > 0;
      assert Accounted(h, s, c, k);
    }
    if exists p :: IsInside(s, p) && !s.procs[p].lost && KeyOf(h, s, p) == k {
      var p :| IsInside(s, p) && !s.procs[p].lost && KeyOf(h, s, p) == k;
      assert OwnedBy(h, s, p, s.procs[p].conn, k);
      assert Accounted(h, s, s.procs[p].conn, k);
    }
    if exists c :: c != d && Count(s.leaked, c, k) > 0 {
      var c :| c != d && Count(s.leaked, c, k) > 0;
      assert Accounted(h, s, c, k);
    }
  }

  /** Two callers inside for one parent: the first one's session ends while it
      is at work. */
  lemma LostSessionAdmitsAnother(h: Hash, parent: ParentRef) returns (steps: seq<Step>, states: seq<State>)
    ensures IsRun(h, steps, states)
    ensures var s := states[|steps|];
      IsInside(s, 0) && IsInside(s, 1) && s.procs[0].parent == s.procs[1].parent == parent
  {
    steps, states := [], [NO_LOCKS];
    steps, states := Extend(h, steps, states, Acquire(0, 0, parent));
    steps, states := Extend(h, steps, states, TryGranted(0));
    steps, states := Extend(h, steps, states, SessionLost(0));
    steps, states := Extend(h, steps, states, Acquire(1, 1, parent));
    steps, states := Extend(h, steps, states, TryGranted(1));
  }

  lemma Extend(h: Hash, steps: seq<Step>, states: seq<State>, x: Step) returns (longer: seq<Step>, more: seq<State>)
    requires IsRun(h, steps, states) && Enabled(h, states[|steps|], x)
    ensures IsRun(h, longer, more) && |longer| == |steps| + 1 && more[|longer|] == Apply(h, states[|steps|], x)
  {
    longer, more := steps + [x], states + [Apply(h, states[|steps|], x)];
  }

  /* ----- leaks ----- */

  /** A step after which a grant is left behind. */
  predicate Leaks(s: State, x: Step) {
    || (x.TryFails? && x.granted)
    || (x.UnlockFails? && x.proc in s.procs && s.procs[x.proc].Inside? && !s.procs[x.proc].lost)
  }

  predicate NeverLeaks(steps: seq<Step>, states: seq<State>)
    requires |states| == |steps| + 1
  {
    forall i :: 0 <= i < |steps| ==> !Leaks(states[i], steps[i])
  }

  /** When no unlock fails and no granted reply is lost, the lock of a key is
      held exactly while a caller with a live session is inside. */
  lemma {:induction false} NoLeaksNoLocks(h: Hash, steps: seq<Step>, states: seq<State>, i: nat, c: Conn, k: Key)
    requires IsRun(h, steps, states) && i < |states| && NeverLeaks(steps, states)
    ensures states[i].leaked == map[] && (Count(states[i].held, c, k) > 0 <==> Owned(h, states[i], c, k))
    decreases i
  {
    RunKeepsInv(h, steps, states, i);
    assert Accounted(h, states[i], c, k);
    hide Inv, Accounted, Owned, InUse, HeldElsewhere;
    if i > 0 {
      NoLeaksNoLocks(h, steps, states, i - 1, c, k);
      assert states[i - 1 + 1] == Apply(h, states[i - 1], steps[i - 1]);
      assert !Leaks(states[i - 1], steps[i - 1]);
    }
  }

  /** The session of a step ends. */
  predicate EndsSession(s: State, x: Step, c: Conn) { (x.IdleSessionEnds? || x.SessionLost?) && Session(s, x) == c }

  /** A leaked grant stays until its session ends, however often the key is
      locked and unlocked on that session again, and until then no other session
      is granted the key. */
  lemma {:induction false} LeakLasts(h: Hash, steps: seq<Step>, states: seq<State>, i: nat, j: nat, c: Conn, k: Key)
    requires IsRun(h, steps, states) && i <= j < |states| && Count(states[i].leaked, c, k) > 0
    requires forall n :: i <= n < j ==> !EndsSession(states[n], steps[n], c)
    ensures Count(states[j].leaked, c, k) >= Count(states[i].leaked, c, k)
    ensures forall q :: IsConnected(states[j], q) && states[j].procs[q].conn != c && KeyOf(h, states[j], q) == k ==>
      !Enabled(h, states[j], TryGranted(q))
    decreases j
  {
    hide Owned, InUse, HeldElsewhere;
    if i < j {
      LeakLasts(h, steps, states, i, j - 1, c, k);
      assert states[j - 1 + 1] == Apply(h, states[j - 1], steps[j - 1]);
      assert !EndsSession(states[j - 1], steps[j - 1], c);
    }
    RunKeepsInv(h, steps, states, j);
    assert Accounted(h, states[j], c, k);
    forall q | IsConnected(states[j], q) && states[j].procs[q].conn != c && KeyOf(h, states[j], q) == k
      ensures HeldElsewhere(states[j], states[j].procs[q].conn, k)
    {
      NotElsewhere(states[j], states[j].procs[q].conn, k);
    }
  }

  /** A call whose context ends before its deferred unlock: nobody is inside any
      more, and its session, back in the pool, still holds the key. */
  lemma EndedContextLeaks(h: Hash, parent: ParentRef) returns (steps: seq<Step>, states: seq<State>)
    ensures IsRun(h, steps, states) && states[|steps|].procs == map[]
    ensures Count(states[|steps|].leaked, 0, h(parent)) == Count(states[|steps|].held, 0, h(parent)) == 1
  {
    steps, states := [], [NO_LOCKS];
    steps, states := Extend(h, steps, states, Acquire(0, 0, parent));
    steps, states := Extend(h, steps, states, TryGranted(0));
    steps, states := Extend(h, steps, states, UnlockFails(0));
  }

  /** After such a call, in every run, whoever asks for the key on another session
      is refused, until the session that is back in the pool ends. */
  lemma LeakShutsOut(h: Hash, steps: seq<Step>, states: seq<State>, i: nat, j: nat, q: Proc, p: Proc)
    requires IsRun(h, steps, states) && i < j < |states| && steps[i] == UnlockFails(q) && !states[i].procs[q].lost
    requires forall n :: i < n < j ==> !EndsSession(states[n], steps[n], states[i].procs[q].conn)
    requires IsConnected(states[j], p) && KeyOf(h, states[j], p) == KeyOf(h, states[i], q)
    requires states[j].procs[p].conn != states[i].procs[q].conn
    ensures !Enabled(h, states[j], TryGranted(p)) && Enabled(h, states[j], TryRefused(p))
  {
    var c, k := states[i].procs[q].conn, KeyOf(h, states[i], q);
    assert states[i + 1] == Apply(h, states[i], steps[i]);
    LeakLasts(h, steps, states, i + 1, j, c, k);
  }

  /* ----- one process ----- */

  /** The grants of the advisory lock over all calls of one process, the deferred
      unlocks that have run, and the grants that they have left behind. */
  class Locker {
    var grants: nat
    var unlocks: nat
    var leaks: nat

    constructor ()
      ensures grants == unlocks == leaks == 0
    {
      grants, unlocks, leaks := 0, 0, 0;
    }

    method Grant()
      modifies this
      ensures grants == old(grants) + 1 && unlocks == old(unlocks) && leaks == old(leaks)
    {
      grants := grants + 1;
    }

    /** The deferred unlock, for a lock that was granted.  It is sent with the
        context of the call: when that is over, nothing is sent, and the grant goes
        back to the pool with its session, if that is alive. */
    method Unlock(contextOver: bool, sessionLives: bool) returns (ok: bool)
      requires unlocks < grants
      modifies this
      ensures unlocks == old(unlocks) + 1 && grants == old(grants) && ok == (!contextOver && sessionLives)
      ensures leaks == old(leaks) + if contextOver && sessionLives then 1 else 0
    {
      unlocks := unlocks + 1;
      ok := !contextOver && sessionLives;
      if contextOver && sessionLives {
        leaks := leaks + 1;
      }
    }
  }
}
