/** Running a transaction again while it fails for a passing reason. */
module Retry {
  import opened Wrappers

  /** What one attempt does.  A failed transaction changes nothing. */
  datatype Attempt = Commits | FailsTransiently | FailsForGood

  datatype RetryError = GaveUp | Fatal | Cancelled

  /** The attempts of ADR-0010's default policy. */
  const DEFAULT_ATTEMPTS := 5

  /** Attempt `n` is reached when all before it failed transiently and no
      backoff was interrupted. */
  predicate Reaches(attempt: nat -> Attempt, cancelled: nat -> bool, n: nat) {
    forall j :: 1 <= j < n ==> attempt(j) == FailsTransiently && !cancelled(j)
  }

  /** Do: succeeds exactly when some attempt within the limit is reached and
      commits; the transaction then committed once, and otherwise not at all. */
  method Do(maxAttempts: int, attempt: nat -> Attempt, cancelled: nat -> bool)
    returns (err: Option<RetryError>, calls: nat, commits: nat)
    ensures var limit := if maxAttempts <= 0 then 1 else maxAttempts;
      && 1 <= calls <= limit && Reaches(attempt, cancelled, calls)
      && (err.None? <==> exists n :: 1 <= n <= limit && Reaches(attempt, cancelled, n) && attempt(n) == Commits)
      && (err == Some(Fatal) <==> attempt(calls) == FailsForGood)
      && (err == Some(GaveUp) <==> calls == limit && attempt(calls) == FailsTransiently)
      && (err == Some(Cancelled) <==> calls < limit && attempt(calls) == FailsTransiently)
      && (err.None? <==> attempt(calls) == Commits) && (err == Some(Cancelled) ==> cancelled(calls))
    ensures commits == if err.None? then 1 else 0
  {
    var limit := if maxAttempts <= 0 then 1 else maxAttempts;
    commits := 0;
    calls := 0;
    while calls < limit
      invariant 0 <= calls <= limit && commits == 0
      invariant calls < limit ==> Reaches(attempt, cancelled, calls + 1)
      invariant calls > 0 ==> Reaches(attempt, cancelled, calls)
      invariant calls > 0 ==> attempt(calls) == FailsTransiently
      invariant forall j :: 1 <= j <= calls ==> attempt(j) != Commits
    {
      calls := calls + 1;
      match attempt(calls) {
        case Commits =>
          commits := 1;
          return None, calls, commits;
        case FailsForGood =>
          return Some(Fatal), calls, commits;
        case FailsTransiently =>
          if calls == limit {
            break;
          }
          if cancelled(calls) {
            return Some(Cancelled), calls, commits;
          }
      }
    }
    err := Some(GaveUp);
  }

  /* ----- transactions under retry ----- */

  /** The default policy lets a transaction through: some attempt is reached
      and commits. */
  predicate GoesThrough(attempt: nat -> Attempt, cancelled: nat -> bool) {
    exists n :: 1 <= n <= DEFAULT_ATTEMPTS && Reaches(attempt, cancelled, n) && attempt(n) == Commits
  }

  /** Runs a transaction whose statements the server accepts or not.  It is begun
      again only after a passing failure and an undisturbed backoff, five times
      at most, and takes effect exactly when the server accepts it and one of
      these attempts commits. */
  method RunTx(accepted: bool, attempt: nat -> Attempt, cancelled: nat -> bool)
    returns (err: Option<RetryError>, calls: nat)
    ensures err.None? <==> accepted && GoesThrough(attempt, cancelled)
    ensures 1 <= calls <= 5 && forall j :: 1 <= j < calls ==> attempt(j) == FailsTransiently && !cancelled(j)
    ensures err == match attempt(calls)
      case Commits => if accepted then None else Some(Fatal)
      case FailsForGood => Some(Fatal)
      case FailsTransiently => Some(if calls == 5 then GaveUp else Cancelled)
    ensures err == Some(Cancelled) ==> cancelled(calls)
  {
    var commits;
    err, calls, commits := Do(DEFAULT_ATTEMPTS, Outcome(accepted, attempt), cancelled);
    RejectionIsFinal(accepted, attempt, cancelled);
    var last := Outcome(accepted, attempt)(calls);
    assert last == if attempt(calls) == Commits && !accepted then FailsForGood else attempt(calls);
  }

  /** What an attempt comes to when the server accepts the statements or not. */
  function Outcome(accepted: bool, attempt: nat -> Attempt): nat -> Attempt {
    (n: nat) => if attempt(n) == Commits && !accepted then FailsForGood else attempt(n)
  }

  lemma RejectionIsFinal(accepted: bool, attempt: nat -> Attempt, cancelled: nat -> bool)
    ensures forall n: nat :: Reaches(Outcome(accepted, attempt), cancelled, n) <==> Reaches(attempt, cancelled, n)
  {
    var outcome := Outcome(accepted, attempt);
    forall n: nat
      ensures Reaches(outcome, cancelled, n) <==> Reaches(attempt, cancelled, n)
    {
      assert forall j: nat {:trigger attempt(j)} :: outcome(j) == FailsTransiently <==> attempt(j) == FailsTransiently;
      assert forall j: nat {:trigger outcome(j)} :: outcome(j) == FailsTransiently <==> attempt(j) == FailsTransiently;
    }
  }

  /** The default policy tries five times. */
  lemma FiveAttempts(attempt: nat -> Attempt, cancelled: nat -> bool)
    ensures GoesThrough(attempt, cancelled) <==>
      exists n: nat :: 1 <= n <= 5 && attempt(n) == Commits
                       && forall j: nat :: 1 <= j < n ==> attempt(j) == FailsTransiently && !cancelled(j)
  {
    if GoesThrough(attempt, cancelled) {
      var n :| 1 <= n <= DEFAULT_ATTEMPTS && Reaches(attempt, cancelled, n) && attempt(n) == Commits;
      assert 1 <= n <= 5 && attempt(n) == Commits;
    }
    if n: nat :| 1 <= n <= 5 && attempt(n) == Commits
                 && forall j: nat :: 1 <= j < n ==> attempt(j) == FailsTransiently && !cancelled(j) {
      assert Reaches(attempt, cancelled, n);
    }
  }

  /* ----- backoff ----- */

  const TWO_63: int := 0x8000_0000_0000_0000
  const TWO_64: int := 0x1_0000_0000_0000_0000

  /** The value of a 64-bit product or shift. */
  function Wrap64(x: int): int { (x + TWO_63) % TWO_64 - TWO_63 }

  /** A policy's delays, in nanoseconds. */
  datatype Policy = Policy(baseDelay: int, maxDelay: int, jitter: real)

  const DEFAULT_POLICY := Policy(100_000_000, 2_000_000_000, 0.2)

  function Pow2(n: nat): nat { if n == 0 then 1 else 2 * Pow2(n - 1) }

  function Shift(attempt: int): nat {
    if attempt < 1 then 0 else if attempt > 31 then 30 else attempt - 1
  }

  /** The delay before jitter: doubled with every attempt, in 64 bits, and
      capped. */
  function Backoff(p: Policy, attempt: int): int {
    var d := Wrap64(p.baseDelay * Pow2(Shift(attempt)));
    if p.baseDelay <= 0 then 0
    else if p.maxDelay > 0 && d > p.maxDelay then p.maxDelay
    else d
  }

  /** Conversion of a float to an integer, towards zero. */
  function Truncate(x: real): int { if x >= 0.0 then x.Floor else -(-x).Floor }

  /** A product of reals. */
  function Times(x: real, y: real): real { x * y }

  /** The sleep after an attempt; `u` is the random number, from 0 to 1. */
  function Delay(p: Policy, attempt: int, u: real): int {
    var d := Backoff(p, attempt);
    if p.baseDelay > 0 && p.jitter > 0.0 then d + Truncate(Times(Times(u, p.jitter), d as real)) else d
  }

  lemma {:induction false} Pow2Grows(a: nat, b: nat)
    requires a <= b
    ensures 1 <= Pow2(a) <= Pow2(b)
    decreases b
  {
    if a < b {
      Pow2Grows(a, b - 1);
    } else if a > 0 {
      Pow2Grows(a - 1, a - 1);
    }
  }

  lemma Scale(x: nat, a: nat, b: nat)
    requires a <= b
    ensures x * a <= x * b
  {
  }

  /** Doubling a number below 2^63 reaches the sign bit without passing it. */
  lemma {:induction false} SignBit(base: nat, n: nat) returns (s: nat)
    requires 0 < base < TWO_63 && base * Pow2(n) >= TWO_63
    ensures s <= n && TWO_63 <= base * Pow2(s) < TWO_64
    decreases n
  {
    assert base * Pow2(0) == base;
    if base * Pow2(n - 1) >= TWO_63 {
      s := SignBit(base, n - 1);
    } else {
      s := n;
      assert base * Pow2(n) == 2 * (base * Pow2(n - 1));
    }
  }

  /** Below 2^33 the shift fits its 64 bits. */
  lemma ShiftFits(base: int, n: nat)
    requires 0 < base < 0x2_0000_0000 && n <= 30
    ensures 0 < base * Pow2(n) < TWO_63 && Wrap64(base * Pow2(n)) == base * Pow2(n)
  {
    PowerOfThirty();
    Pow2Grows(0, n);
    Pow2Grows(n, 30);
    Scale(base, 1, Pow2(n));
    Scale(base, Pow2(n), Pow2(30));
  }

  lemma PowerOfThirty()
    ensures Pow2(30) == 0x4000_0000
  {
    assert Pow2(10) == 1024;
    assert Pow2(20) == 1048576;
  }

  /** Every backoff is positive exactly when the base delay is below 2^33
      nanoseconds, about 8.6 seconds: from there on some attempt's shift reaches
      the sign bit, and the cap does not catch it.  All calls of the program
      pass the default policy, far below. */
  lemma BackoffPositiveIff(p: Policy)
    requires 0 < p.baseDelay < TWO_63
    ensures (forall attempt :: Backoff(p, attempt) > 0) <==> p.baseDelay < 0x2_0000_0000
  {
    if p.baseDelay < 0x2_0000_0000 {
      forall attempt
        ensures Backoff(p, attempt) > 0
      {
        ShiftFits(p.baseDelay, Shift(attempt));
      }
    } else {
      PowerOfThirty();
      Scale(0x4000_0000, 0x2_0000_0000, p.baseDelay);
      var s := SignBit(p.baseDelay, 30);
      assert Shift(s + 1) == s;
      assert Backoff(p, s + 1) <= 0;
    }
  }

  /** The backoff never shrinks with the attempts, and reaches its largest value
      at the last shift. */
  lemma BackoffGrows(p: Policy, attempt: int)
    requires 0 < p.baseDelay < 0x2_0000_0000
    ensures 0 < Backoff(p, attempt) <= Backoff(p, 31)
    ensures p.maxDelay > 0 ==> Backoff(p, 31) <= p.maxDelay
  {
    var n := Shift(attempt);
    ShiftFits(p.baseDelay, n);
    ShiftFits(p.baseDelay, 30);
    Pow2Grows(n, 30);
    Scale(p.baseDelay, Pow2(n), Pow2(30));
    hide Wrap64, Pow2;
  }

  /** Numbers that no attempt has count as the first or the last. */
  lemma BackoffClamped(p: Policy, attempt: int)
    ensures attempt <= 1 ==> Backoff(p, attempt) == Backoff(p, 1)
    ensures attempt >= 31 ==> Backoff(p, attempt) == Backoff(p, 31)
    ensures Backoff(p, 1) == if p.baseDelay <= 0 then 0
                             else if p.maxDelay > 0 && Wrap64(p.baseDelay) > p.maxDelay then p.maxDelay
                             else Wrap64(p.baseDelay)
  {
  }

  lemma TruncatesTowardsZero(x: real)
    ensures x >= 0.0 ==> x - 1.0 < Truncate(x) as real <= x
    ensures x <= 0.0 ==> x <= Truncate(x) as real < x + 1.0
  {
  }

  /* ----- jitter ----- */

  /** The jittered delay, in terms of the backoff. */
  lemma DelayIs(p: Policy, attempt: int, u: real)
    requires 0 < p.baseDelay < 0x2_0000_0000 && 0.0 <= u < 1.0 && p.jitter >= 0.0
    ensures var b := Backoff(p, attempt);
      0.0 <= Times(u, Times(p.jitter, b as real)) && Delay(p, attempt, u) == b + Times(u, Times(p.jitter, b as real)).Floor
  {
    BackoffGrows(p, attempt);
    hide Backoff, Times;
    var b := Backoff(p, attempt) as real;
    Regroup(u, p.jitter, b);
    Product(p.jitter, b);
    Product(u, Times(p.jitter, b));
  }

  lemma Regroup(x: real, y: real, z: real)
    ensures Times(Times(x, y), z) == Times(x, Times(y, z))
  {
  }

  lemma Product(x: real, y: real)
    requires x >= 0.0 && y >= 0.0
    ensures Times(x, y) >= 0.0 && (x == 0.0 ==> Times(x, y) == 0.0)
  {
  }

  /** A share of an amount. */
  lemma Share(u: real, x: real)
    requires 0.0 <= u < 1.0 && x >= 0.0
    ensures 0.0 <= Times(u, x) <= x && (x > 0.0 ==> Times(u, x) < x)
  {
    if x > 0.0 {
      assert (1.0 - u) * x > 0.0;
      assert (1.0 - u) * x == x - u * x;
    }
  }

  lemma Larger(x: real, a: real, b: real)
    requires x >= 0.0 && a <= b
    ensures Times(x, a) <= Times(x, b)
  {
    assert x * (b - a) >= 0.0;
    assert x * (b - a) == x * b - x * a;
  }

  /** Jitter only adds, up to its share of the delay. */
  lemma DelayWithinJitter(p: Policy, attempt: int, u: real)
    requires 0 < p.baseDelay < 0x2_0000_0000 && 0.0 <= u < 1.0 && p.jitter >= 0.0
    ensures Backoff(p, attempt) <= Delay(p, attempt, u)
    ensures (Delay(p, attempt, u) - Backoff(p, attempt)) as real <= Times(p.jitter, Backoff(p, attempt) as real)
  {
    BackoffGrows(p, attempt);
    DelayIs(p, attempt, u);
    hide Backoff, Delay, Times;
    var b := Backoff(p, attempt) as real;
    Product(p.jitter, b);
    Share(u, Times(p.jitter, b));
  }

  /** The largest backoff leaves room for its jitter below the cap. */
  predicate HasRoom(p: Policy) {
    Times(p.jitter, Backoff(p, 31) as real) <= (p.maxDelay - Backoff(p, 31) + 1) as real
  }

  /** Every delay stays under the cap exactly when the largest backoff leaves
      room for its jitter. */
  lemma DelayUnderCapIff(p: Policy)
    requires 0 < p.baseDelay < 0x2_0000_0000 && p.maxDelay > 0 && p.jitter >= 0.0
    ensures (forall attempt: int, u: real :: 0.0 <= u < 1.0 ==> Delay(p, attempt, u) <= p.maxDelay) <==> HasRoom(p)
  {
    hide Backoff, Delay, HasRoom;
    if HasRoom(p) {
      forall attempt: int, u: real | 0.0 <= u < 1.0
        ensures Delay(p, attempt, u) <= p.maxDelay
      {
        StaysUnderCap(p, attempt, u);
      }
    } else {
      var u := ExceedsCap(p);
      assert Delay(p, 31, u) > p.maxDelay;
    }
  }

  lemma StaysUnderCap(p: Policy, attempt: int, u: real)
    requires 0 < p.baseDelay < 0x2_0000_0000 && p.maxDelay > 0 && p.jitter >= 0.0 && 0.0 <= u < 1.0 && HasRoom(p)
    ensures Delay(p, attempt, u) <= p.maxDelay
  {
    BackoffGrows(p, attempt);
    DelayIs(p, attempt, u);
    hide Backoff, Delay, Times;
    var d, b := Backoff(p, attempt), Backoff(p, 31);
    Larger(p.jitter, d as real, b as real);
    Product(p.jitter, d as real);
    Share(u, Times(p.jitter, d as real));
    BelowRoom(Times(p.jitter, d as real), Times(u, Times(p.jitter, d as real)), p.maxDelay - d);
  }

  lemma BelowRoom(x: real, y: real, room: int)
    requires 0.0 <= y <= x && (x > 0.0 ==> y < x) && x <= (room + 1) as real && room >= 0
    ensures y.Floor <= room
  {
  }

  /** Without that room, a random number close to one exceeds the cap. */
  lemma ExceedsCap(p: Policy) returns (u: real)
    requires 0 < p.baseDelay < 0x2_0000_0000 && p.maxDelay > 0 && p.jitter >= 0.0 && !HasRoom(p)
    ensures 0.0 <= u < 1.0 && Delay(p, 31, u) > p.maxDelay
  {
    BackoffGrows(p, 31);
    hide Backoff, Delay, Times;
    var b := Backoff(p, 31);
    u := Quotient((p.maxDelay - b + 1) as real, Times(p.jitter, b as real));
    DelayIs(p, 31, u);
  }

  lemma Quotient(a: real, b: real) returns (u: real)
    requires 0.0 < a < b
    ensures 0.0 < u < 1.0 && Times(u, b) == a
  {
    u := a / b;
    assert u * b == a;
    if u >= 1.0 {
      Larger(b, 1.0, u);
    } else if u <= 0.0 {
      Larger(b, u, 0.0);
    }
  }

  /** Doubling as the default policy does, with one attempt more than its five:
      the sixth backoff is the first that reaches the cap of two seconds, and
      its jitter goes beyond it. */
  lemma CapIsExceeded(u: real)
    requires 0.0 <= u < 1.0
    ensures Delay(DEFAULT_POLICY, 6, u) == 2_000_000_000 + (u * 400_000_000.0).Floor
    ensures u == 0.5 ==> Delay(DEFAULT_POLICY, 6, u) > DEFAULT_POLICY.maxDelay
  {
    assert Pow2(5) == 32;
    DelayIs(DEFAULT_POLICY, 6, u);
  }

  /** The four sleeps of a call under the default policy: 100, 200, 400 and 800
      milliseconds and up to a fifth of that more; 1.8 seconds in all at most, and
      none as long as the cap. */
  lemma DefaultSleeps(u: real, v: real, x: real, y: real)
    requires 0.0 <= u < 1.0 && 0.0 <= v < 1.0 && 0.0 <= x < 1.0 && 0.0 <= y < 1.0
    ensures var p := DEFAULT_POLICY;
      && Delay(p, 1, u) == 100_000_000 + (u * 20_000_000.0).Floor
      && Delay(p, 2, v) == 200_000_000 + (v * 40_000_000.0).Floor
      && Delay(p, 3, x) == 400_000_000 + (x * 80_000_000.0).Floor
      && Delay(p, 4, y) == 800_000_000 + (y * 160_000_000.0).Floor
      && Delay(p, 1, u) + Delay(p, 2, v) + Delay(p, 3, x) + Delay(p, 4, y) <= 1_800_000_000
      && Delay(p, 4, y) < p.maxDelay
  {
    DefaultDelay(1, u);
    DefaultDelay(2, v);
    DefaultDelay(3, x);
    DefaultDelay(4, y);
    hide Delay;
  }

  lemma DefaultDelay(attempt: nat, u: real)
    requires 1 <= attempt <= 4 && 0.0 <= u < 1.0
    ensures Delay(DEFAULT_POLICY, attempt, u)
         == 100_000_000 * Pow2(attempt - 1) + (u * (20_000_000.0 * Pow2(attempt - 1) as real)).Floor
    ensures Pow2(0) == 1 && Pow2(1) == 2 && Pow2(2) == 4 && Pow2(3) == 8
  {
    DelayIs(DEFAULT_POLICY, attempt, u);
    hide Delay;
    assert Backoff(DEFAULT_POLICY, attempt) == 100_000_000 * Pow2(attempt - 1);
  }
}
