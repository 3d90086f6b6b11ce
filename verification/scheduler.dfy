/** Starting and stopping the maintenance loop: the critical sections of start
    and stop and the steps of the loop goroutines, in every interleaving. */
module Scheduler {
  import opened Wrappers

  /** A live loop goroutine: it reads the scheduler's channel some time after
      it was launched, and then holds on to it. */
  datatype Loop = Launched | Bound(channel: nat)

  /** The goroutine in which a call of stop waits for the wait group: on its way
      into Wait, blocked there, released by the last Done but not yet awake, or
      through. */
  datatype Phase = Calling | Blocked | Released | Through

  /** A call of stop that closed a channel; `over` once it has returned, while
      its goroutine may still be waiting. */
  datatype Waiter = Waiter(phase: Phase, over: bool)

  /** The scheduler.  Channels are numbered as they are made, the current one
      being the last; `closes` counts how often each was closed.  `wg` is the
      wait group's counter, `stopped` the last call of stop that closed a
      channel, and `crashed` says that a goroutine has panicked. */
  datatype State = State(running: bool, closes: seq<nat>, wg: int, loops: map<nat, Loop>, launched: nat,
                         waiters: map<nat, Waiter>, stopped: Option<nat>, crashed: bool)

  const IDLE := State(false, [], 0, map[], 0, map[], None, false)

  /** The atomic steps. */
  datatype Step =
    | StartRefused
    | StartSection
    | StopIdle
    | StopSection(waiter: nat)
    | LoopReads(id: nat)
    | LoopTicks(id: nat)
    | LoopExits(id: nat)
    | WaitCalled(waiter: nat)
    | WaitWakes(waiter: nat)
    | WaitPanics(waiter: nat)
    | StopReturns(waiter: nat)
    | StopTimesOut(waiter: nat)

  predicate InPhase(s: State, w: nat, phase: Phase) { w in s.waiters && s.waiters[w].phase == phase }

  predicate Enabled(s: State, x: Step) {
    !s.crashed &&
    match x
    case StartRefused => s.running
    case StartSection => !s.running
    case StopIdle => !s.running
    case StopSection(w) => s.running && s.closes != [] && w !in s.waiters
    case LoopReads(id) => id in s.loops && s.loops[id].Launched? && s.closes != []
    case LoopTicks(id) => id in s.loops && s.loops[id].Bound?
    case LoopExits(id) =>
      id in s.loops && s.loops[id].Bound? && s.loops[id].channel < |s.closes| && s.closes[s.loops[id].channel] > 0
    case WaitCalled(w) => InPhase(s, w, Calling)
    case WaitWakes(w) => InPhase(s, w, Released) && s.wg == 0
    case WaitPanics(w) => InPhase(s, w, Released) && s.wg != 0
    case StopReturns(w) => InPhase(s, w, Through) && !s.waiters[w].over
    case StopTimesOut(w) => w in s.waiters && !s.waiters[w].over
  }

  function Last(s: State): nat
    requires s.closes != []
  {
    |s.closes| - 1
  }

  function Move(ws: map<nat, Waiter>, w: nat, phase: Phase): map<nat, Waiter>
    requires w in ws
  {
    ws[w := ws[w].(phase := phase)]
  }

  function Finish(ws: map<nat, Waiter>, w: nat): map<nat, Waiter>
    requires w in ws
  {
    ws[w := ws[w].(over := true)]
  }

  /** The Done that takes the counter to zero releases everybody. */
  function Release(ws: map<nat, Waiter>): map<nat, Waiter> {
    map w | w in ws :: if ws[w].phase == Blocked then ws[w].(phase := Released) else ws[w]
  }

  function Apply(s: State, x: Step): State
    requires Enabled(s, x)
  {
    match x
    case StartRefused => s
    case StartSection =>
      s.(running := true, closes := s.closes + [0], wg := s.wg + 1,
         loops := s.loops[s.launched := Launched], launched := s.launched + 1)
    case StopIdle => s
    case StopSection(w) =>
      s.(running := false, closes := s.closes[Last(s) := s.closes[Last(s)] + 1],
         waiters := s.waiters[w := Waiter(Calling, false)], stopped := Some(w))
    case LoopReads(id) => s.(loops := s.loops[id := Bound(Last(s))])
    case LoopTicks(id) => s
    case LoopExits(id) =>
      s.(loops := s.loops - {id}, wg := s.wg - 1, waiters := if s.wg == 1 then Release(s.waiters) else s.waiters)
    case WaitCalled(w) => s.(waiters := Move(s.waiters, w, if s.wg == 0 then Through else Blocked))
    case WaitWakes(w) => s.(waiters := Move(s.waiters, w, Through))
    case WaitPanics(w) => s.(crashed := true)
    case StopReturns(w) => s.(waiters := Finish(s.waiters, w))
    case StopTimesOut(w) => s.(waiters := Finish(s.waiters, w))
  }

  /** The channels: each is closed at most once, all but the current one are
      closed, and the current one is open exactly while running. */
  predicate ChannelsInv(s: State) {
    && (forall c :: 0 <= c < |s.closes| - 1 ==> s.closes[c] == 1)
    && (if s.closes == [] then !s.running else s.closes[Last(s)] == if s.running then 0 else 1)
  }

  /** The loops hold existing channels. */
  predicate Held(s: State) {
    && (forall id :: id in s.loops ==> id < s.launched && (s.loops[id].Bound? ==> s.loops[id].channel < |s.closes|))
    && (s.launched > 0 ==> s.closes != [])
  }

  /** The wait group counts the live loops. */
  predicate LoopsInv(s: State) {
    s.wg == |s.loops| && Held(s)
  }

  /** Nobody blocks on an empty wait group; and while nothing runs, the wait group
      is empty if nothing was ever stopped or if the last stop's wait is over. */
  predicate WaitersInv(s: State) {
    && (forall w :: w in s.waiters && s.waiters[w].phase == Blocked ==> s.wg > 0)
    && (s.stopped.Some? ==> s.stopped.value in s.waiters)
    && (!s.running && s.stopped.None? ==> s.wg == 0)
    && (!s.running && s.stopped.Some? && s.waiters[s.stopped.value].phase in {Released, Through} ==> s.wg == 0)
  }

  /** While the scheduler runs, a live loop holds its current channel or is about
      to read it. */
  predicate WorkerInv(s: State) {
    s.running ==> exists id :: id in s.loops && IsWorker(s, id)
  }

  predicate IsWorker(s: State, id: nat) {
    && id in s.loops
    && (s.loops[id].Launched? || (s.loops[id].Bound? && s.loops[id].channel == |s.closes| - 1))
  }

  predicate Inv(s: State) { ChannelsInv(s) && LoopsInv(s) && WaitersInv(s) && WorkerInv(s) }

  /** The states a run goes through. */
  predicate IsRun(steps: seq<Step>, states: seq<State>) {
    && |states| == |steps| + 1 && states[0] == IDLE
    && forall i :: 0 <= i < |steps| ==> Enabled(states[i], steps[i]) && states[i + 1] == Apply(states[i], steps[i])
  }

  lemma StepAt(steps: seq<Step>, states: seq<State>, i: nat)
    requires IsRun(steps, states) && i < |steps|
    ensures Enabled(states[i], steps[i]) && states[i + 1] == Apply(states[i], steps[i])
  {
    hide Enabled, Apply;
  }

  lemma LoopsStay(s: State, x: Step)
    requires LoopsInv(s) && Enabled(s, x)
    ensures LoopsInv(Apply(s, x))
    ensures |Apply(s, x).loops| == |s.loops| + (if x.StartSection? then 1 else if x.LoopExits? then -1 else 0)
  {
    LoopsCounted(s, x);
    LoopsHeld(s, x);
    hide Apply, Enabled, Held;
  }

  lemma LoopsHeld(s: State, x: Step)
    requires Held(s) && Enabled(s, x)
    ensures Held(Apply(s, x))
  {
    hide Move, Finish, Release;
  }

  lemma LoopsCounted(s: State, x: Step)
    requires s.wg == |s.loops| && Held(s) && Enabled(s, x)
    ensures var n := if x.StartSection? then 1 else if x.LoopExits? then -1 else 0;
      Apply(s, x).wg == s.wg + n && |Apply(s, x).loops| == |s.loops| + n
  {
    hide Move, Finish, Release;
    match x
    case StartSection => SizeWith(s.loops, s.launched, Launched);
    case LoopReads(id) => SizeWith(s.loops, id, Bound(Last(s)));
    case LoopExits(id) => SizeWithout(s.loops, id);
    case _ =>
  }

  lemma SizeWith<T>(m: map<nat, T>, k: nat, v: T)
    ensures |m[k := v]| == |m| + if k in m then 0 else 1
  {
    assert m[k := v].Keys == m.Keys + {k};
  }

  lemma SizeWithout<T>(m: map<nat, T>, k: nat)
    requires k in m
    ensures |m - {k}| == |m| - 1
  {
    assert (m - {k}).Keys == m.Keys - {k};
  }

  lemma StepKeepsInv(s: State, x: Step)
    requires Inv(s) && Enabled(s, x)
    ensures Inv(Apply(s, x))
  {
    LoopsStay(s, x);
    ChannelsStay(s, x);
    WaitersStay(s, x);
    WorkerStays(s, x);
    hide ChannelsInv, LoopsInv, WaitersInv, WorkerInv;
  }

  /** A loop exits only when its own channel is closed, and while the scheduler
      runs the current one is not. */
  lemma WorkerStays(s: State, x: Step)
    requires ChannelsInv(s) && Held(s) && WorkerInv(s) && Enabled(s, x)
    ensures WorkerInv(Apply(s, x))
  {
    hide Move, Finish, Release;
    var after := Apply(s, x);
    if x.StartSection? {
      assert IsWorker(after, s.launched);
    } else if after.running {
      var id :| id in s.loops && IsWorker(s, id);
      assert s.loops[id].Launched? || s.loops[id] == Bound(Last(s));
      assert id in after.loops && IsWorker(after, id);
    }
  }

  lemma ChannelsStay(s: State, x: Step)
    requires ChannelsInv(s) && Enabled(s, x)
    ensures ChannelsInv(Apply(s, x))
  {
    hide Move, Finish, Release;
  }

  lemma WaitersStay(s: State, x: Step)
    requires Inv(s) && Enabled(s, x)
    ensures WaitersInv(Apply(s, x))
  {
    hide ChannelsInv;
  }

  /** In every interleaving: the invariant holds throughout; so close is never
      called on a closed channel, which would panic, and the wait group never
      goes negative. */
  lemma {:induction false} RunKeepsInv(steps: seq<Step>, states: seq<State>, i: nat)
    requires IsRun(steps, states) && i < |states|
    ensures Inv(states[i])
    ensures forall c :: 0 <= c < |states[i].closes| ==> states[i].closes[c] <= 1
    ensures states[i].wg >= 0
    ensures var s := states[i];
      s.running ==> exists id :: id in s.loops && (s.loops[id].Bound? ==> s.loops[id].channel == |s.closes| - 1)
    decreases i
  {
    hide Enabled, Apply;
    if i > 0 {
      RunKeepsInv(steps, states, i - 1);
      StepKeepsInv(states[i - 1], steps[i - 1]);
      assert states[i - 1 + 1] == Apply(states[i - 1], steps[i - 1]);
    }
  }

  /** Whenever it is running, some loop can go on, to read its channel or to its
      next tick, and none that holds the current channel can exit. */
  lemma RunningGoesOn(s: State)
    requires Inv(s) && s.running && !s.crashed
    ensures exists id :: id in s.loops && (Enabled(s, LoopReads(id)) || Enabled(s, LoopTicks(id)))
    ensures forall id :: id in s.loops && s.loops[id] == Bound(Last(s)) ==> !Enabled(s, LoopExits(id))
  {
    var id :| id in s.loops && IsWorker(s, id);
    match s.loops[id]
    case Launched => assert Enabled(s, LoopReads(id));
    case Bound(_) => assert Enabled(s, LoopTicks(id));
  }

  /** Whenever the scheduler is not running, each live loop holds a closed
      channel or will read one. */
  lemma StoppedLoopsWillExit(s: State, id: nat)
    requires Inv(s) && !s.running && !s.crashed && id in s.loops
    ensures s.closes != []
    ensures s.closes[if s.loops[id].Bound? then s.loops[id].channel else Last(s)] == 1
    ensures Enabled(s, if s.loops[id].Bound? then LoopExits(id) else LoopReads(id))
  {
  }

  /* ----- stopping ----- */

  /** The steps the live loops have left before they exit. */
  ghost function Remaining(loops: map<nat, Loop>): nat {
    if loops == map[] then 0
    else
      var id :| id in loops;
      (if loops[id].Launched? then 2 else 1) + Remaining(loops - {id})
  }

  lemma {:induction false} RemainingWithout(loops: map<nat, Loop>, id: nat)
    requires id in loops
    ensures Remaining(loops) == (if loops[id].Launched? then 2 else 1) + Remaining(loops - {id})
    decreases |loops|
  {
    var e :| e in loops && Remaining(loops) == (if loops[e].Launched? then 2 else 1) + Remaining(loops - {e});
    if e != id {
      assert (loops - {e}).Keys == loops.Keys - {e} && (loops - {id}).Keys == loops.Keys - {id};
      RemainingWithout(loops - {e}, id);
      RemainingWithout(loops - {id}, e);
      assert loops - {e} - {id} == loops - {id} - {e};
    }
  }

  predicate IsLoopProgress(x: Step) { x.LoopReads? || x.LoopExits? }

  /** As long as nobody starts again, every read and every exit of a loop
      shortens what is left, and nothing lengthens it. */
  lemma StopDrains(s: State, x: Step)
    requires Inv(s) && !s.running && Enabled(s, x) && !x.StartSection?
    ensures !Apply(s, x).running
    ensures Remaining(Apply(s, x).loops) == if IsLoopProgress(x) then Remaining(s.loops) - 1 else Remaining(s.loops)
  {
    match x
    case LoopReads(id) =>
      var after := s.loops[id := Bound(Last(s))];
      RemainingWithout(s.loops, id);
      RemainingWithout(after, id);
      assert after - {id} == s.loops - {id};
    case LoopExits(id) => RemainingWithout(s.loops, id);
    case _ =>
  }

  /** A stopped scheduler can always finish: its loops can go on to exit, and
      once they have, a call of stop can go on to return without an error. */
  lemma StopCompletes(s: State)
    requires Inv(s) && !s.running && !s.crashed
    ensures s.loops != map[] ==> exists x :: Enabled(s, x) && IsLoopProgress(x)
    ensures Remaining(s.loops) == 0 <==> s.loops == map[]
    ensures s.loops == map[] ==> forall w :: w in s.waiters && !s.waiters[w].over ==>
      Enabled(s, WaitCalled(w)) || Enabled(s, WaitWakes(w)) || Enabled(s, StopReturns(w))
  {
    if s.loops != map[] {
      var id :| id in s.loops;
      StoppedLoopsWillExit(s, id);
      assert IsLoopProgress(if s.loops[id].Bound? then LoopExits(id) else LoopReads(id));
      RemainingWithout(s.loops, id);
    }
  }

  /** With no loop left, a stop's wait is over in one step. */
  lemma WaitAdvances(s: State, x: Step, w: nat)
    requires Inv(s) && s.loops == map[] && Enabled(s, x) && (x == WaitCalled(w) || x == WaitWakes(w))
    ensures InPhase(Apply(s, x), w, Through)
    ensures !s.waiters[w].over ==> Enabled(Apply(s, x), StopReturns(w))
  {
  }

  /** A wait that is over stays over. */
  lemma {:induction false} ThroughStays(steps: seq<Step>, states: seq<State>, i: nat, j: nat, w: nat)
    requires IsRun(steps, states) && i <= j < |states| && InPhase(states[i], w, Through)
    ensures InPhase(states[j], w, Through) && (states[i].waiters[w].over ==> states[j].waiters[w].over)
    decreases j
  {
    assert |states| == |steps| + 1;
    hide IsRun, Enabled, Apply;
    if i < j {
      ThroughStays(steps, states, i, j - 1, w);
      StepAt(steps, states, j - 1);
      ThroughKept(states[j - 1], steps[j - 1], w);
    }
  }

  lemma ThroughKept(s: State, x: Step, w: nat)
    requires Enabled(s, x) && InPhase(s, w, Through)
    ensures InPhase(Apply(s, x), w, Through) && (s.waiters[w].over ==> Apply(s, x).waiters[w].over)
  {
  }

  /** The last stop that closed a channel, and what it leaves: when it has
      returned without an error and nothing was started since, no loop is
      live. */
  lemma NilMeansNoLoop(steps: seq<Step>, states: seq<State>, j: nat, i: nat)
    requires IsRun(steps, states) && j < i < |states| && steps[j].StopReturns?
    requires states[i].stopped == Some(steps[j].waiter) && !states[i].running
    ensures states[i].loops == map[]
  {
    RunKeepsInv(steps, states, i);
    StepAt(steps, states, j);
    hide IsRun;
    ThroughStays(steps, states, j, i, steps[j].waiter);
  }

  /* ----- how many loops are live ----- */

  /** No start happens while an earlier loop is still live. */
  predicate StartsAlone(steps: seq<Step>, states: seq<State>)
    requires |states| == |steps| + 1
  {
    forall i :: 0 <= i < |steps| && steps[i].StartSection? ==> states[i].loops == map[]
  }

  predicate OneLoop(s: State) { |s.loops| <= 1 }

  lemma InvParts(s: State)
    requires Inv(s)
    ensures LoopsInv(s)
  {
  }

  lemma {:induction false} AloneIsOne(steps: seq<Step>, states: seq<State>, i: nat)
    requires IsRun(steps, states) && StartsAlone(steps, states) && i < |states|
    ensures OneLoop(states[i])
    decreases i
  {
    hide Enabled, Apply, Inv, LoopsInv;
    if i > 0 {
      AloneIsOne(steps, states, i - 1);
      RunKeepsInv(steps, states, i - 1);
      StepAt(steps, states, i - 1);
      LoopsStay(states[i - 1], steps[i - 1]) by { InvParts(states[i - 1]); }
    }
  }

  /** A wait is over only when no loop is live. */
  lemma WakesWhenEmpty(steps: seq<Step>, states: seq<State>, i: nat, w: nat)
    requires IsRun(steps, states) && i < |steps|
    requires !InPhase(states[i], w, Through) && InPhase(states[i + 1], w, Through)
    ensures states[i].loops == map[] && states[i].wg == 0
  {
    assert |states| == |steps| + 1;
    hide IsRun;
    RunKeepsInv(steps, states, i);
    StepAt(steps, states, i);
    hide ChannelsInv, WaitersInv, WorkerInv, Held;
    assert states[i].wg == 0;
  }

  predicate Ends(x: Step, w: nat) { x == StopReturns(w) || x == StopTimesOut(w) }

  predicate Over(s: State, w: nat) { w in s.waiters && s.waiters[w].over }

  lemma {:induction false} OverStays(steps: seq<Step>, states: seq<State>, i: nat, j: nat, w: nat)
    requires IsRun(steps, states) && i <= j < |states| && Over(states[i], w)
    ensures Over(states[j], w)
    decreases j
  {
    assert |states| == |steps| + 1;
    hide IsRun, Enabled, Apply;
    if i < j {
      OverStays(steps, states, i, j - 1, w);
      StepAt(steps, states, j - 1);
      OverKept(states[j - 1], steps[j - 1], w);
    }
  }

  lemma OverKept(s: State, x: Step, w: nat)
    requires Enabled(s, x) && Over(s, w)
    ensures Over(Apply(s, x), w) && !Ends(x, w)
  {
  }

  /** Every call of stop returns once, without an error or with its context's. */
  lemma StopEndsOnce(steps: seq<Step>, states: seq<State>, i: nat, j: nat, w: nat)
    requires IsRun(steps, states) && i < j < |steps| && Ends(steps[i], w)
    ensures !Ends(steps[j], w)
  {
    StepAt(steps, states, i);
    assert Over(states[i + 1], w);
    hide IsRun, Enabled, Apply;
    OverStays(steps, states, i + 1, j, w);
    StepAt(steps, states, j);
    OverKept(states[j], steps[j], w);
  }

  /** There is at most one live loop at all times exactly when no start comes
      while an earlier loop is still live. */
  lemma AtMostOneLoopIff(steps: seq<Step>, states: seq<State>)
    requires IsRun(steps, states)
    ensures (forall i :: 0 <= i < |states| ==> OneLoop(states[i])) <==> StartsAlone(steps, states)
  {
    hide Enabled, Apply, Inv, LoopsInv;
    if StartsAlone(steps, states) {
      forall i | 0 <= i < |states|
        ensures OneLoop(states[i])
      {
        AloneIsOne(steps, states, i);
      }
    } else {
      var i :| 0 <= i < |steps| && steps[i].StartSection? && states[i].loops != map[];
      RunKeepsInv(steps, states, i);
      StepAt(steps, states, i);
      LoopsStay(states[i], steps[i]) by { InvParts(states[i]); }
      assert |states[i].loops| > 0;
      assert !OneLoop(states[i + 1]);
    }
  }

  /** Every start but the first comes after the last stop before it has returned
      without an error. */
  predicate WaitedFor(steps: seq<Step>, states: seq<State>)
    requires |states| == |steps| + 1
  {
    forall i :: 0 <= i < |steps| && steps[i].StartSection? && states[i].stopped.Some? ==>
      exists j :: 0 <= j < i && steps[j] == StopReturns(states[i].stopped.value)
  }

  /** A caller who waits for every stop has one loop at most, always. */
  lemma WaitingKeepsOneLoop(steps: seq<Step>, states: seq<State>, i: nat)
    requires IsRun(steps, states) && WaitedFor(steps, states) && i < |states|
    ensures OneLoop(states[i])
  {
    forall n | 0 <= n < |steps| && steps[n].StartSection?
      ensures states[n].loops == map[]
    {
      RunKeepsInv(steps, states, n);
      StepAt(steps, states, n);
      if states[n].stopped.Some? {
        var j :| 0 <= j < n && steps[j] == StopReturns(states[n].stopped.value);
        NilMeansNoLoop(steps, states, j, n);
      }
    }
    AloneIsOne(steps, states, i);
  }

  /** Two loops on one open channel: the first is launched, the scheduler is
      stopped and started again before it has read the channel, and it reads the
      new one. */
  lemma TwoLoopsShareAChannel() returns (steps: seq<Step>, states: seq<State>)
    ensures IsRun(steps, states)
    ensures var s := states[|steps|];
      s.running && s.closes == [1, 0] && s.loops == map[0 := Bound(1), 1 := Bound(1)]
  {
    steps, states := [], [IDLE];
    steps, states := Extend(steps, states, StartSection);
    steps, states := Extend(steps, states, StopSection(0));
    steps, states := Extend(steps, states, StartSection);
    steps, states := Extend(steps, states, LoopReads(0));
    steps, states := Extend(steps, states, LoopReads(1));
    assert states[|steps|].loops == map[0 := Bound(1), 1 := Bound(1)];
  }

  /* ----- reuse of the wait group ----- */

  /** Some waiter is released and not awake yet. */
  predicate Waking(s: State) { exists w :: w in s.waiters && s.waiters[w].phase == Released }

  /** The panic "WaitGroup is reused before previous Wait has returned". */
  predicate CanPanic(s: State) { exists w :: w in s.waiters && Enabled(s, WaitPanics(w)) }

  /** No start happens while a waiter is waking. */
  predicate StartsUndisturbed(steps: seq<Step>, states: seq<State>)
    requires |states| == |steps| + 1
  {
    forall i :: 0 <= i < |steps| && steps[i].StartSection? ==> !Waking(states[i])
  }

  /** A step after which a released waiter faces a counter that is not zero,
      other than from such a state, is a start. */
  lemma StepDisturbs(s: State, x: Step)
    requires Inv(s) && Enabled(s, x)
    ensures Waking(Apply(s, x)) && Apply(s, x).wg != 0 ==> Waking(s) && (s.wg != 0 || x.StartSection?)
    ensures x.StartSection? && Waking(s) ==> Waking(Apply(s, x)) && Apply(s, x).wg != 0
  {
    hide ChannelsInv;
    var after := Apply(s, x);
    if Waking(after) && after.wg != 0 {
      var w :| w in after.waiters && after.waiters[w].phase == Released;
      assert w in s.waiters;
    }
    if x.StartSection? && Waking(s) {
      var w :| w in s.waiters && s.waiters[w].phase == Released;
      assert after.waiters[w].phase == Released;
    }
  }

  lemma {:induction false} UndisturbedIsCalm(steps: seq<Step>, states: seq<State>, i: nat)
    requires IsRun(steps, states) && StartsUndisturbed(steps, states) && i < |states|
    ensures !(Waking(states[i]) && states[i].wg != 0)
    decreases i
  {
    hide Enabled, Apply, Inv, Waking;
    if i > 0 {
      UndisturbedIsCalm(steps, states, i - 1);
      RunKeepsInv(steps, states, i - 1);
      StepAt(steps, states, i - 1);
      StepDisturbs(states[i - 1], steps[i - 1]);
    } else {
      assert !Waking(IDLE) by { NobodyWakes(); }
    }
  }

  lemma NobodyWakes()
    ensures !Waking(IDLE)
  {
  }

  lemma PanicNeeds(s: State)
    ensures CanPanic(s) <==> !s.crashed && Waking(s) && s.wg != 0
  {
    if Waking(s) && s.wg != 0 && !s.crashed {
      var w :| w in s.waiters && s.waiters[w].phase == Released;
      assert Enabled(s, WaitPanics(w));
    }
  }

  /** No state of a run can panic exactly when no start comes between the last
      loop's exit and the waking of those it releases. */
  lemma NoPanicIff(steps: seq<Step>, states: seq<State>)
    requires IsRun(steps, states)
    ensures (forall i :: 0 <= i < |states| ==> !CanPanic(states[i])) <==> StartsUndisturbed(steps, states)
  {
    hide Enabled, Apply, Inv, Waking, CanPanic;
    if StartsUndisturbed(steps, states) {
      forall i | 0 <= i < |states|
        ensures !CanPanic(states[i])
      {
        UndisturbedIsCalm(steps, states, i);
        PanicNeeds(states[i]);
      }
    } else {
      var i :| 0 <= i < |steps| && steps[i].StartSection? && Waking(states[i]);
      RunKeepsInv(steps, states, i);
      StepAt(steps, states, i);
      StepDisturbs(states[i], steps[i]);
      StartDoesNotCrash(states[i]);
      PanicNeeds(states[i + 1]);
      assert CanPanic(states[i + 1]);
    }
  }

  lemma StartDoesNotCrash(s: State)
    requires Enabled(s, StartSection)
    ensures !Apply(s, StartSection).crashed
  {
  }

  /** All waits but that of the last stop are over, and while running that one
      too. */
  predicate Settled(s: State) {
    forall w :: w in s.waiters && (s.running || s.stopped != Some(w)) ==>
      s.waiters[w].phase == Through && s.waiters[w].over
  }

  lemma {:induction false} WaitingSettles(steps: seq<Step>, states: seq<State>, i: nat)
    requires IsRun(steps, states) && WaitedFor(steps, states) && i < |states|
    ensures Settled(states[i])
    decreases i
  {
    if i > 0 {
      WaitingSettles(steps, states, i - 1);
      StepAt(steps, states, i - 1);
      var s := states[i - 1];
      if steps[i - 1].StartSection? && s.stopped.Some? {
        ReturnedIsThrough(steps, states, i - 1);
      }
      SettledStays(s, steps[i - 1]);
    }
  }

  lemma ReturnedIsThrough(steps: seq<Step>, states: seq<State>, i: nat)
    requires IsRun(steps, states) && WaitedFor(steps, states) && i < |steps|
    requires steps[i].StartSection? && states[i].stopped.Some?
    ensures InPhase(states[i], states[i].stopped.value, Through) && states[i].waiters[states[i].stopped.value].over
  {
    var j :| 0 <= j < i && steps[j] == StopReturns(states[i].stopped.value);
    StepAt(steps, states, j);
    ThroughStays(steps, states, j + 1, i, states[i].stopped.value);
  }

  lemma SettledStays(s: State, x: Step)
    requires Settled(s) && Enabled(s, x)
    requires x.StartSection? && s.stopped.Some? ==> InPhase(s, s.stopped.value, Through) && s.waiters[s.stopped.value].over
    ensures Settled(Apply(s, x))
  {
  }

  /** With callers who wait for every stop, one that returns without an error does
      so while no loop is live. */
  lemma WaitedNilIsTrue(steps: seq<Step>, states: seq<State>, j: nat)
    requires IsRun(steps, states) && WaitedFor(steps, states) && j < |steps| && steps[j].StopReturns?
    ensures states[j].loops == map[]
  {
    WaitingSettles(steps, states, j);
    RunKeepsInv(steps, states, j);
    StepAt(steps, states, j);
  }

  /** A caller who waits for every stop never meets that panic. */
  lemma WaitingAvoidsPanic(steps: seq<Step>, states: seq<State>, i: nat)
    requires IsRun(steps, states) && WaitedFor(steps, states) && i < |states|
    ensures !CanPanic(states[i])
  {
    forall n | 0 <= n < |steps| && steps[n].StartSection?
      ensures !Waking(states[n])
    {
      WaitingSettles(steps, states, n);
      StepAt(steps, states, n);
      if states[n].stopped.Some? {
        ReturnedIsThrough(steps, states, n);
      }
    }
    NoPanicIff(steps, states);
  }

  /** A loop was started and stopped and has exited; the stop is released and
      not awake yet. */
  lemma StopReleased() returns (steps: seq<Step>, states: seq<State>)
    ensures IsRun(steps, states)
    ensures states[|steps|] == State(false, [1], 0, map[], 1, map[0 := Waiter(Released, false)], Some(0), false)
  {
    steps, states := [], [IDLE];
    steps, states := Extend(steps, states, StartSection);
    steps, states := Extend(steps, states, LoopReads(0));
    steps, states := Extend(steps, states, StopSection(0));
    steps, states := Extend(steps, states, WaitCalled(0));
    steps, states := Extend(steps, states, LoopExits(0));
  }

  /** A start that another caller slips in before the waiter is awake: the
      program panics. */
  lemma ReusePanics() returns (steps: seq<Step>, states: seq<State>)
    ensures IsRun(steps, states) && states[|steps|].crashed
  {
    steps, states := StopReleased();
    steps, states := Extend(steps, states, StartSection);
    steps, states := Extend(steps, states, WaitPanics(0));
  }

  /** A start between the waking and the return: stop returns without an error
      although a loop is live. */
  lemma NilWhileLive() returns (steps: seq<Step>, states: seq<State>)
    ensures IsRun(steps, states) && |steps| > 0 && steps[|steps| - 1] == StopReturns(0)
    ensures states[|steps|].loops != map[]
  {
    steps, states := StopReleased();
    steps, states := Extend(steps, states, WaitWakes(0));
    steps, states := Extend(steps, states, StartSection);
    steps, states := Extend(steps, states, StopReturns(0));
    assert 1 in states[|steps|].loops;
  }

  lemma Extend(steps: seq<Step>, states: seq<State>, x: Step) returns (longer: seq<Step>, more: seq<State>)
    requires IsRun(steps, states) && Enabled(states[|steps|], x)
    ensures IsRun(longer, more) && longer == steps + [x] && more[|longer|] == Apply(states[|steps|], x)
  {
    longer, more := steps + [x], states + [Apply(states[|steps|], x)];
  }

  /* ----- the scheduler as an object ----- */

  lemma StopEnabled(s: State, w: nat)
    requires Inv(s) && w !in s.waiters && !s.crashed
    ensures Enabled(s, if s.running then StopSection(w) else StopIdle)
    ensures s.running ==> s.closes != []
  {
  }

  /** The mutable scheduler; each method is one critical section. */
  class LoopScheduler {
    var running: bool
    var closes: seq<nat>
    var wg: int
    var loops: map<nat, Loop>
    var launched: nat
    var waiters: map<nat, Waiter>
    var stopped: Option<nat>

    function Snapshot(): State
      reads this
    {
      State(running, closes, wg, loops, launched, waiters, stopped, false)
    }

    constructor ()
      ensures Snapshot() == IDLE
    {
      running, closes, wg, loops, launched, waiters, stopped := false, [], 0, map[], 0, map[], None;
    }

    /** start, up to the goroutine. */
    method Start() returns (ok: bool)
      requires Inv(Snapshot())
      modifies this
      ensures Inv(Snapshot())
      ensures ok == !old(running) && running
      ensures var x := if ok then StartSection else StartRefused;
        Enabled(old(Snapshot()), x) && Snapshot() == Apply(old(Snapshot()), x)
    {
      StepKeepsInv(Snapshot(), if running then StartRefused else StartSection);
      if running {
        return false;
      }
      running := true;
      closes := closes + [0];
      wg := wg + 1;
      loops := loops[launched := Launched];
      launched := launched + 1;
      ok := true;
    }

    /** stop, up to the wait; `w` names this call. */
    method Stop(w: nat) returns (waits: bool)
      requires Inv(Snapshot()) && w !in waiters
      modifies this
      ensures Inv(Snapshot())
      ensures waits == old(running) && !running
      ensures var x := if waits then StopSection(w) else StopIdle;
        Enabled(old(Snapshot()), x) && Snapshot() == Apply(old(Snapshot()), x)
    {
      StopEnabled(Snapshot(), w);
      hide Inv, Enabled;
      StepKeepsInv(Snapshot(), if running then StopSection(w) else StopIdle);
      if !running {
        return false;
      }
      running := false;
      closes := closes[|closes| - 1 := closes[|closes| - 1] + 1];
      waiters, stopped := waiters[w := Waiter(Calling, false)], Some(w);
      waits := true;
    }

    /** The section in which a loop takes its channel. */
    method TakeChannel(id: nat)
      requires Inv(Snapshot()) && Enabled(Snapshot(), LoopReads(id))
      modifies this
      ensures Inv(Snapshot()) && Snapshot() == Apply(old(Snapshot()), LoopReads(id))
    {
      StepKeepsInv(Snapshot(), LoopReads(id));
      loops := loops[id := Bound(|closes| - 1)];
    }

    /** A loop that finds its channel closed. */
    method Exit(id: nat)
      requires Inv(Snapshot()) && Enabled(Snapshot(), LoopExits(id))
      modifies this
      ensures Inv(Snapshot()) && Snapshot() == Apply(old(Snapshot()), LoopExits(id))
    {
      StepKeepsInv(Snapshot(), LoopExits(id));
      loops := loops - {id};
      if wg == 1 {
        waiters := Release(waiters);
      }
      wg := wg - 1;
    }
  }
}
