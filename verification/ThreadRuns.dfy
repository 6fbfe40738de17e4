/** Whole runs of the thread system, from boot: the kernel's assertions never fail and
    the invariant holds at every point, for any number of CPUs and any interleaving. */
module ThreadRuns {
  import opened ThreadSystem
  import opened ThreadSteps
  import opened ThreadSafety
  import opened ThreadLocalSteps
  import opened ThreadLists
  import opened ThreadListSteps
  import opened ThreadTurns
  import opened ThreadLives

  // ----- One step -----

  lemma WakeSteps(s: State, c: int, a: Action)
    requires Inv(s) && Enabled(s, c, a) && IsWakeStep(a)
    ensures Assertions(s, c, a) && Inv(ApplyWake(s, c, a))
  {
    match a
    case Fork(child) => ForkStep(s, c, child);
    case WakeOne(w) => WakeOneStep(s, c, w);
    case WakeAll(w) => WakeAllStep(s, c, w);
    case WakeLock => WakeLockStep(s, c);
    case WakeAdd => WakeAddStep(s, c);
    case WakeIpi => WakeIpiStep(s, c);
    case WakeRelease => WakeReleaseStep(s, c);
    case WakeDone => WakeDoneStep(s, c);
  }

  lemma WakeOneStep(s: State, c: int, w: int)
    requires Inv(s) && Enabled(s, c, WakeOne(w))
    ensures Inv(ApplyWake(s, c, WakeOne(w)))
  {
    assert Shape(s);
    if s.waiters[w] != [] {
      TakeWaitersStep(s, c, w, 1);
      assert ApplyWake(s, c, WakeOne(w)) == TakeWaiters(s, c, w, 1);
    }
  }

  lemma WakeAllStep(s: State, c: int, w: int)
    requires Inv(s) && Enabled(s, c, WakeAll(w))
    ensures Inv(ApplyWake(s, c, WakeAll(w)))
  {
    assert Shape(s);
    TakeWaitersStep(s, c, w, |s.waiters[w]|);
    assert ApplyWake(s, c, WakeAll(w)) == TakeWaiters(s, c, w, |s.waiters[w]|);
  }

  lemma SwitchingSteps(s: State, c: int, a: Action)
    requires Inv(s) && Enabled(s, c, a) && IsSwitchingStep(a)
    ensures Assertions(s, c, a) && Inv(ApplySwitching(s, c, a))
  {
    match a
    case SwitchLock => SwitchLockStep(s, c);
    case SwitchPlace => SwitchPlaceStep(s, c);
    case SwitchPick => SwitchPickStep(s, c);
    case IdleReturn => IdleReturnStep(s, c);
    case IdleRelock => IdleRelockStep(s, c);
    case SwitchResume => SwitchResumeStep(s, c);
    case Exorcise => ExorciseStep(s, c);
    case SwitchDone => SwitchDoneStep(s, c);
  }

  lemma CountingSteps(s: State, c: int, a: Action)
    requires Inv(s) && Enabled(s, c, a) && IsCountingStep(a)
    ensures Assertions(s, c, a) && Inv(ApplyCounting(s, c, a))
  {
    match a
    case Migrate => MigrateStep(s, c);
    case CountOne => CountOneStep(s, c);
    case CountDone => CountDoneStep(s, c);
    case TakeVictims => TakeVictimsStep(s, c);
  }

  lemma PushingSteps(s: State, c: int, a: Action)
    requires Inv(s) && Enabled(s, c, a) && IsPushingStep(a)
    ensures Assertions(s, c, a) && Inv(ApplyPushing(s, c, a))
  {
    match a
    case PushNext => PushNextStep(s, c);
    case PushLock => PushLockStep(s, c);
    case MoveOne => MoveOneStep(s, c);
    case MoveIpi => MoveIpiStep(s, c);
    case PushUnlock => PushUnlockStep(s, c);
    case ReturnVictims => ReturnVictimsStep(s, c);
  }

  /** Whatever any CPU does next, the kernel's assertions hold and so does the
      invariant afterwards. */
  lemma StepIsSafe(s: State, c: int, a: Action)
    requires Inv(s) && Enabled(s, c, a)
    ensures Assertions(s, c, a) && Inv(Apply(s, c, a))
  {
    if IsCodeStep(a) {
      CodeSteps(s, c, a);
    } else if IsWakeStep(a) {
      WakeSteps(s, c, a);
    } else if IsLeaveStep(a) {
      LeaveSteps(s, c, a);
    } else if IsSwitchingStep(a) {
      SwitchingSteps(s, c, a);
    } else if IsCountingStep(a) {
      CountingSteps(s, c, a);
    } else {
      PushingSteps(s, c, a);
    }
  }

  // ----- Boot -----

  /** A boot thread: current on its own CPU, in its own code with interrupts off. */
  const BOOT := Context(Code, Absent, Absent, Absent, [], [], [], 1, 1, 0, Running)

  function Ids(n: int): (r: seq<int>)
    requires 0 <= n
    ensures |r| == n && forall t :: 0 <= t < n ==> r[t] == t
  {
    seq(n, t => t)
  }

  /** n CPUs, each with its own boot thread, and m wait channels. */
  function Booted(n: int, m: int): State
    requires 0 < n && 0 <= m
  {
    var ids := Ids(n);
    State(seq(n, c => Cpu(c, false, false, true)), seq(n, c => []), seq(n, c => []), seq(n, c => None),
          seq(m, w => []), seq(m, w => None),
          map t | t in ids :: BOOT, map t | t in ids :: Unlinked, map t | t in ids :: t)
  }

  lemma BootContext()
    ensures ContextOk(BOOT, true) && Top(BOOT) == Code && BOOT.switch.Absent?
  {
    var cx := BOOT;
    assert cx.soft.Absent? && cx.switch.Absent? && cx.hard.Absent? && cx.own == Code;
    assert Top(cx) == Code;
    assert Levels(cx);
    assert ContextParts(cx, true);
  }

  lemma AbsentNotParked(cx: Context)
    requires cx.switch.Absent?
    ensures !Parked(cx)
  {
  }

  lemma BootContexts(s: State)
    requires Shape(s) && forall t :: t in s.ctx ==> s.ctx[t] == BOOT && 0 <= t < |s.cpus| && s.tcpu[t] == t
    requires forall c :: 0 <= c < |s.cpus| ==> s.cpus[c] == Cpu(c, false, false, true)
    ensures Contexts(s) && forall t :: t in s.ctx ==> !Parked(s.ctx[t])
  {
    BootContext();
    AbsentNotParked(BOOT);
    assert forall t :: t in s.ctx ==> IsCurrent(s, t);
  }

  lemma BootedIsSafe(n: int, m: int)
    requires 0 < n && 0 <= m
    ensures Inv(Booted(n, m))
  {
    var s := Booted(n, m);
    var ids := Ids(n);
    forall t: int
      ensures t in s.ctx <==> 0 <= t < n
      ensures t in s.link <==> 0 <= t < n
      ensures t in s.tcpu <==> 0 <= t < n
    {
      assert 0 <= t < n ==> ids[t] == t;
    }
    assert forall c :: 0 <= c < n ==> s.cpus[c] == Cpu(c, false, false, true);
    assert Shape(s);
    BootContexts(s);
    forall l | IsPlace(s, l)
      ensures IsList(ListAt(s, l), s.link, l)
    {
      assert ListAt(s, l) == [];
    }
    assert Links(s);
    assert LocksOk(s);
    assert forall c :: 0 <= c < n ==> FrameOk(s, c);
    assert Parts(s);
  }

  // ----- Runs -----

  datatype Step = Step(cpu: int, act: Action)

  /** A step from s to s'; had the kernel's assertions failed, anything could follow. */
  ghost predicate Steps(s: State, step: Step, s': State)
  {
    Shape(s) && Enabled(s, step.cpu, step.act) && (Assertions(s, step.cpu, step.act) ==> s' == Apply(s, step.cpu, step.act))
  }

  ghost predicate IsRun(n: int, m: int, states: seq<State>, steps: seq<Step>)
  {
    && 0 < n && 0 <= m && |states| == |steps| + 1 && states[0] == Booted(n, m)
    && forall i :: 0 <= i < |steps| ==> Steps(states[i], steps[i], states[i + 1])
  }

  lemma {:induction false} RunIsSafe(n: int, m: int, states: seq<State>, steps: seq<Step>, i: nat)
    requires IsRun(n, m, states, steps) && i < |states|
    ensures Inv(states[i])
  {
    if i == 0 {
      BootedIsSafe(n, m);
    } else {
      RunIsSafe(n, m, states, steps, i - 1);
      assert Steps(states[i - 1], steps[i - 1], states[i]);
      StepIsSafe(states[i - 1], steps[i - 1].cpu, steps[i - 1].act);
    }
  }

  /** No kernel assertion fails on any run. */
  lemma AssertionsHold(n: int, m: int, states: seq<State>, steps: seq<Step>, i: nat)
    requires IsRun(n, m, states, steps) && i < |steps|
    ensures Shape(states[i]) && Enabled(states[i], steps[i].cpu, steps[i].act)
    ensures Assertions(states[i], steps[i].cpu, steps[i].act)
  {
    RunIsSafe(n, m, states, steps, i);
    assert Steps(states[i], steps[i], states[i + 1]);
    StepIsSafe(states[i], steps[i].cpu, steps[i].act);
  }

  // ----- What that means -----

  ghost predicate Reachable(s: State)
  {
    exists n, m, states, steps :: IsRun(n, m, states, steps) && s == states[|steps|]
  }

  lemma ReachableIsSafe(s: State)
    requires Reachable(s)
    ensures Inv(s)
  {
    var n, m, states, steps :| IsRun(n, m, states, steps) && s == states[|steps|];
    RunIsSafe(n, m, states, steps, |steps|);
  }

  /** Each thread is linked on at most one list, at one position. */
  lemma OneListEach(s: State, l0: Link, l1: Link, i: nat, j: nat)
    requires Reachable(s) && IsPlace(s, l0) && IsPlace(s, l1) && i < |ListAt(s, l0)| && j < |ListAt(s, l1)|
    requires ListAt(s, l0)[i] == ListAt(s, l1)[j]
    ensures l0 == l1 && i == j
  {
    ReachableIsSafe(s);
    OpenLists(s);
    assert IsList(ListAt(s, l0), s.link, l0) && IsList(ListAt(s, l1), s.link, l1);
  }

  /** No thread gets lost: it is on the list its node names, or it is running. */
  lemma NobodyIsLost(s: State, t: int)
    requires Reachable(s) && t in s.link
    ensures t in s.ctx
    ensures if s.link[t].Unlinked? then exists c :: 0 <= c < |s.cpus| && s.cpus[c].cur == t
            else IsPlace(s, s.link[t]) && t in ListAt(s, s.link[t])
  {
    ReachableIsSafe(s);
    OpenLists(s);
    OpenLink(s, t);
    if !s.link[t].Unlinked? {
      assert IsList(ListAt(s, s.link[t]), s.link, s.link[t]);
    }
  }

  /** The run queue of CPU c holds only threads of CPU c. */
  lemma QueuesHoldOwnThreads(s: State, c: int, k: int)
    requires Reachable(s) && 0 <= c < |s.rq| && 0 <= k < |s.rq[c]|
    ensures s.rq[c][k] in s.tcpu && s.tcpu[s.rq[c][k]] == c
  {
    ReachableIsSafe(s);
    QueueIsOwn(s, c, k);
  }

  lemma CurrentOnOneCpu(s: State, c: int, d: int)
    requires Reachable(s) && 0 <= c < |s.cpus| && 0 <= d < |s.cpus| && s.cpus[c].cur == s.cpus[d].cur
    ensures c == d && s.cpus[c].cur in s.tcpu && s.tcpu[s.cpus[c].cur] == c
  {
    ReachableIsSafe(s);
  }

  /** Every thread that is current nowhere is inside switchframe_switch with exactly
      two raised levels counted: its own and the handed-over lock's. */
  lemma SwitchedOutCountsTwo(s: State, t: int)
    requires Reachable(s) && t in s.ctx && forall c :: 0 <= c < |s.cpus| ==> s.cpus[c].cur != t
    ensures s.ctx[t].count == 2 && Top(s.ctx[t]).Switched? && s.ctx[t].spins == 0
  {
    ReachableIsSafe(s);
    OpenContexts(s);
    assert !IsCurrent(s, t);
    assert Inside(0);
  }

  /** Interrupts are off exactly while the current thread's count is positive. */
  lemma MaskFollowsCount(s: State, c: int)
    requires Reachable(s) && 0 <= c < |s.cpus|
    ensures s.cpus[c].cur in s.ctx && s.cpus[c].irqOff == (s.ctx[s.cpus[c].cur].count > 0)
  {
    ReachableIsSafe(s);
    RunsNow(s, c);
  }

  /** Run queue locks exclude each other. */
  lemma OneHolderEach(s: State, c: int, d: int)
    requires Reachable(s) && Shape(s) && 0 <= c < |s.cpus| && 0 <= d < |s.cpus|
    requires RqHeld(TopOf(s, c), c).Some? && RqHeld(TopOf(s, c), c) == RqHeld(TopOf(s, d), d)
    ensures c == d
  {
    ReachableIsSafe(s);
    HeldRq(s, c, RqHeld(TopOf(s, c), c).value);
    HeldRq(s, d, RqHeld(TopOf(s, c), c).value);
  }

  /** A CPU parked in cpu_idle with work queued has its wakeup pending, unless the CPU
      at its run queue is just about to send it. */
  lemma NobodyIsStranded(s: State, c: int)
    requires Reachable(s) && Shape(s) && 0 <= c < |s.cpus| && TopOf(s, c).Idling? && s.rq[c] != []
    ensures s.cpus[c].ipi ||
            (s.rqLock[c].Some? && 0 <= s.rqLock[c].value < |s.cpus| && AboutToSend(TopOf(s, s.rqLock[c].value), c))
  {
    ReachableIsSafe(s);
    OpenWakeups(s);
  }

  // ----- Threads come from thread_fork and go in exorcise only -----

  predicate SamePeople(s: State, s': State)
  {
    s'.ctx.Keys == s.ctx.Keys
  }

  lemma CodeKeepsPeople(s: State, c: int, a: Action)
    requires Shape(s) && Enabled(s, c, a) && Assertions(s, c, a) && IsCodeStep(a)
    ensures SamePeople(s, ApplyCode(s, c, a))
  {
  }

  lemma WakeKeepsPeople(s: State, c: int, a: Action)
    requires Shape(s) && Enabled(s, c, a) && Assertions(s, c, a) && IsWakeStep(a)
    ensures ApplyWake(s, c, a).ctx.Keys == if a.Fork? then s.ctx.Keys + {a.child} else s.ctx.Keys
  {
  }

  lemma LeaveKeepsPeople(s: State, c: int, a: Action)
    requires Shape(s) && Enabled(s, c, a) && Assertions(s, c, a) && IsLeaveStep(a)
    ensures SamePeople(s, ApplyLeave(s, c, a))
  {
  }

  lemma SwitchingKeepsPeople(s: State, c: int, a: Action)
    requires Shape(s) && Enabled(s, c, a) && Assertions(s, c, a) && IsSwitchingStep(a)
    ensures ApplySwitching(s, c, a).ctx.Keys == if a.Exorcise? then s.ctx.Keys - {s.zombies[c][0]} else s.ctx.Keys
  {
  }

  lemma CountingKeepsPeople(s: State, c: int, a: Action)
    requires Shape(s) && Enabled(s, c, a) && Assertions(s, c, a) && IsCountingStep(a)
    ensures SamePeople(s, ApplyCounting(s, c, a))
  {
  }

  lemma PushingKeepsPeople(s: State, c: int, a: Action)
    requires Shape(s) && Enabled(s, c, a) && Assertions(s, c, a) && IsPushingStep(a)
    ensures SamePeople(s, ApplyPushing(s, c, a))
  {
  }

  /** Threads come from thread_fork and go in exorcise only; no other step, migration
      included, makes or loses one. */
  lemma Population(s: State, c: int, a: Action)
    requires Inv(s) && Enabled(s, c, a)
    ensures Assertions(s, c, a)
    ensures Apply(s, c, a).ctx.Keys ==
            if a.Fork? then s.ctx.Keys + {a.child}
            else if a.Exorcise? then s.ctx.Keys - {s.zombies[c][0]}
            else s.ctx.Keys
  {
    StepIsSafe(s, c, a);
    if IsCodeStep(a) {
      CodeKeepsPeople(s, c, a);
    } else if IsWakeStep(a) {
      WakeKeepsPeople(s, c, a);
    } else if IsLeaveStep(a) {
      LeaveKeepsPeople(s, c, a);
    } else if IsSwitchingStep(a) {
      SwitchingKeepsPeople(s, c, a);
    } else if IsCountingStep(a) {
      CountingKeepsPeople(s, c, a);
    } else {
      PushingKeepsPeople(s, c, a);
    }
  }
}
