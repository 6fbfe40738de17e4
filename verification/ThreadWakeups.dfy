/** What sleeping and waking come to over whole runs: whoever is woken is queued, whoever
    slept was woken, and thread_switch gives the interrupt level back. */
module ThreadWakeups {
  import opened ThreadSystem
  import opened ThreadSteps
  import opened ThreadSafety
  import opened ThreadLocalSteps
  import opened ThreadListSteps
  import opened ThreadRuns
  import opened ThreadEffects

  /** The frame of the code that works at a level: the thread's own, a handler's, or that
      of a handler taken while idling. */
  function WorkAt(cx: Context, level: int): Frame
  {
    if level == 0 then cx.own else if level == 1 then cx.hard else cx.soft
  }

  // ----- From the hand to the run queue -----

  /** The code at that level is waking threads, and has u in hand. */
  ghost predicate HasInHand(s: State, t: int, level: int, u: int)
  {
    t in s.ctx && 0 <= level <= 2 && IsWaking(WorkAt(s.ctx[t], level)) && u in HandAt(s.ctx[t], level)
  }

  /** Thread t queues u, at the end of the run queue of u's CPU. */
  ghost predicate Queues(s: State, c: int, a: Action, s': State, t: int, u: int)
  {
    && 0 <= c < |s.cpus| && s.cpus[c].cur == t && a == WakeAdd
    && u in s.tcpu && u in s'.tcpu && s'.tcpu[u] == s.tcpu[u] && 0 <= s.tcpu[u] < |s.rq| == |s'.rq|
    && s'.rq[s.tcpu[u]] == s.rq[s.tcpu[u]] + [u]
  }

  lemma EmptyHanded(cx: Context, level: int)
    requires ContextOk(cx, false) && cx.hard.Absent? && 0 <= level <= 2
    ensures HandAt(cx, level) == []
  {
    assert Inside(0);
  }

  /** A thread that is being destroyed has nothing in hand. */
  lemma ZombieIsEmptyHanded(s: State, c: int, level: int)
    requires Inv(s) && Enabled(s, c, Exorcise) && 0 <= level <= 2
    ensures s.zombies[c][0] in s.ctx && HandAt(s.ctx[s.zombies[c][0]], level) == []
  {
    var z := s.zombies[c][0];
    StepIsSafe(s, c, Exorcise);
    OpenLists(s);
    assert IsList(ListAt(s, OnZombies(c)), s.link, OnZombies(c));
    OpenLink(s, z);
    OpenContexts(s);
    assert ContextOk(s.ctx[z], IsCurrent(s, z));
    EmptyHanded(s.ctx[z], level);
  }

  /** A thread goes on being there while it has somebody in hand. */
  lemma StaysThere(s: State, c: int, a: Action, t: int, level: int)
    requires Inv(s) && Enabled(s, c, a) && t in s.ctx && 0 <= level <= 2 && HandAt(s.ctx[t], level) != []
    ensures t in After(s, c, a).ctx
  {
    Population(s, c, a);
    if a.Exorcise? {
      ZombieIsEmptyHanded(s, c, level);
    }
  }

  /** A level that is not running is left alone. */
  lemma LowerWork(s: State, c: int, a: Action, me': Context, level: int)
    requires Shape(s) && Enabled(s, c, a) && Assertions(s, c, a) && GoesOn(s, c, a, me')
    requires ContextOk(Me(s, c), true) && 0 <= level < Level(Me(s, c))
    ensures WorkAt(me', level) == WorkAt(Me(s, c), level)
  {
    assert Inside(0);
  }

  lemma LowerLevelStays(s: State, c: int, a: Action, level: int)
    requires Inv(s) && Enabled(s, c, a) && 0 <= level < Level(Me(s, c))
    ensures s.cpus[c].cur in After(s, c, a).ctx
    ensures var me' := After(s, c, a).ctx[s.cpus[c].cur];
            WorkAt(me', level) == WorkAt(Me(s, c), level) && HandAt(me', level) == HandAt(Me(s, c), level)
  {
    RunsNow(s, c);
    CodeGoes(s, c, a);
    LowerWork(s, c, a, After(s, c, a).ctx[s.cpus[c].cur], level);
    LevelRange(Me(s, c));
  }

  lemma LevelRange(me: Context)
    ensures 0 <= Level(me) <= 2
  {
  }

  /** Where the code at a level that is waking is. */
  lemma WakingLevels(me: Context, level: int)
    requires ContextOk(me, true) && 0 <= level <= 2 && IsWaking(WorkAt(me, level))
    ensures level <= Level(me)
    ensures level == Level(me) ==> Top(me) == WorkAt(me, level) && (me.switch.Absent? || level == 2) && HandAt(me, level) == Hand(me)
  {
    assert Inside(0);
  }

  /** With threads in hand, waking goes on, or an interrupt breaks into it. */
  lemma WakingActions(s: State, c: int, a: Action)
    requires Shape(s) && Enabled(s, c, a) && Assertions(s, c, a) && IsWaking(TopOf(s, c)) && Hand(Me(s, c)) != []
    requires ContextOk(Me(s, c), true)
    ensures a.Interrupt? || a.WakeLock? || a.WakeAdd? || a.WakeIpi? || a.WakeRelease?
    ensures a.Interrupt? ==> Level(Me(s, c)) == 0
  {
    assert Inside(0);
  }

  lemma AdvancesAtLevel(me: Context, me': Context, f: Frame, spl: int)
    requires Advances(me, me', f, spl) && (me.switch.Absent? || !me.soft.Absent?)
    ensures WorkAt(me', Level(me)) == f
  {
  }

  lemma WakingGoesOn(s: State, c: int, a: Action, me': Context)
    requires Shape(s) && Enabled(s, c, a) && Assertions(s, c, a) && GoesOn(s, c, a, me')
    requires IsWaking(TopOf(s, c)) && (Me(s, c).switch.Absent? || !Me(s, c).soft.Absent?) && IsWaking(WorkAt(Me(s, c), Level(Me(s, c))))
    requires (a.Interrupt? && Level(Me(s, c)) == 0) || a.WakeLock? || a.WakeAdd? || a.WakeIpi? || a.WakeRelease?
    ensures IsWaking(WorkAt(me', Level(Me(s, c))))
  {
    if !a.Interrupt? {
      AdvancesAtLevel(Me(s, c), me', NextFrame(s, c, a), Me(s, c).spl);
    }
  }

  /** The running level goes on waking while somebody is in hand, and the first in hand
      is queued. */
  lemma RunningLevelWakes(s: State, c: int, a: Action, u: int)
    requires Inv(s) && Enabled(s, c, a)
    requires HasInHand(s, s.cpus[c].cur, Level(Me(s, c)), u)
    ensures HasInHand(After(s, c, a), s.cpus[c].cur, Level(Me(s, c)), u) || Queues(s, c, a, After(s, c, a), s.cpus[c].cur, u)
  {
    var me := Me(s, c);
    RunsNow(s, c);
    WakingLevels(me, Level(me));
    LevelRange(me);
    CodeGoes(s, c, a);
    WakingActions(s, c, a);
    WakingGoesOn(s, c, a, After(s, c, a).ctx[s.cpus[c].cur]);
    if a.WakeAdd? && u == Hand(me)[0] {
      FirstIsQueued(s, c);
    }
  }

  lemma FirstIsQueued(s: State, c: int)
    requires Inv(s) && Enabled(s, c, WakeAdd) && Hand(Me(s, c)) != []
    ensures Queues(s, c, WakeAdd, After(s, c, WakeAdd), s.cpus[c].cur, Hand(Me(s, c))[0])
  {
    StepIsSafe(s, c, WakeAdd);
    ListsChange(s, c, WakeAdd);
    NowFrame(s, c);
  }

  /** Whatever any CPU does, a thread in hand stays there or is queued. */
  lemma InHandOrQueued(s: State, c: int, a: Action, t: int, level: int, u: int)
    requires Inv(s) && Enabled(s, c, a) && HasInHand(s, t, level, u)
    ensures HasInHand(After(s, c, a), t, level, u) || Queues(s, c, a, After(s, c, a), t, u)
  {
    StaysThere(s, c, a, t, level);
    if t != s.cpus[c].cur {
      OthersAre(s, c, a, t);
    } else {
      RunsNow(s, c);
      WakingLevels(Me(s, c), level);
      if level < Level(Me(s, c)) {
        LowerLevelStays(s, c, a, level);
      } else {
        RunningLevelWakes(s, c, a, u);
      }
    }
  }

  lemma RunStep(n: int, m: int, states: seq<State>, steps: seq<Step>, i: nat)
    requires IsRun(n, m, states, steps) && i < |steps|
    ensures Inv(states[i]) && Enabled(states[i], steps[i].cpu, steps[i].act)
    ensures states[i + 1] == After(states[i], steps[i].cpu, steps[i].act)
  {
    RunIsSafe(n, m, states, steps, i);
    AssertionsHold(n, m, states, steps, i);
    assert Steps(states[i], steps[i], states[i + 1]);
  }

  /** Thread t queues u in step k of the run. */
  ghost predicate QueuedAt(states: seq<State>, steps: seq<Step>, k: int, t: int, u: int)
  {
    0 <= k < |steps| && k + 1 < |states| && Queues(states[k], steps[k].cpu, steps[k].act, states[k + 1], t, u)
  }

  /** A thread in the hand of one that wakes leaves it only for the run queue of its CPU. */
  lemma {:induction false} WokenAreQueued(n: int, m: int, states: seq<State>, steps: seq<Step>, i: nat, j: nat, t: int, level: int, u: int)
    requires IsRun(n, m, states, steps) && i <= j < |states|
    requires HasInHand(states[i], t, level, u) && !HasInHand(states[j], t, level, u)
    ensures exists k :: i <= k < j && QueuedAt(states, steps, k, t, u)
    decreases j - i
  {
    RunStep(n, m, states, steps, i);
    InHandOrQueued(states[i], steps[i].cpu, steps[i].act, t, level, u);
    if Queues(states[i], steps[i].cpu, steps[i].act, states[i + 1], t, u) {
      assert QueuedAt(states, steps, i, t, u);
    } else {
      WokenAreQueued(n, m, states, steps, i + 1, j, t, level, u);
    }
  }

  // ----- wchan_wakeall and wchan_wakeone -----

  /** The threads woken: all that sleep on the channel, or the first one. */
  function Woken(s: State, a: Action): seq<int>
    requires (a.WakeOne? || a.WakeAll?) && 0 <= a.w < |s.waiters|
  {
    if a.WakeAll? then s.waiters[a.w] else if |s.waiters[a.w]| > 0 then [s.waiters[a.w][0]] else []
  }

  lemma WakesAll(s: State, c: int, a: Action)
    requires Inv(s) && Enabled(s, c, a) && (a.WakeOne? || a.WakeAll?)
    ensures 0 <= a.w < |s.waiters|
    ensures var s', t := After(s, c, a), s.cpus[c].cur;
            && |s'.waiters| == |s.waiters| && t in s'.ctx
            && s.waiters[a.w] == Woken(s, a) + s'.waiters[a.w]
            && (forall w :: 0 <= w < |s.waiters| && w != a.w ==> s'.waiters[w] == s.waiters[w])
            && (|s.waiters[a.w]| > 0 ==> HandAt(s'.ctx[t], Level(Me(s, c))) == Woken(s, a))
    ensures forall u :: u in Woken(s, a) ==> HasInHand(After(s, c, a), s.cpus[c].cur, Level(Me(s, c)), u)
  {
    var t := s.cpus[c].cur;
    ListsChange(s, c, a);
    CodeGoes(s, c, a);
    LevelRange(Me(s, c));
    RunsNow(s, c);
    if |s.waiters[a.w]| > 0 {
      CallerWakes(s, c, a, After(s, c, a).ctx[t]);
    }
  }

  lemma OwnCodeLevels(me: Context)
    requires ContextOk(me, true) && OwnCode(Top(me))
    ensures me.switch.Absent? || !me.soft.Absent?
  {
    assert Inside(0);
  }

  lemma CallerWakes(s: State, c: int, a: Action, me': Context)
    requires Shape(s) && Enabled(s, c, a) && Assertions(s, c, a) && GoesOn(s, c, a, me') && (a.WakeOne? || a.WakeAll?)
    requires ContextOk(Me(s, c), true) && 0 <= a.w < |s.waiters| && |s.waiters[a.w]| > 0
    ensures IsWaking(WorkAt(me', Level(Me(s, c))))
  {
    OwnCodeLevels(Me(s, c));
    AdvancesAtLevel(Me(s, c), me', Waking, Me(s, c).spl);
  }

  /** Code that is done waking has nobody in hand. */
  lemma DoneIsEmptyHanded(s: State, t: int, level: int, u: int)
    requires t in s.ctx ==> !IsWaking(WorkAt(s.ctx[t], level))
    ensures !HasInHand(s, t, level, u)
  {
  }

  /** wchan_wakeall empties the channel and wchan_wakeone takes its first thread off; and
      by the time the caller is back in its own code each of the threads woken has been
      put on the run queue of its CPU, by the caller. */
  lemma EveryoneWokenIsQueued(n: int, m: int, states: seq<State>, steps: seq<Step>, i: nat, j: nat, u: int)
    requires IsRun(n, m, states, steps) && i < j < |states| && (steps[i].act.WakeOne? || steps[i].act.WakeAll?)
    requires 0 <= steps[i].act.w < |states[i].waiters| && u in Woken(states[i], steps[i].act)
    requires Shape(states[i]) && 0 <= steps[i].cpu < |states[i].cpus|
    requires var t, level := states[i].cpus[steps[i].cpu].cur, Level(Me(states[i], steps[i].cpu));
             t in states[j].ctx ==> !IsWaking(WorkAt(states[j].ctx[t], level))
    ensures |states[i + 1].waiters| == |states[i].waiters|
    ensures steps[i].act.WakeAll? ==> states[i + 1].waiters[steps[i].act.w] == []
    ensures steps[i].act.WakeOne? ==> states[i].waiters[steps[i].act.w] == [u] + states[i + 1].waiters[steps[i].act.w]
    ensures exists k :: i < k < j && QueuedAt(states, steps, k, states[i].cpus[steps[i].cpu].cur, u)
  {
    var t, level := states[i].cpus[steps[i].cpu].cur, Level(Me(states[i], steps[i].cpu));
    RunStep(n, m, states, steps, i);
    WakesAll(states[i], steps[i].cpu, steps[i].act);
    DoneIsEmptyHanded(states[j], t, level, u);
    WokenAreQueued(n, m, states, steps, i + 1, j, t, level, u);
  }

  // ----- Sleeping -----

  /** Thread t sleeps on channel w, or is on its way there with the channel locked. */
  ghost predicate Asleep(s: State, t: int, w: int)
  {
    && t in s.ctx && t in s.link && 0 <= w < |s.waiters|
    && (t in s.waiters[w] || ((s.ctx[t].switch.Entered? || s.ctx[t].switch.Placing?) && s.ctx[t].switch.target == ToSleep(w)))
  }

  /** The step wakes t, which slept on w. */
  ghost predicate Wakes(s: State, c: int, a: Action, s': State, t: int, w: int)
  {
    && (a == WakeOne(w) || a == WakeAll(w))
    && 0 <= w < |s.waiters| == |s'.waiters| && t in s.waiters[w] && t !in s'.waiters[w]
  }

  /** A thread on a list is inside thread_switch. */
  lemma ListedIsSwitching(s: State, t: int)
    requires Inv(s) && t in s.ctx && !s.link[t].Unlinked?
    ensures !s.ctx[t].switch.Absent?
  {
    Open(s);
    assert LinkOk(s, t);
    assert ContextOk(s.ctx[t], IsCurrent(s, t));
    assert Inside(0);
  }

  /** A sleeping thread is not back from thread_switch. */
  lemma AsleepIsInside(s: State, t: int, w: int)
    requires Inv(s) && Asleep(s, t, w)
    ensures !s.ctx[t].switch.Absent?
  {
    if t in s.waiters[w] {
      OpenLists(s);
      assert IsList(ListAt(s, OnWchan(w)), s.link, OnWchan(w));
      ListedIsSwitching(s, t);
    }
  }

  /** A channel keeps its threads but for those a wakeup on it takes. */
  lemma StaysOnChannel(s: State, c: int, a: Action, t: int, w: int)
    requires Inv(s) && Enabled(s, c, a) && 0 <= w < |s.waiters| && t in s.waiters[w]
    ensures Wakes(s, c, a, After(s, c, a), t, w) || (w < |After(s, c, a).waiters| && t in After(s, c, a).waiters[w])
  {
    ListsChange(s, c, a);
  }

  /** thread_switch on its way to a wait channel. */
  predicate OnItsWay(cx: Context, w: int)
  {
    (cx.switch.Entered? || cx.switch.Placing?) && cx.switch.target == ToSleep(w)
  }

  lemma OnItsWayRuns(cx: Context, current: bool, w: int)
    requires ContextOk(cx, current) && OnItsWay(cx, w)
    ensures current && Top(cx) == cx.switch && cx.soft.Absent? && cx.spl == 1
  {
    assert Inside(0);
  }

  lemma OnItsWayGoesOn(s: State, c: int, a: Action, w: int, me': Context)
    requires Shape(s) && Enabled(s, c, a) && Assertions(s, c, a) && GoesOn(s, c, a, me')
    requires OnItsWay(Me(s, c), w) && TopOf(s, c) == Me(s, c).switch && Me(s, c).soft.Absent? && Me(s, c).spl == 1
    ensures OnItsWay(me', w) || a.SwitchPlace?
  {
  }

  lemma OnListIsThere(s: State, t: int, w: int)
    requires Inv(s) && 0 <= w < |s.waiters| && t in s.waiters[w]
    ensures t in s.ctx && t in s.link
  {
    OpenLists(s);
    assert IsList(ListAt(s, OnWchan(w)), s.link, OnWchan(w));
  }

  lemma SleeperStays(s: State, c: int, a: Action, t: int, w: int)
    requires Inv(s) && Enabled(s, c, a) && 0 <= w < |s.waiters| && t in s.waiters[w]
    ensures Asleep(After(s, c, a), t, w) || Wakes(s, c, a, After(s, c, a), t, w)
  {
    StaysOnChannel(s, c, a, t, w);
    StepIsSafe(s, c, a);
    if !Wakes(s, c, a, After(s, c, a), t, w) {
      OnListIsThere(After(s, c, a), t, w);
    }
  }

  /** A thread on its way to the channel is the running one. */
  lemma WalkerRuns(s: State, t: int, w: int)
    requires Inv(s) && t in s.ctx && OnItsWay(s.ctx[t], w)
    ensures IsCurrent(s, t) && Top(s.ctx[t]) == s.ctx[t].switch && s.ctx[t].soft.Absent? && s.ctx[t].spl == 1
  {
    OpenContexts(s);
    assert ContextOk(s.ctx[t], IsCurrent(s, t));
    OnItsWayRuns(s.ctx[t], IsCurrent(s, t), w);
  }

  lemma StaysAsleep(s: State, c: int, a: Action, t: int, w: int)
    requires Inv(s) && Enabled(s, c, a) && Asleep(s, t, w)
    ensures Asleep(After(s, c, a), t, w) || Wakes(s, c, a, After(s, c, a), t, w)
  {
    if t in s.waiters[w] {
      SleeperStays(s, c, a, t, w);
    } else {
      WalkerStays(s, c, a, t, w);
    }
  }

  /** The running thread goes on, or gets on the channel. */
  lemma WalkerGoesOn(s: State, c: int, a: Action, w: int)
    requires Inv(s) && Enabled(s, c, a) && 0 <= w < |s.waiters| && OnItsWay(Me(s, c), w)
    ensures var s', t := After(s, c, a), s.cpus[c].cur;
            t in s'.ctx && |s'.waiters| == |s.waiters| && (OnItsWay(s'.ctx[t], w) || t in s'.waiters[w])
  {
    WalkerRuns(s, s.cpus[c].cur, w);
    ListsChange(s, c, a);
    CodeGoes(s, c, a);
    OnItsWayGoesOn(s, c, a, w, After(s, c, a).ctx[s.cpus[c].cur]);
  }

  lemma WalkerStays(s: State, c: int, a: Action, t: int, w: int)
    requires Inv(s) && Enabled(s, c, a) && t in s.ctx && 0 <= w < |s.waiters| && OnItsWay(s.ctx[t], w)
    ensures Asleep(After(s, c, a), t, w)
  {
    StepIsSafe(s, c, a);
    if t == s.cpus[c].cur {
      WalkerGoesOn(s, c, a, w);
    } else {
      WalkerRuns(s, t, w);
      OthersAre(s, c, a, t);
      CurrentStays(s, c, a, t);
    }
  }

  /** Nobody destroys a thread that runs on another CPU. */
  lemma CurrentStays(s: State, c: int, a: Action, t: int)
    requires Inv(s) && Enabled(s, c, a) && t in s.ctx && IsCurrent(s, t)
    ensures t in After(s, c, a).ctx && |After(s, c, a).waiters| == |s.waiters|
  {
    Population(s, c, a);
    ListsChange(s, c, a);
  }

  ghost predicate WokenAt(states: seq<State>, steps: seq<Step>, k: int, t: int, w: int)
  {
    0 <= k < |steps| && k + 1 < |states| && Wakes(states[k], steps[k].cpu, steps[k].act, states[k + 1], t, w)
  }

  /** Who sleeps on a channel comes back from thread_switch only after a wakeup on that
      channel has taken it off the channel. */
  lemma {:induction false} SleepersAreWoken(n: int, m: int, states: seq<State>, steps: seq<Step>, i: nat, j: nat, t: int, w: int)
    requires IsRun(n, m, states, steps) && i <= j < |states| && Asleep(states[i], t, w)
    requires t in states[j].ctx ==> states[j].ctx[t].switch.Absent?
    ensures exists k :: i <= k < j && WokenAt(states, steps, k, t, w)
    decreases j - i
  {
    RunIsSafe(n, m, states, steps, i);
    AsleepIsInside(states[i], t, w);
    RunStep(n, m, states, steps, i);
    StaysAsleep(states[i], steps[i].cpu, steps[i].act, t, w);
    if Wakes(states[i], steps[i].cpu, steps[i].act, states[i + 1], t, w) {
      assert WokenAt(states, steps, i, t, w);
    } else {
      SleepersAreWoken(n, m, states, steps, i + 1, j, t, w);
    }
  }

  /** wchan_sleep puts its caller to sleep on the channel the caller has locked. */
  lemma SleepIsAsleep(s: State, c: int, w: int)
    requires Inv(s) && Enabled(s, c, Sleep) && TopOf(s, c) == Locked(w)
    ensures Asleep(After(s, c, Sleep), s.cpus[c].cur, w)
  {
    ListsChange(s, c, Sleep);
    Population(s, c, Sleep);
    CodeGoes(s, c, Sleep);
    OpenLocks(s);
    HeldW(s, c, w);
  }

  // ----- The interrupt level across thread_switch -----

  /** While thread_switch goes on it remembers the level, and when it ends that is the level. */
  lemma SavedIsKept(s: State, c: int, a: Action, t: int)
    requires Inv(s) && Enabled(s, c, a) && t in s.ctx && IsSwitch(s.ctx[t].switch) && t in After(s, c, a).ctx
    ensures var now := After(s, c, a).ctx[t];
            if now.switch.Absent? then now.spl == s.ctx[t].switch.saved
            else IsSwitch(now.switch) && now.switch.saved == s.ctx[t].switch.saved
  {
    if t != s.cpus[c].cur {
      OthersAre(s, c, a, t);
    } else {
      RunsNow(s, c);
      CodeGoes(s, c, a);
      SwitchGoesOn(s, c, a, After(s, c, a).ctx[t]);
    }
  }

  lemma SwitchGoesOn(s: State, c: int, a: Action, me': Context)
    requires Shape(s) && Enabled(s, c, a) && Assertions(s, c, a) && GoesOn(s, c, a, me') && ContextOk(Me(s, c), true)
    requires IsSwitch(Me(s, c).switch) && s.cpus[c].isidle == Parked(Me(s, c))
    ensures if me'.switch.Absent? then me'.spl == Me(s, c).switch.saved
            else IsSwitch(me'.switch) && me'.switch.saved == Me(s, c).switch.saved
  {
    SwitchLevels(Me(s, c));
    if Me(s, c).soft.Absent? {
      SwitchRuns(s, c, a, me');
    } else {
      SwitchWaits(s, c, a, me');
    }
  }

  lemma SwitchLevels(me: Context)
    requires ContextOk(me, true) && IsSwitch(me.switch)
    ensures me.spl == 1
    ensures !me.soft.Absent? ==> me.switch.Idling? && Top(me) == me.soft && !IsSwitch(me.soft) && !me.soft.Code? && !me.soft.Locked?
  {
    assert Inside(0);
  }

  /** thread_switch is what runs. */
  lemma SwitchRuns(s: State, c: int, a: Action, me': Context)
    requires Shape(s) && Enabled(s, c, a) && Assertions(s, c, a) && GoesOn(s, c, a, me')
    requires IsSwitch(Me(s, c).switch) && Me(s, c).soft.Absent? && Me(s, c).spl == 1
    ensures if me'.switch.Absent? then me'.spl == Me(s, c).switch.saved
            else IsSwitch(me'.switch) && me'.switch.saved == Me(s, c).switch.saved
  {
  }

  /** A handler that came in while the CPU idled runs. */
  lemma SwitchWaits(s: State, c: int, a: Action, me': Context)
    requires Shape(s) && Enabled(s, c, a) && Assertions(s, c, a) && GoesOn(s, c, a, me') && s.cpus[c].isidle
    requires var me := Me(s, c);
             me.switch.Idling? && me.spl == 1 && !me.soft.Absent? && !IsSwitch(me.soft) && !me.soft.Code? && !me.soft.Locked?
    ensures IsSwitch(me'.switch) && me'.switch.saved == Me(s, c).switch.saved
  {
  }

  /** thread_switch is called at i and over at j: the interrupt level is the one before. */
  lemma {:induction false} SwitchRestoresSpl(n: int, m: int, states: seq<State>, steps: seq<Step>, i: nat, j: nat, t: int)
    requires IsRun(n, m, states, steps) && i < j < |states|
    requires t in states[i].ctx && IsSwitch(states[i].ctx[t].switch)
    requires forall k :: i <= k < j ==> t in states[k].ctx && IsSwitch(states[k].ctx[t].switch)
    requires t in states[j].ctx && states[j].ctx[t].switch.Absent?
    ensures states[j].ctx[t].spl == states[i].ctx[t].switch.saved
    decreases j - i
  {
    RunStep(n, m, states, steps, i);
    assert t in states[i + 1].ctx;
    SavedIsKept(states[i], steps[i].cpu, steps[i].act, t);
    if i + 1 < j {
      SwitchRestoresSpl(n, m, states, steps, i + 1, j, t);
    }
  }

  /** What the callers of thread_switch have it remember: the level they run at. */
  lemma SwitchIsEntered(s: State, c: int, a: Action)
    requires Inv(s) && Enabled(s, c, a) && (a.Sleep? || (a.Yield? && !s.cpus[c].isidle))
    ensures s.cpus[c].cur in After(s, c, a).ctx
    ensures var now := After(s, c, a).ctx[s.cpus[c].cur];
            now.switch == Entered(if a.Sleep? then ToSleep(TopOf(s, c).wchan) else ToReady, Me(s, c).spl)
  {
    CodeGoes(s, c, a);
  }
}
