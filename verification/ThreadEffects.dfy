/** What the steps of the thread system do to its lists, locks aside: who joins which
    list and who leaves it, and where each thread's code goes. */
module ThreadEffects {
  import opened ThreadSystem
  import opened ThreadSteps
  import opened ThreadSafety
  import opened ThreadRuns

  ghost function After(s: State, c: int, a: Action): State
    requires Inv(s) && Enabled(s, c, a)
  {
    StepIsSafe(s, c, a);
    Apply(s, c, a)
  }

  // ----- Run queues -----

  /** What is left of run queue d when somebody is taken off it: the CPU's next thread
      from the front, or the victims of migration from the end. */
  ghost function Remains(s: State, c: int, a: Action, d: int): seq<int>
    requires Shape(s) && Enabled(s, c, a) && Assertions(s, c, a) && 0 <= d < |s.rq|
  {
    if a.SwitchPick? && d == c && |s.rq[c]| > 0 then s.rq[c][1..]
    else if a.TakeVictims? && d == c then s.rq[c][..|s.rq[c]| - TopOf(s, c).send]
    else s.rq[d]
  }

  /** Who joins the end of run queue d: a thread made runnable, the running thread when
      it stays ready, a victim handed over, or the leftover victims. */
  ghost function Joiners(s: State, c: int, a: Action, d: int): seq<int>
    requires Shape(s) && Enabled(s, c, a) && Assertions(s, c, a) && 0 <= d < |s.rq|
  {
    var f, h, t := TopOf(s, c), Hand(Me(s, c)), s.cpus[c].cur;
    match a
    case WakeAdd => if d == f.dst then [h[0]] else []
    case SwitchPlace => if d == c && f.target.ToReady? then [t] else []
    case MoveOne => if d == f.i && h[0] != t then [h[0]] else []
    case ReturnVictims => if d == c then h else []
    case _ => []
  }

  ghost predicate QueuesAre(s: State, c: int, a: Action, s': State)
    requires Shape(s) && Enabled(s, c, a) && Assertions(s, c, a)
  {
    |s'.rq| == |s.rq| && forall d :: 0 <= d < |s.rq| ==> s'.rq[d] == Remains(s, c, a, d) + Joiners(s, c, a, d)
  }

  // ----- Wait channels and zombies -----

  /** wchan_wakeall empties the channel, wchan_wakeone takes its first thread, and a
      thread that goes to sleep joins the end. */
  ghost function ChannelAfter(s: State, c: int, a: Action, w: int): seq<int>
    requires Shape(s) && Enabled(s, c, a) && 0 <= w < |s.waiters|
  {
    if a == WakeAll(w) then []
    else if a == WakeOne(w) && |s.waiters[w]| > 0 then s.waiters[w][1..]
    else if a.SwitchPlace? && TopOf(s, c).target == ToSleep(w) then s.waiters[w] + [s.cpus[c].cur]
    else s.waiters[w]
  }

  ghost predicate ChannelsAre(s: State, c: int, a: Action, s': State)
    requires Shape(s) && Enabled(s, c, a)
  {
    |s'.waiters| == |s.waiters| && forall w :: 0 <= w < |s.waiters| ==> s'.waiters[w] == ChannelAfter(s, c, a, w)
  }

  ghost function ZombiesAfter(s: State, c: int, a: Action, d: int): seq<int>
    requires Shape(s) && Enabled(s, c, a) && 0 <= d < |s.zombies|
  {
    if a.SwitchPlace? && d == c && TopOf(s, c).target.ToZombie? then s.zombies[c] + [s.cpus[c].cur]
    else if a.Exorcise? && d == c then s.zombies[c][1..]
    else s.zombies[d]
  }

  ghost predicate ZombiesAre(s: State, c: int, a: Action, s': State)
    requires Shape(s) && Enabled(s, c, a)
  {
    |s'.zombies| == |s.zombies| && forall d :: 0 <= d < |s.zombies| ==> s'.zombies[d] == ZombiesAfter(s, c, a, d)
  }

  // ----- Threads in hand -----

  /** What the running code has in hand after the step: all the threads it woke, in the
      order they slept; the rest when the first is queued; the victims of migration. */
  ghost function HandAfter(s: State, c: int, a: Action): seq<int>
    requires Shape(s) && Enabled(s, c, a) && Assertions(s, c, a)
  {
    var f, h, t := TopOf(s, c), Hand(Me(s, c)), s.cpus[c].cur;
    match a
    case Fork(child) => [child]
    case WakeOne(w) => if |s.waiters[w]| > 0 then [s.waiters[w][0]] else h
    case WakeAll(w) => s.waiters[w]
    case WakeAdd => h[1..]
    case TakeVictims => s.rq[c][|s.rq[c]| - f.send..]
    case MoveOne => if h[0] == t then h[1..] + [t] else h[1..]
    case ReturnVictims => []
    case _ => h
  }

  ghost predicate HandsAre(s: State, c: int, a: Action, s': State)
    requires Shape(s) && Enabled(s, c, a) && Assertions(s, c, a)
  {
    forall t, level {:trigger HandAt(s'.ctx[t], level)} :: t in s.ctx && t in s'.ctx && 0 <= level <= 2 ==>
      HandAt(s'.ctx[t], level) ==
      if t == s.cpus[c].cur && level == Level(Me(s, c)) then HandAfter(s, c, a) else HandAt(s.ctx[t], level)
  }

  // ----- Who runs, and where a thread belongs -----

  /** A CPU goes on with its thread, or with the first one queued. */
  ghost predicate CurrentsAre(s: State, c: int, a: Action, s': State)
    requires Shape(s) && Enabled(s, c, a)
  {
    |s'.cpus| == |s.cpus| && forall d :: 0 <= d < |s.cpus| ==>
      s'.cpus[d].cur == if a.SwitchPick? && d == c && |s.rq[c]| > 0 then s.rq[c][0] else s.cpus[d].cur
  }

  /** A new thread belongs to its parent's CPU, a victim to the CPU it is handed to. */
  ghost predicate CpusAre(s: State, c: int, a: Action, s': State)
    requires Shape(s) && Enabled(s, c, a) && Assertions(s, c, a)
  {
    forall t :: t in s'.tcpu ==>
      && (t !in s.tcpu ==> a == Fork(t) && s'.tcpu[t] == c)
      && (t in s.tcpu ==>
            s'.tcpu[t] == if a.MoveOne? && t == Hand(Me(s, c))[0] && t != s.cpus[c].cur then TopOf(s, c).i else s.tcpu[t])
  }

  /** An interrupt is sent when a thread is queued at an idle CPU, and taken in a handler. */
  ghost predicate IpisAre(s: State, c: int, a: Action, s': State)
    requires Shape(s) && Enabled(s, c, a)
  {
    |s'.cpus| == |s.cpus| && forall d :: 0 <= d < |s.cpus| ==>
      s'.cpus[d].ipi ==
      if a.WakeIpi? && d == TopOf(s, c).dst then true
      else if a.MoveIpi? && d == TopOf(s, c).i && s.cpus[d].isidle then true
      else if a.TakeIpi? && d == c then false
      else s.cpus[d].ipi
  }

  ghost predicate ListsAre(s: State, c: int, a: Action, s': State)
    requires Shape(s) && Enabled(s, c, a) && Assertions(s, c, a)
  {
    && QueuesAre(s, c, a, s') && ChannelsAre(s, c, a, s') && ZombiesAre(s, c, a, s')
    && CurrentsAre(s, c, a, s') && CpusAre(s, c, a, s') && IpisAre(s, c, a, s')
  }

  // ----- Steps that leave the lists alone -----

  /** The steps that move threads. */
  predicate MovesThreads(a: Action)
  {
    a.Fork? || a.WakeOne? || a.WakeAll? || a.WakeAdd? || a.SwitchPlace? || a.SwitchPick? || a.Exorcise? || a.TakeVictims? || a.MoveOne? || a.ReturnVictims?
  }

  ghost predicate Quiet(s: State, s': State)
  {
    && s'.rq == s.rq && s'.waiters == s.waiters && s'.zombies == s.zombies && s'.tcpu == s.tcpu && |s'.cpus| == |s.cpus|
    && forall d :: 0 <= d < |s.cpus| ==> s'.cpus[d].cur == s.cpus[d].cur
  }

  lemma CodeIsQuiet(s: State, c: int, a: Action)
    requires Shape(s) && Enabled(s, c, a) && Assertions(s, c, a) && IsCodeStep(a) && !MovesThreads(a)
    ensures Quiet(s, ApplyCode(s, c, a)) && IpisAre(s, c, a, ApplyCode(s, c, a))
  {
  }

  lemma WakeIsQuiet(s: State, c: int, a: Action)
    requires Shape(s) && Enabled(s, c, a) && Assertions(s, c, a) && IsWakeStep(a) && !MovesThreads(a)
    ensures Quiet(s, ApplyWake(s, c, a)) && IpisAre(s, c, a, ApplyWake(s, c, a))
  {
  }

  lemma LeaveIsQuiet(s: State, c: int, a: Action)
    requires Shape(s) && Enabled(s, c, a) && Assertions(s, c, a) && IsLeaveStep(a) && !MovesThreads(a)
    ensures Quiet(s, ApplyLeave(s, c, a)) && IpisAre(s, c, a, ApplyLeave(s, c, a))
  {
  }

  lemma SwitchingIsQuiet(s: State, c: int, a: Action)
    requires Shape(s) && Enabled(s, c, a) && Assertions(s, c, a) && IsSwitchingStep(a) && !MovesThreads(a)
    ensures Quiet(s, ApplySwitching(s, c, a)) && IpisAre(s, c, a, ApplySwitching(s, c, a))
  {
  }

  lemma CountingIsQuiet(s: State, c: int, a: Action)
    requires Shape(s) && Enabled(s, c, a) && Assertions(s, c, a) && IsCountingStep(a) && !MovesThreads(a)
    ensures Quiet(s, ApplyCounting(s, c, a)) && IpisAre(s, c, a, ApplyCounting(s, c, a))
  {
  }

  lemma PushingIsQuiet(s: State, c: int, a: Action)
    requires Shape(s) && Enabled(s, c, a) && Assertions(s, c, a) && IsPushingStep(a) && !MovesThreads(a)
    ensures Quiet(s, ApplyPushing(s, c, a))
  {
  }

  lemma PushingIpis(s: State, c: int, a: Action)
    requires Shape(s) && Enabled(s, c, a) && Assertions(s, c, a) && IsPushingStep(a) && !MovesThreads(a)
    ensures IpisAre(s, c, a, ApplyPushing(s, c, a))
  {
  }

  lemma QuietLists(s: State, c: int, a: Action, s': State)
    requires Shape(s) && Enabled(s, c, a) && Assertions(s, c, a) && !MovesThreads(a) && Quiet(s, s') && IpisAre(s, c, a, s')
    ensures ListsAre(s, c, a, s')
  {
    QuietQueues(s, c, a, s');
    QuietWaiters(s, c, a, s');
    QuietCpus(s, c, a, s');
  }

  lemma QuietWaiters(s: State, c: int, a: Action, s': State)
    requires Shape(s) && Enabled(s, c, a) && !MovesThreads(a) && Quiet(s, s')
    ensures ChannelsAre(s, c, a, s') && ZombiesAre(s, c, a, s')
  {
  }

  lemma QuietCpus(s: State, c: int, a: Action, s': State)
    requires Shape(s) && Enabled(s, c, a) && Assertions(s, c, a) && !MovesThreads(a) && Quiet(s, s')
    ensures CurrentsAre(s, c, a, s') && CpusAre(s, c, a, s')
  {
  }

  lemma QuietQueues(s: State, c: int, a: Action, s': State)
    requires Shape(s) && Enabled(s, c, a) && Assertions(s, c, a) && !MovesThreads(a) && s'.rq == s.rq
    ensures QueuesAre(s, c, a, s')
  {
    forall d | 0 <= d < |s.rq|
      ensures s'.rq[d] == Remains(s, c, a, d) + Joiners(s, c, a, d)
    {
      NobodyJoins(s, c, a, d);
    }
  }

  lemma NobodyJoins(s: State, c: int, a: Action, d: int)
    requires Shape(s) && Enabled(s, c, a) && Assertions(s, c, a) && 0 <= d < |s.rq| && !MovesThreads(a)
    ensures Remains(s, c, a, d) + Joiners(s, c, a, d) == s.rq[d]
  {
    assert s.rq[d] + [] == s.rq[d];
  }

  // ----- Steps that move threads -----

  lemma ForkLists(s: State, c: int, child: int)
    requires Shape(s) && Enabled(s, c, Fork(child)) && Assertions(s, c, Fork(child))
    ensures ListsAre(s, c, Fork(child), Apply(s, c, Fork(child)))
  {
  }

  lemma WakeOneLists(s: State, c: int, w: int)
    requires Shape(s) && Enabled(s, c, WakeOne(w)) && Assertions(s, c, WakeOne(w))
    ensures ListsAre(s, c, WakeOne(w), Apply(s, c, WakeOne(w)))
  {
  }

  lemma WakeAllLists(s: State, c: int, w: int)
    requires Shape(s) && Enabled(s, c, WakeAll(w)) && Assertions(s, c, WakeAll(w))
    ensures ListsAre(s, c, WakeAll(w), Apply(s, c, WakeAll(w)))
  {
  }

  lemma WakeAddLists(s: State, c: int)
    requires Shape(s) && Enabled(s, c, WakeAdd) && Assertions(s, c, WakeAdd)
    ensures ListsAre(s, c, WakeAdd, Apply(s, c, WakeAdd))
  {
  }

  lemma SwitchPlaceLists(s: State, c: int)
    requires Shape(s) && Enabled(s, c, SwitchPlace) && Assertions(s, c, SwitchPlace)
    ensures ListsAre(s, c, SwitchPlace, Apply(s, c, SwitchPlace))
  {
    PlacedLists(s, c);
    PlacedCpus(s, c);
  }

  lemma PlacedLists(s: State, c: int)
    requires Shape(s) && Enabled(s, c, SwitchPlace) && Assertions(s, c, SwitchPlace)
    ensures var s' := Apply(s, c, SwitchPlace); QueuesAre(s, c, SwitchPlace, s') && ChannelsAre(s, c, SwitchPlace, s') && ZombiesAre(s, c, SwitchPlace, s')
  {
  }

  lemma PlacedCpus(s: State, c: int)
    requires Shape(s) && Enabled(s, c, SwitchPlace) && Assertions(s, c, SwitchPlace)
    ensures var s' := Apply(s, c, SwitchPlace); CurrentsAre(s, c, SwitchPlace, s') && CpusAre(s, c, SwitchPlace, s') && IpisAre(s, c, SwitchPlace, s')
  {
  }

  lemma SwitchPickLists(s: State, c: int)
    requires Shape(s) && Enabled(s, c, SwitchPick) && Assertions(s, c, SwitchPick)
    ensures ListsAre(s, c, SwitchPick, Apply(s, c, SwitchPick))
  {
  }

  lemma ExorciseLists(s: State, c: int)
    requires Shape(s) && Enabled(s, c, Exorcise) && Assertions(s, c, Exorcise)
    ensures ListsAre(s, c, Exorcise, Apply(s, c, Exorcise))
  {
  }

  lemma TakeVictimsLists(s: State, c: int)
    requires Shape(s) && Enabled(s, c, TakeVictims) && Assertions(s, c, TakeVictims)
    ensures ListsAre(s, c, TakeVictims, Apply(s, c, TakeVictims))
  {
  }

  lemma MoveOneLists(s: State, c: int)
    requires Shape(s) && Enabled(s, c, MoveOne) && Assertions(s, c, MoveOne)
    ensures ListsAre(s, c, MoveOne, Apply(s, c, MoveOne))
  {
  }

  lemma ReturnVictimsLists(s: State, c: int)
    requires Shape(s) && Enabled(s, c, ReturnVictims) && Assertions(s, c, ReturnVictims)
    ensures ListsAre(s, c, ReturnVictims, Apply(s, c, ReturnVictims))
  {
  }

  // ----- Where the code goes -----

  /** The frames the innermost one will go back to. */
  function Under(cx: Context): seq<Frame>
  {
    if !cx.soft.Absent? then [cx.own, cx.hard, cx.switch]
    else if !cx.switch.Absent? then [cx.own, cx.hard]
    else if !cx.hard.Absent? then [cx.own]
    else []
  }

  /** The next frame of an operation that goes on, or ends where it was called. */
  ghost function NextFrame(s: State, c: int, a: Action): Frame
    requires Shape(s) && Enabled(s, c, a) && Assertions(s, c, a)
  {
    var me, f, h := Me(s, c), TopOf(s, c), Hand(Me(s, c));
    var done := if me.hard.Absent? && me.soft.Absent? then Code else Handler;
    match a
    case Fork(_) => Waking
    case WakeOne(w) => if |s.waiters[w]| > 0 then Waking else f
    case WakeAll(_) => Waking
    case WakeLock => Adding(s.tcpu[h[0]])
    case WakeAdd => Added(f.dst, s.cpus[f.dst].isidle)
    case WakeIpi => Added(f.dst, false)
    case WakeRelease => Waking
    case WakeDone => done
    case LockWchan(w) => Locked(w)
    case UnlockWchan => done
    case SwitchLock => Placing(f.target, f.saved)
    case SwitchPlace => Picking(f.saved)
    case SwitchPick => if |s.rq[c]| > 0 then Switched(f.saved) else Idling(f.saved)
    case IdleReturn => Rousing(f.saved)
    case IdleRelock => Picking(f.saved)
    case SwitchResume => Cleaning(f.saved)
    case Migrate => Counting(0, 0, 0)
    case CountOne => Counting(f.i + 1, if f.i == c then |s.rq[c]| else f.mine, f.total + |s.rq[f.i]|)
    case CountDone =>
      var share := (f.total + |s.cpus| - 1) / |s.cpus|;
      if f.mine < share then done else Taking(f.mine - share, share)
    case TakeVictims => Pushing(0, f.send, f.share)
    case PushNext => if f.i < |s.cpus| && f.send != 0 then Pushing(f.i + 1, f.send, f.share) else Returning
    case PushLock => Moving(f.i, f.send, f.share)
    case MoveOne => if h[0] == s.cpus[c].cur then Moving(f.i, f.send - 1, f.share) else Moved(f.i, f.send - 1, f.share)
    case MoveIpi => Moving(f.i, f.send, f.share)
    case PushUnlock => Pushing(f.i + 1, f.send, f.share)
    case ReturnVictims => done
    case _ => f
  }

  /** thread_switch is over: its frame is gone and the interrupt level is the one it began with. */
  ghost predicate SwitchOver(me: Context, me': Context, saved: int)
  {
    me'.switch.Absent? && me'.spl == saved && me'.own == me.own && me'.hard == me.hard && me'.soft == me.soft
  }

  /** thread_switch begins with interrupts off, remembering the level there was. */
  ghost predicate SwitchBegins(me: Context, me': Context, target: Target, saved: int)
  {
    me'.switch == Entered(target, saved) && me'.spl == 1 && me'.own == Code && me'.hard == me.hard && me'.soft == me.soft
  }

  /** The innermost frame has been replaced. */
  ghost predicate Advances(me: Context, me': Context, f: Frame, spl: int)
  {
    Top(me') == f && Under(me') == Under(me) && me'.spl == spl
  }

  /** What a step makes of the running thread's frames and interrupt level. */
  ghost predicate GoesOn(s: State, c: int, a: Action, me': Context)
    requires Shape(s) && Enabled(s, c, a) && Assertions(s, c, a)
  {
    var me, f := Me(s, c), TopOf(s, c);
    match a
    case Sleep => SwitchBegins(me, me', ToSleep(f.wchan), me.spl)
    case Exit => SwitchBegins(me, me', ToZombie, 1)
    case Yield =>
      if s.cpus[c].isidle then me' == me
      else me'.switch == Entered(ToReady, me.spl) && me'.spl == 1 && me'.own == me.own && me'.hard == me.hard && me'.soft == me.soft
    case SwitchDone => SwitchOver(me, me', f.saved)
    case Interrupt => me'.hard == Handler && me'.spl == 1 && me'.own == me.own && me'.switch == me.switch && me'.soft == me.soft
    case IdleInterrupt => me'.soft == Handler && me'.spl == me.spl && me'.own == me.own && me'.switch == me.switch && me'.hard == me.hard
    case InterruptReturn =>
      && me'.own == me.own
      && if me.soft.Absent? then me'.hard.Absent? && me'.spl == 0 && me'.switch == me.switch && me'.soft.Absent?
         else me'.soft.Absent? && me'.spl == me.spl && me.switch.Idling? && me'.switch == Rousing(me.switch.saved) && me'.hard == me.hard
    case SwitchLock =>
      if f.target.ToReady? && s.rq[c] == [] then SwitchOver(me, me', f.saved) else Advances(me, me', NextFrame(s, c, a), me.spl)
    case SplHigh => Advances(me, me', f, 1)
    case SplZero => Advances(me, me', f, 0)
    case _ => Advances(me, me', NextFrame(s, c, a), me.spl)
  }

  // ----- The running thread's context -----

  /** The steps that put the innermost level at its next frame and leave the others. */
  predicate Proceeds(s: State, c: int, a: Action)
    requires Shape(s) && Enabled(s, c, a)
  {
    if a.SwitchLock? then !TopOf(s, c).target.ToReady? || s.rq[c] != []
    else !IsCodeStep(a) && !a.Sleep? && !a.Yield? && !a.Exit? && !a.SwitchDone? && !a.Exorcise?
  }

  /** The context before its innermost frame is replaced. */
  ghost function Before(s: State, c: int, a: Action): Context
    requires Shape(s) && Enabled(s, c, a) && Assertions(s, c, a)
  {
    var me, f, k := Me(s, c), TopOf(s, c), CoreOf(s, c);
    match a
    case WakeOne(w) => if |s.waiters[w]| > 0 then SetHand(me, [s.waiters[w][0]]) else me
    case Fork(_) => SetHand(me, HandAfter(s, c, a))
    case WakeAll(_) => SetHand(me, HandAfter(s, c, a))
    case WakeAdd => SetHand(me, HandAfter(s, c, a))
    case TakeVictims => SetHand(me, HandAfter(s, c, a))
    case MoveOne => SetHand(me, HandAfter(s, c, a))
    case ReturnVictims => SetHand(me, [])
    case WakeLock => Raise(k).cx
    case LockWchan(_) => Raise(k).cx
    case SwitchLock => Raise(k).cx
    case IdleRelock => Raise(k).cx
    case PushLock => Raise(k).cx
    case WakeRelease => Lower(k).cx
    case UnlockWchan => Lower(k).cx
    case PushUnlock => Lower(k).cx
    case SwitchResume => Lower(k).cx.(state := Running)
    case SwitchPick => if |s.rq[c]| > 0 then me else Lower(k).cx
    case SwitchPlace =>
      (match f.target
       case ToReady => me.(state := Ready)
       case ToSleep(_) => Lower(k).cx.(state := Sleeping)
       case ToZombie => me.(state := Zombie))
    case _ => me
  }

  ghost predicate SameFrames(me: Context, b: Context)
  {
    b.own == me.own && b.hard == me.hard && b.switch == me.switch && b.soft == me.soft && b.spl == me.spl
  }

  lemma SetHandIs(me: Context, h: seq<int>)
    ensures SameFrames(me, SetHand(me, h)) && HandAt(SetHand(me, h), Level(me)) == h && 0 <= Level(me) <= 2
    ensures forall level :: 0 <= level <= 2 && level != Level(me) ==> HandAt(SetHand(me, h), level) == HandAt(me, level)
  {
  }

  lemma HandIs(me: Context)
    ensures HandAt(me, Level(me)) == Hand(me)
  {
  }

  lemma SetTopIs(me: Context, b: Context, f: Frame)
    requires SameFrames(me, b) && !f.Absent?
    ensures var cx := SetTop(b, f); Top(cx) == f && Under(cx) == Under(me) && cx.spl == me.spl
    ensures forall level :: HandAt(SetTop(b, f), level) == HandAt(b, level)
  {
  }

  /** Only the hand at the running level may change before the frame does. */
  lemma BeforeIs(s: State, c: int, a: Action)
    requires Shape(s) && Enabled(s, c, a) && Assertions(s, c, a) && Proceeds(s, c, a)
    ensures SameFrames(Me(s, c), Before(s, c, a)) && !NextFrame(s, c, a).Absent?
    ensures forall level :: 0 <= level <= 2 ==>
              HandAt(Before(s, c, a), level) == if level == Level(Me(s, c)) then HandAfter(s, c, a) else HandAt(Me(s, c), level)
  {
    SetHandIs(Me(s, c), HandAfter(s, c, a));
    HandIs(Me(s, c));
  }

  /** The running thread's new context, and nobody else's. */
  ghost predicate OnlyMine(s: State, c: int, s': State, cx: Context)
    requires Shape(s) && 0 <= c < |s.cpus|
  {
    && s.cpus[c].cur in s'.ctx && s'.ctx[s.cpus[c].cur] == cx
    && forall t :: t in s.ctx && t in s'.ctx && t != s.cpus[c].cur ==> s'.ctx[t] == s.ctx[t]
  }

  lemma WakingProceeds(s: State, c: int, a: Action)
    requires Shape(s) && Enabled(s, c, a) && Assertions(s, c, a) && (a.Fork? || a.WakeOne? || a.WakeAll?)
    ensures OnlyMine(s, c, ApplyWake(s, c, a), SetTop(Before(s, c, a), NextFrame(s, c, a)))
  {
    assert a.WakeOne? && |s.waiters[a.w]| > 0 ==> s.waiters[a.w][..1] == [s.waiters[a.w][0]];
    assert a.WakeAll? ==> s.waiters[a.w][..|s.waiters[a.w]|] == s.waiters[a.w];
  }

  lemma QueueingProceeds(s: State, c: int, a: Action)
    requires Shape(s) && Enabled(s, c, a) && Assertions(s, c, a) && IsWakeStep(a) && !a.Fork? && !a.WakeOne? && !a.WakeAll?
    ensures OnlyMine(s, c, ApplyWake(s, c, a), SetTop(Before(s, c, a), NextFrame(s, c, a)))
  {
  }

  lemma LockingProceeds(s: State, c: int, a: Action)
    requires Shape(s) && Enabled(s, c, a) && Assertions(s, c, a) && Proceeds(s, c, a) && IsLeaveStep(a)
    ensures OnlyMine(s, c, ApplyLeave(s, c, a), SetTop(Before(s, c, a), NextFrame(s, c, a)))
  {
  }

  lemma SwitchingProceeds(s: State, c: int, a: Action)
    requires Shape(s) && Enabled(s, c, a) && Assertions(s, c, a) && Proceeds(s, c, a) && (a.SwitchLock? || a.SwitchPlace? || a.SwitchPick?)
    ensures OnlyMine(s, c, ApplySwitching(s, c, a), SetTop(Before(s, c, a), NextFrame(s, c, a)))
  {
  }

  lemma ResumingProceeds(s: State, c: int, a: Action)
    requires Shape(s) && Enabled(s, c, a) && Assertions(s, c, a) && (a.IdleReturn? || a.IdleRelock? || a.SwitchResume?)
    ensures OnlyMine(s, c, ApplySwitching(s, c, a), SetTop(Before(s, c, a), NextFrame(s, c, a)))
  {
  }

  lemma CountingProceeds(s: State, c: int, a: Action)
    requires Shape(s) && Enabled(s, c, a) && Assertions(s, c, a) && Proceeds(s, c, a) && IsCountingStep(a)
    ensures OnlyMine(s, c, ApplyCounting(s, c, a), SetTop(Before(s, c, a), NextFrame(s, c, a)))
  {
  }

  lemma PushingProceeds(s: State, c: int, a: Action)
    requires Shape(s) && Enabled(s, c, a) && Assertions(s, c, a) && (a.PushNext? || a.PushLock?)
    ensures OnlyMine(s, c, ApplyPushing(s, c, a), SetTop(Before(s, c, a), NextFrame(s, c, a)))
  {
  }

  lemma PushedProceeds(s: State, c: int, a: Action)
    requires Shape(s) && Enabled(s, c, a) && Assertions(s, c, a) && (a.MoveIpi? || a.PushUnlock?)
    ensures OnlyMine(s, c, ApplyPushing(s, c, a), SetTop(Before(s, c, a), NextFrame(s, c, a)))
  {
  }

  lemma HandingProceeds(s: State, c: int, a: Action)
    requires Shape(s) && Enabled(s, c, a) && Assertions(s, c, a) && (a.MoveOne? || a.ReturnVictims?)
    ensures OnlyMine(s, c, ApplyPushing(s, c, a), SetTop(Before(s, c, a), NextFrame(s, c, a)))
  {
  }

  // ----- The other steps -----

  /** The threads in hand stay there, and the other threads' contexts as they are. */
  ghost predicate HandsKept(s: State, c: int, s': State)
    requires Shape(s) && 0 <= c < |s.cpus|
  {
    && s.cpus[c].cur in s'.ctx
    && (var me, me' := Me(s, c), s'.ctx[s.cpus[c].cur]; me'.hand0 == me.hand0 && me'.hand1 == me.hand1 && me'.hand2 == me.hand2)
    && forall t :: t in s.ctx && t in s'.ctx && t != s.cpus[c].cur ==> s'.ctx[t] == s.ctx[t]
  }

  lemma CodeGoesOn(s: State, c: int, a: Action)
    requires Shape(s) && Enabled(s, c, a) && Assertions(s, c, a) && IsCodeStep(a) && ContextOk(Me(s, c), true)
    ensures HandsKept(s, c, ApplyCode(s, c, a)) && GoesOn(s, c, a, ApplyCode(s, c, a).ctx[s.cpus[c].cur])
  {
    assert Inside(0);
  }

  lemma SleepGoesOn(s: State, c: int)
    requires Shape(s) && Enabled(s, c, Sleep) && Assertions(s, c, Sleep) && ContextOk(Me(s, c), true)
    ensures HandsKept(s, c, Apply(s, c, Sleep)) && GoesOn(s, c, Sleep, Apply(s, c, Sleep).ctx[s.cpus[c].cur])
  {
    assert Inside(0);
  }

  lemma YieldGoesOn(s: State, c: int)
    requires Shape(s) && Enabled(s, c, Yield) && Assertions(s, c, Yield)
    ensures HandsKept(s, c, Apply(s, c, Yield)) && GoesOn(s, c, Yield, Apply(s, c, Yield).ctx[s.cpus[c].cur])
  {
  }

  lemma ExitGoesOn(s: State, c: int)
    requires Shape(s) && Enabled(s, c, Exit) && Assertions(s, c, Exit) && ContextOk(Me(s, c), true)
    ensures HandsKept(s, c, Apply(s, c, Exit)) && GoesOn(s, c, Exit, Apply(s, c, Exit).ctx[s.cpus[c].cur])
  {
    assert Inside(0);
  }

  lemma LeavingGoesOn(s: State, c: int, a: Action)
    requires Shape(s) && Enabled(s, c, a) && Assertions(s, c, a) && (a.Sleep? || a.Yield? || a.Exit?) && ContextOk(Me(s, c), true)
    ensures HandsKept(s, c, Apply(s, c, a)) && GoesOn(s, c, a, Apply(s, c, a).ctx[s.cpus[c].cur])
  {
    match a
    case Sleep => SleepGoesOn(s, c);
    case Yield => YieldGoesOn(s, c);
    case Exit => ExitGoesOn(s, c);
  }

  lemma SwitchEndGoesOn(s: State, c: int, a: Action)
    requires Shape(s) && Enabled(s, c, a) && Assertions(s, c, a) && (a.SwitchLock? || a.SwitchDone?) && !Proceeds(s, c, a)
    ensures HandsKept(s, c, ApplySwitching(s, c, a)) && GoesOn(s, c, a, ApplySwitching(s, c, a).ctx[s.cpus[c].cur])
  {
  }

  lemma ExorciseGoesOn(s: State, c: int)
    requires Shape(s) && Enabled(s, c, Exorcise) && Assertions(s, c, Exorcise)
    ensures HandsKept(s, c, Apply(s, c, Exorcise)) && GoesOn(s, c, Exorcise, Apply(s, c, Exorcise).ctx[s.cpus[c].cur])
  {
  }

  lemma ProceedsIs(s: State, c: int, a: Action, s': State)
    requires Shape(s) && Enabled(s, c, a) && Assertions(s, c, a) && Proceeds(s, c, a)
    requires OnlyMine(s, c, s', SetTop(Before(s, c, a), NextFrame(s, c, a)))
    ensures HandsAre(s, c, a, s') && GoesOn(s, c, a, s'.ctx[s.cpus[c].cur])
  {
    BeforeIs(s, c, a);
    SetTopIs(Me(s, c), Before(s, c, a), NextFrame(s, c, a));
  }

  lemma KeptHands(s: State, c: int, a: Action, s': State)
    requires Shape(s) && Enabled(s, c, a) && Assertions(s, c, a) && !Proceeds(s, c, a) && HandsKept(s, c, s')
    ensures HandsAre(s, c, a, s')
  {
    HandIs(Me(s, c));
    SameInHand(s, c, a);
  }

  lemma SameInHand(s: State, c: int, a: Action)
    requires Shape(s) && Enabled(s, c, a) && Assertions(s, c, a) && !Proceeds(s, c, a)
    ensures HandAfter(s, c, a) == Hand(Me(s, c))
  {
  }

  // ----- What every step does -----

  /** Run queues, wait channels, zombie lists, current threads, t_cpu and pending
      interrupts change in these ways only. */
  lemma ListsChange(s: State, c: int, a: Action)
    requires Inv(s) && Enabled(s, c, a)
    ensures Assertions(s, c, a) && ListsAre(s, c, a, After(s, c, a))
  {
    StepIsSafe(s, c, a);
    if MovesThreads(a) {
      MovingLists(s, c, a);
    } else {
      IsQuiet(s, c, a);
      QuietLists(s, c, a, Apply(s, c, a));
    }
  }

  lemma MovingLists(s: State, c: int, a: Action)
    requires Shape(s) && Enabled(s, c, a) && Assertions(s, c, a) && MovesThreads(a)
    ensures ListsAre(s, c, a, Apply(s, c, a))
  {
    match a
    case Fork(child) => ForkLists(s, c, child);
    case WakeOne(w) => WakeOneLists(s, c, w);
    case WakeAll(w) => WakeAllLists(s, c, w);
    case WakeAdd => WakeAddLists(s, c);
    case SwitchPlace => SwitchPlaceLists(s, c);
    case SwitchPick => SwitchPickLists(s, c);
    case Exorcise => ExorciseLists(s, c);
    case TakeVictims => TakeVictimsLists(s, c);
    case MoveOne => MoveOneLists(s, c);
    case ReturnVictims => ReturnVictimsLists(s, c);
  }

  lemma IsQuiet(s: State, c: int, a: Action)
    requires Shape(s) && Enabled(s, c, a) && Assertions(s, c, a) && !MovesThreads(a)
    ensures Quiet(s, Apply(s, c, a)) && IpisAre(s, c, a, Apply(s, c, a))
  {
    if IsCodeStep(a) {
      CodeIsQuiet(s, c, a);
    } else if IsWakeStep(a) {
      WakeIsQuiet(s, c, a);
    } else if IsLeaveStep(a) {
      LeaveIsQuiet(s, c, a);
    } else if IsSwitchingStep(a) {
      SwitchingIsQuiet(s, c, a);
    } else if IsCountingStep(a) {
      CountingIsQuiet(s, c, a);
    } else {
      PushingIsQuiet(s, c, a);
      PushingIpis(s, c, a);
    }
  }

  /** The running thread's code goes on, or calls, or returns, in these ways only; and
      these are the threads in hand. */
  lemma CodeGoes(s: State, c: int, a: Action)
    requires Inv(s) && Enabled(s, c, a)
    ensures Assertions(s, c, a) && HandsAre(s, c, a, After(s, c, a))
    ensures s.cpus[c].cur in After(s, c, a).ctx && GoesOn(s, c, a, After(s, c, a).ctx[s.cpus[c].cur])
  {
    StepIsSafe(s, c, a);
    RunsNow(s, c);
    if Proceeds(s, c, a) {
      StepProceeds(s, c, a);
      ProceedsIs(s, c, a, Apply(s, c, a));
    } else {
      StepKeepsHands(s, c, a);
    }
  }

  lemma EndsGoOn(s: State, c: int, a: Action)
    requires Shape(s) && Enabled(s, c, a) && Assertions(s, c, a) && !Proceeds(s, c, a) && ContextOk(Me(s, c), true)
    ensures HandsKept(s, c, Apply(s, c, a)) && GoesOn(s, c, a, Apply(s, c, a).ctx[s.cpus[c].cur])
  {
    if IsCodeStep(a) {
      CodeGoesOn(s, c, a);
    } else if IsLeaveStep(a) {
      LeavingGoesOn(s, c, a);
    } else if a.Exorcise? {
      ExorciseGoesOn(s, c);
    } else {
      SwitchEndGoesOn(s, c, a);
    }
  }

  lemma StepKeepsHands(s: State, c: int, a: Action)
    requires Shape(s) && Enabled(s, c, a) && Assertions(s, c, a) && !Proceeds(s, c, a) && ContextOk(Me(s, c), true)
    ensures HandsAre(s, c, a, Apply(s, c, a))
    ensures s.cpus[c].cur in Apply(s, c, a).ctx && GoesOn(s, c, a, Apply(s, c, a).ctx[s.cpus[c].cur])
  {
    EndsGoOn(s, c, a);
    KeptHands(s, c, a, Apply(s, c, a));
  }

  lemma StepProceeds(s: State, c: int, a: Action)
    requires Shape(s) && Enabled(s, c, a) && Assertions(s, c, a) && Proceeds(s, c, a)
    ensures OnlyMine(s, c, Apply(s, c, a), SetTop(Before(s, c, a), NextFrame(s, c, a)))
  {
    if IsWakeStep(a) {
      if a.Fork? || a.WakeOne? || a.WakeAll? {
        WakingProceeds(s, c, a);
      } else {
        QueueingProceeds(s, c, a);
      }
    } else if IsLeaveStep(a) {
      LockingProceeds(s, c, a);
    } else if IsSwitchingStep(a) {
      if a.SwitchLock? || a.SwitchPlace? || a.SwitchPick? {
        SwitchingProceeds(s, c, a);
      } else {
        ResumingProceeds(s, c, a);
      }
    } else if IsCountingStep(a) {
      CountingProceeds(s, c, a);
    } else if a.MoveOne? || a.ReturnVictims? {
      HandingProceeds(s, c, a);
    } else if a.MoveIpi? || a.PushUnlock? {
      PushedProceeds(s, c, a);
    } else {
      PushingProceeds(s, c, a);
    }
  }

  /** A step changes no other thread's context. */
  lemma OthersAre(s: State, c: int, a: Action, t: int)
    requires Inv(s) && Enabled(s, c, a) && t in s.ctx && t != s.cpus[c].cur
    ensures Assertions(s, c, a) && (t in After(s, c, a).ctx ==> After(s, c, a).ctx[t] == s.ctx[t])
  {
    StepIsSafe(s, c, a);
    RunsNow(s, c);
    if Proceeds(s, c, a) {
      StepProceeds(s, c, a);
    } else {
      EndsGoOn(s, c, a);
    }
  }
}
