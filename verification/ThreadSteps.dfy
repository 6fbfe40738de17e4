/** The steps of the thread system, action by action. */
module ThreadSteps {
  import opened ThreadSystem

  datatype Action =
    // a thread's own code and interrupt handlers
    | SplHigh | SplZero | SpinAcquire | SpinRelease
    | Interrupt | IdleInterrupt | InterruptReturn | TakeIpi
    // making threads runnable
    | Fork(child: int) | WakeOne(w: int) | WakeAll(w: int)
    | WakeLock | WakeAdd | WakeIpi | WakeRelease | WakeDone
    // giving up the CPU
    | LockWchan(w: int) | UnlockWchan | Sleep | Yield | Exit
    | SwitchLock | SwitchPlace | SwitchPick | IdleReturn | IdleRelock | SwitchResume | Exorcise | SwitchDone
    // migration
    | Migrate | CountOne | CountDone | TakeVictims | PushNext | PushLock | MoveOne | MoveIpi | PushUnlock | ReturnVictims

  function Me(s: State, c: int): Context
    requires Shape(s) && 0 <= c < |s.cpus|
  {
    s.ctx[s.cpus[c].cur]
  }

  // ----- spl.c: the running thread's context and its CPU's interrupt mask -----

  datatype Core = Core(irqOff: bool, cx: Context)

  function CoreOf(s: State, c: int): Core
    requires Shape(s) && 0 <= c < |s.cpus|
  {
    Core(s.cpus[c].irqOff, Me(s, c))
  }

  /** splraise */
  function Raise(k: Core): Core
  {
    Core(if k.cx.count == 0 then true else k.irqOff, k.cx.(count := k.cx.count + 1))
  }

  /** spllower */
  function Lower(k: Core): Core
  {
    Core(if k.cx.count - 1 == 0 then false else k.irqOff, k.cx.(count := k.cx.count - 1))
  }

  /** splx */
  function SplX(k: Core, spl: int): Core
  {
    if k.cx.spl < spl then
      var r := Raise(k);
      r.(cx := r.cx.(spl := spl))
    else if k.cx.spl > spl then
      Lower(k.(cx := k.cx.(spl := spl)))
    else k
  }

  function Goto(k: Core, f: Frame): Core
  {
    k.(cx := SetTop(k.cx, f))
  }

  /** Go to f with the threads h in hand. */
  function GotoWith(k: Core, f: Frame, h: seq<int>): Core
  {
    k.(cx := SetTop(SetHand(k.cx, h), f))
  }

  /** Back to the code that called. */
  function Finish(k: Core): Core
  {
    Goto(k, Outside(k.cx))
  }

  /** thread_switch up to the point where it wants the run queue lock. */
  function Enter(k: Core, target: Target): Core
  {
    var r := SplX(k, 1);
    r.(cx := r.cx.(switch := Entered(target, k.cx.spl)))
  }

  /** The end of thread_switch. */
  function Leave(k: Core, saved: int): Core
  {
    SplX(k.(cx := k.cx.(switch := Absent)), saved)
  }

  // ----- Writing it back -----

  function Put(s: State, c: int, k: Core): State
    requires 0 <= c < |s.cpus|
  {
    s.(ctx := s.ctx[s.cpus[c].cur := k.cx], cpus := s.cpus[c := s.cpus[c].(irqOff := k.irqOff)])
  }

  function SetRqLock(s: State, d: int, l: Option<int>): State
    requires 0 <= d < |s.rqLock|
  {
    s.(rqLock := s.rqLock[d := l])
  }

  function SetWLock(s: State, w: int, l: Option<int>): State
    requires 0 <= w < |s.wLock|
  {
    s.(wLock := s.wLock[w := l])
  }

  function SetIdle(s: State, c: int, idle: bool): State
    requires 0 <= c < |s.cpus|
  {
    s.(cpus := s.cpus[c := s.cpus[c].(isidle := idle)])
  }

  function SetIpi(s: State, c: int, on: bool): State
    requires 0 <= c < |s.cpus|
  {
    s.(cpus := s.cpus[c := s.cpus[c].(ipi := on)])
  }

  // ----- threadlist.c: where a node is linked -----

  function Relink(link: map<int, Link>, ts: seq<int>, l: Link): map<int, Link>
  {
    map t | t in link :: if t in ts then l else link[t]
  }

  /** The link of what the running code has in hand. */
  function Mine(s: State, c: int): Link
    requires Shape(s) && 0 <= c < |s.cpus|
  {
    InHand(s.cpus[c].cur, Level(Me(s, c)))
  }

  // ----- Enabledness: where the code is, and the locks it waits for -----

  predicate OwnCode(f: Frame)
  {
    f.Code? || f.Handler?
  }

  predicate RqFree(s: State, d: int)
  {
    0 <= d < |s.rqLock| && s.rqLock[d].None?
  }

  predicate WFree(s: State, w: int)
  {
    0 <= w < |s.wLock| && s.wLock[w].None?
  }

  predicate Enabled(s: State, c: int, a: Action)
    requires Shape(s)
  {
    0 <= c < |s.cpus| &&
    var me, f := Me(s, c), TopOf(s, c);
    match a
    case SplHigh => f.Code?
    case SplZero => f.Code?
    case SpinAcquire => OwnCode(f)
    case SpinRelease => (OwnCode(f) || f.Locked?) && me.spins > 0
    case Interrupt => !s.cpus[c].irqOff
    case IdleInterrupt => f.Idling?
    case InterruptReturn => f.Handler? && me.spins == 0
    case TakeIpi => f.Handler?
    case Fork(child) => f.Code? && child !in s.ctx
    case WakeOne(w) => OwnCode(f) && WFree(s, w)
    case WakeAll(w) => OwnCode(f) && WFree(s, w)
    case WakeLock => f.Waking? && Hand(me) != [] && Hand(me)[0] in s.tcpu && RqFree(s, s.tcpu[Hand(me)[0]])
    case WakeAdd => f.Adding?
    case WakeIpi => f.Added? && f.unidle
    case WakeRelease => f.Added? && !f.unidle
    case WakeDone => f.Waking? && Hand(me) == []
    case LockWchan(w) => f.Code? && WFree(s, w)
    case UnlockWchan => f.Locked?
    case Sleep => f.Locked? && me.spins == 0
    case Yield => OwnCode(f) && me.spins == 0
    case Exit => f.Code? && me.spins == 0
    case SwitchLock => f.Entered? && RqFree(s, c)
    case SwitchPlace => f.Placing?
    case SwitchPick => f.Picking?
    case IdleReturn => f.Idling?
    case IdleRelock => f.Rousing? && RqFree(s, c)
    case SwitchResume => f.Switched?
    case Exorcise => f.Cleaning? && s.zombies[c] != []
    case SwitchDone => f.Cleaning? && s.zombies[c] == []
    case Migrate => f.Handler? && me.spins == 0
    case CountOne => f.Counting? && 0 <= f.i < |s.cpus| && RqFree(s, f.i)
    case CountDone => f.Counting? && f.i >= |s.cpus|
    case TakeVictims => f.Taking? && RqFree(s, c)
    case PushNext => f.Pushing? && (f.i >= |s.cpus| || f.send == 0 || f.i == c)
    case PushLock => f.Pushing? && 0 <= f.i < |s.cpus| && f.send > 0 && f.i != c && RqFree(s, f.i)
    case MoveOne => f.Moving? && 0 <= f.i < |s.cpus| && |s.rq[f.i]| < f.share && f.send > 0
    case MoveIpi => f.Moved?
    case PushUnlock => f.Moving? && 0 <= f.i < |s.cpus| && !(|s.rq[f.i]| < f.share && f.send > 0)
    case ReturnVictims => f.Returning? && (Hand(me) == [] || RqFree(s, c))
  }

  /** What the kernel asserts, or silently relies on, at a step: nodes are unlinked
      when they are linked, lists are not empty when an element is taken, nobody
      waits for a spinlock its own CPU holds, exorcise never meets a live thread. */
  predicate Assertions(s: State, c: int, a: Action)
    requires Shape(s) && Enabled(s, c, a)
  {
    var me, f, t := Me(s, c), TopOf(s, c), s.cpus[c].cur;
    match a
    case SpinRelease => me.count > 0
    case Interrupt => me.spl == 0 && me.count == 0
    case InterruptReturn => me.spl == 1 && me.count == 1
    case WakeAdd =>
      0 <= f.dst < |s.cpus| && Hand(me) != [] && Hand(me)[0] in s.link && s.link[Hand(me)[0]] == Mine(s, c) && s.rqLock[f.dst] == Some(c)
    case WakeIpi => 0 <= f.dst < |s.cpus|
    case WakeRelease => 0 <= f.dst < |s.cpus| && s.rqLock[f.dst] == Some(c)
    case UnlockWchan => 0 <= f.wchan < |s.wLock| && s.wLock[f.wchan] == Some(c)
    case SwitchPlace =>
      && s.link[t] == Unlinked && s.rqLock[c] == Some(c) && !s.cpus[c].isidle
      && (f.target.ToSleep? ==> 0 <= f.target.wchan < |s.wLock| && s.wLock[f.target.wchan] == Some(c))
    case SwitchPick =>
      && s.rqLock[c] == Some(c) && s.cpus[c].isidle
      && (s.rq[c] != [] ==> var next := s.rq[c][0]; next in s.ctx && (next == t || Top(s.ctx[next]).Switched?))
    case SwitchResume => s.rqLock[c] == Some(c) && me.count == 2
    case Exorcise =>
      var z := s.zombies[c][0];
      z in s.ctx && s.ctx[z].state == Zombie && forall d :: 0 <= d < |s.cpus| ==> s.cpus[d].cur != z
    case TakeVictims => 0 <= f.send <= |s.rq[c]|
    case MoveOne => Hand(me) != [] && Hand(me)[0] in s.tcpu && s.rqLock[f.i] == Some(c)
    case MoveIpi => 0 <= f.i < |s.cpus|
    case PushUnlock => s.rqLock[f.i] == Some(c)
    case _ => true
  }

  // ----- Effects -----

  /** Queue the current thread where its new state says, and mark the CPU idle. */
  function Place(s: State, c: int, target: Target, saved: int): State
    requires Shape(s) && 0 <= c < |s.cpus| && (target.ToSleep? ==> 0 <= target.wchan < |s.wLock|)
  {
    var t, k := s.cpus[c].cur, Goto(CoreOf(s, c), Picking(saved));
    var s1 := SetIdle(s, c, true);
    match target
    case ToReady =>
      Put(s1.(rq := s.rq[c := s.rq[c] + [t]], link := s.link[t := OnRunq(c)]), c, k.(cx := k.cx.(state := Ready)))
    case ToSleep(w) =>
      Put(SetWLock(s1, w, None).(waiters := s.waiters[w := s.waiters[w] + [t]], link := s.link[t := OnWchan(w)]), c,
          Lower(k.(cx := k.cx.(state := Sleeping))))
    case ToZombie =>
      Put(s1.(zombies := s.zombies[c := s.zombies[c] + [t]], link := s.link[t := OnZombies(c)]), c, k.(cx := k.cx.(state := Zombie)))
  }

  /** Make the head of the run queue current; the old thread stays behind inside
      switchframe_switch. */
  function SwitchTo(s: State, c: int, saved: int): State
    requires Shape(s) && 0 <= c < |s.cpus| && s.rq[c] != []
  {
    var next := s.rq[c][0];
    var s1 := Put(s, c, Goto(CoreOf(s, c), Switched(saved)));
    s1.(rq := s.rq[c := s.rq[c][1..]], link := s.link[next := Unlinked],
        cpus := s1.cpus[c := s1.cpus[c].(cur := next, isidle := false)])
  }

  /** Take the first zombie off the list and destroy it. */
  function Bury(s: State, c: int): State
    requires Shape(s) && 0 <= c < |s.cpus| && s.zombies[c] != []
  {
    var z := s.zombies[c][0];
    s.(zombies := s.zombies[c := s.zombies[c][1..]], ctx := s.ctx - {z}, link := s.link - {z}, tcpu := s.tcpu - {z})
  }

  /** Pick the next thread, or go idle. */
  function Pick(s: State, c: int, saved: int): State
    requires Shape(s) && 0 <= c < |s.cpus|
  {
    if s.rq[c] == [] then Put(SetRqLock(s, c, None), c, Goto(Lower(CoreOf(s, c)), Idling(saved)))
    else SwitchTo(s, c, saved)
  }

  /** thread_fork: a new context that will come out of switchframe_switch into
      thread_startup, on the parent's CPU. */
  function Born(s: State, c: int, child: int): State
    requires Shape(s) && 0 <= c < |s.cpus|
  {
    var s1 := Put(s, c, GotoWith(CoreOf(s, c), Waking, [child]));
    s1.(ctx := s1.ctx[child := Context(Code, Absent, Switched(0), Absent, [], [], [], 1, 2, 0, Ready)],
        link := s.link[child := Mine(s, c)],
        tcpu := s.tcpu[child := s.tcpu[s.cpus[c].cur]])
  }

  /** thread_switch once the run queue lock is free: with nothing else to run, a
      thread that stays ready keeps the CPU. */
  function TakeOwnLock(s: State, c: int, target: Target, saved: int): State
    requires Shape(s) && 0 <= c < |s.cpus|
  {
    if target.ToReady? && s.rq[c] == [] then Put(s, c, Leave(CoreOf(s, c), saved))
    else Put(SetRqLock(s, c, Some(c)), c, Goto(Raise(CoreOf(s, c)), Placing(target, saved)))
  }

  /** Take threads off the wait channel in hand. */
  function TakeWaiters(s: State, c: int, w: int, n: int): State
    requires Shape(s) && 0 <= c < |s.cpus| && 0 <= w < |s.waiters| && 0 <= n <= |s.waiters[w]|
  {
    var ts := s.waiters[w][..n];
    Put(s.(waiters := s.waiters[w := s.waiters[w][n..]], link := Relink(s.link, ts, Mine(s, c))), c,
        GotoWith(CoreOf(s, c), Waking, ts))
  }

  /** thread_make_runnable: queue the first thread in hand on CPU d. */
  function AddFirst(s: State, c: int, d: int): State
    requires Shape(s) && 0 <= c < |s.cpus| && 0 <= d < |s.cpus| && Hand(Me(s, c)) != []
  {
    var t, rest := Hand(Me(s, c))[0], Hand(Me(s, c))[1..];
    Put(s.(rq := s.rq[d := s.rq[d] + [t]], link := s.link[t := OnRunq(d)]), c,
        GotoWith(CoreOf(s, c), Added(d, s.cpus[d].isidle), rest))
  }

  /** Take the last threads of the own run queue in hand. */
  function TakeTail(s: State, c: int, send: int, share: int): State
    requires Shape(s) && 0 <= c < |s.cpus| && 0 <= send <= |s.rq[c]|
  {
    var k := |s.rq[c]| - send;
    var victims := s.rq[c][k..];
    Put(s.(rq := s.rq[c := s.rq[c][..k]], link := Relink(s.link, victims, Mine(s, c))), c,
        GotoWith(CoreOf(s, c), Pushing(0, send, share), victims))
  }

  /** Hand the first victim over to CPU i, except the current thread, which goes to
      the end of the victims. */
  function MoveFirst(s: State, c: int, i: int, send: int, share: int): State
    requires Shape(s) && 0 <= c < |s.cpus| && 0 <= i < |s.cpus| && Hand(Me(s, c)) != []
  {
    var v, rest := Hand(Me(s, c))[0], Hand(Me(s, c))[1..];
    if v == s.cpus[c].cur then Put(s, c, GotoWith(CoreOf(s, c), Moving(i, send - 1, share), rest + [v]))
    else
      Put(s.(tcpu := s.tcpu[v := i], rq := s.rq[i := s.rq[i] + [v]], link := s.link[v := OnRunq(i)]), c,
          GotoWith(CoreOf(s, c), Moved(i, send - 1, share), rest))
  }

  /** Put the leftovers back on the own run queue. */
  function GiveBack(s: State, c: int): State
    requires Shape(s) && 0 <= c < |s.cpus|
  {
    var h := Hand(Me(s, c));
    if h == [] then Put(s, c, Finish(CoreOf(s, c)))
    else
      Put(s.(rq := s.rq[c := s.rq[c] + h], link := Relink(s.link, h, OnRunq(c))), c,
          GotoWith(CoreOf(s, c), Outside(Me(s, c)), []))
  }

  function Share(total: int, n: int): int
    requires n > 0
  {
    (total + n - 1) / n
  }

  predicate IsCodeStep(a: Action)
  {
    a.SplHigh? || a.SplZero? || a.SpinAcquire? || a.SpinRelease? || a.Interrupt? || a.IdleInterrupt? || a.InterruptReturn? || a.TakeIpi?
  }

  predicate IsWakeStep(a: Action)
  {
    a.Fork? || a.WakeOne? || a.WakeAll? || a.WakeLock? || a.WakeAdd? || a.WakeIpi? || a.WakeRelease? || a.WakeDone?
  }

  predicate IsLeaveStep(a: Action)
  {
    a.LockWchan? || a.UnlockWchan? || a.Sleep? || a.Yield? || a.Exit?
  }

  predicate IsSwitchingStep(a: Action)
  {
    a.SwitchLock? || a.SwitchPlace? || a.SwitchPick? || a.IdleReturn? || a.IdleRelock? || a.SwitchResume? || a.Exorcise? || a.SwitchDone?
  }

  predicate IsCountingStep(a: Action)
  {
    a.Migrate? || a.CountOne? || a.CountDone? || a.TakeVictims?
  }

  predicate IsPushingStep(a: Action)
  {
    a.PushNext? || a.PushLock? || a.MoveOne? || a.MoveIpi? || a.PushUnlock? || a.ReturnVictims?
  }

  /** Interrupt levels, spinlocks of other code, interrupts. */
  function ApplyCode(s: State, c: int, a: Action): State
    requires Shape(s) && Enabled(s, c, a) && Assertions(s, c, a) && IsCodeStep(a)
  {
    var me, k := Me(s, c), CoreOf(s, c);
    match a
    case SplHigh => Put(s, c, SplX(k, 1))
    case SplZero => Put(s, c, SplX(k, 0))
    case SpinAcquire => var r := Raise(k); Put(s, c, r.(cx := r.cx.(spins := me.spins + 1)))
    case SpinRelease => var r := Lower(k); Put(s, c, r.(cx := r.cx.(spins := me.spins - 1)))
    case Interrupt => Put(s, c, Core(true, me.(hard := Handler, spl := 1, count := me.count + 1)))
    case IdleInterrupt => Put(s, c, k.(cx := me.(soft := Handler)))
    case InterruptReturn =>
      if me.soft.Absent? then Put(s, c, Core(false, me.(hard := Absent, spl := 0, count := me.count - 1)))
      else Put(s, c, k.(cx := me.(soft := Absent, switch := if me.switch.Idling? then Rousing(me.switch.saved) else me.switch)))
    case TakeIpi => SetIpi(s, c, false)
  }

  /** thread_fork, wchan_wakeone, wchan_wakeall and thread_make_runnable. */
  function ApplyWake(s: State, c: int, a: Action): State
    requires Shape(s) && Enabled(s, c, a) && Assertions(s, c, a) && IsWakeStep(a)
  {
    var me, f, k := Me(s, c), TopOf(s, c), CoreOf(s, c);
    match a
    case Fork(child) => Born(s, c, child)
    case WakeOne(w) => if s.waiters[w] == [] then s else TakeWaiters(s, c, w, 1)
    case WakeAll(w) => TakeWaiters(s, c, w, |s.waiters[w]|)
    case WakeLock => var d := s.tcpu[Hand(me)[0]]; Put(SetRqLock(s, d, Some(c)), c, Goto(Raise(k), Adding(d)))
    case WakeAdd => AddFirst(s, c, f.dst)
    case WakeIpi => Put(SetIpi(s, f.dst, true), c, Goto(k, Added(f.dst, false)))
    case WakeRelease => Put(SetRqLock(s, f.dst, None), c, Goto(Lower(k), Waking))
    case WakeDone => Put(s, c, Finish(k))
  }

  /** wchan_lock, wchan_sleep, thread_yield, thread_exit. */
  function ApplyLeave(s: State, c: int, a: Action): State
    requires Shape(s) && Enabled(s, c, a) && Assertions(s, c, a) && IsLeaveStep(a)
  {
    var f, k := TopOf(s, c), CoreOf(s, c);
    match a
    case LockWchan(w) => Put(SetWLock(s, w, Some(c)), c, Goto(Raise(k), Locked(w)))
    case UnlockWchan => Put(SetWLock(s, f.wchan, None), c, Finish(Lower(k)))
    case Sleep => Put(s, c, Enter(Finish(k), ToSleep(f.wchan)))
    case Yield => if s.cpus[c].isidle then s else Put(s, c, Enter(k, ToReady))
    case Exit => Put(s, c, Enter(SplX(k, 1), ToZombie))
  }

  /** thread_switch, exorcise and thread_startup. */
  function ApplySwitching(s: State, c: int, a: Action): State
    requires Shape(s) && Enabled(s, c, a) && Assertions(s, c, a) && IsSwitchingStep(a)
  {
    var f, k := TopOf(s, c), CoreOf(s, c);
    match a
    case SwitchLock => TakeOwnLock(s, c, f.target, f.saved)
    case SwitchPlace => Place(s, c, f.target, f.saved)
    case SwitchPick => Pick(s, c, f.saved)
    case IdleReturn => Put(s, c, Goto(k, Rousing(f.saved)))
    case IdleRelock => Put(SetRqLock(s, c, Some(c)), c, Goto(Raise(k), Picking(f.saved)))
    case SwitchResume =>
      var r := Lower(k);
      Put(SetRqLock(s, c, None), c, Goto(r.(cx := r.cx.(state := Running)), Cleaning(f.saved)))
    case Exorcise => Bury(s, c)
    case SwitchDone => Put(s, c, Leave(k, f.saved))
  }

  /** thread_consider_migration: counting and taking victims. */
  function ApplyCounting(s: State, c: int, a: Action): State
    requires Shape(s) && Enabled(s, c, a) && Assertions(s, c, a) && IsCountingStep(a)
  {
    var f, k := TopOf(s, c), CoreOf(s, c);
    match a
    case Migrate => Put(s, c, Goto(k, Counting(0, 0, 0)))
    case CountOne =>
      Put(s, c, Goto(k, Counting(f.i + 1, if f.i == c then |s.rq[c]| else f.mine, f.total + |s.rq[f.i]|)))
    case CountDone =>
      var share := Share(f.total, |s.cpus|);
      Put(s, c, if f.mine < share then Finish(k) else Goto(k, Taking(f.mine - share, share)))
    case TakeVictims => TakeTail(s, c, f.send, f.share)
  }

  /** thread_consider_migration: handing victims out. */
  function ApplyPushing(s: State, c: int, a: Action): State
    requires Shape(s) && Enabled(s, c, a) && Assertions(s, c, a) && IsPushingStep(a)
  {
    var f, k := TopOf(s, c), CoreOf(s, c);
    match a
    case PushNext =>
      Put(s, c, if f.i >= |s.cpus| || f.send == 0 then Goto(k, Returning) else Goto(k, Pushing(f.i + 1, f.send, f.share)))
    case PushLock => Put(SetRqLock(s, f.i, Some(c)), c, Goto(Raise(k), Moving(f.i, f.send, f.share)))
    case MoveOne => MoveFirst(s, c, f.i, f.send, f.share)
    case MoveIpi =>
      Put(if s.cpus[f.i].isidle then SetIpi(s, f.i, true) else s, c, Goto(k, Moving(f.i, f.send, f.share)))
    case PushUnlock => Put(SetRqLock(s, f.i, None), c, Goto(Lower(k), Pushing(f.i + 1, f.send, f.share)))
    case ReturnVictims => GiveBack(s, c)
  }

  /** One step of CPU c. */
  function Apply(s: State, c: int, a: Action): State
    requires Shape(s) && Enabled(s, c, a) && Assertions(s, c, a)
  {
    if IsCodeStep(a) then ApplyCode(s, c, a)
    else if IsWakeStep(a) then ApplyWake(s, c, a)
    else if IsLeaveStep(a) then ApplyLeave(s, c, a)
    else if IsSwitchingStep(a) then ApplySwitching(s, c, a)
    else if IsCountingStep(a) then ApplyCounting(s, c, a)
    else ApplyPushing(s, c, a)
  }
}
