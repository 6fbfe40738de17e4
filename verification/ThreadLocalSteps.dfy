/** Steps of the thread system that change no list: interrupt levels, locks, handlers. */
module ThreadLocalSteps {
  import opened ThreadSystem
  import opened ThreadSteps
  import opened ThreadSafety

  /** A frame without local variables to speak of. */
  predicate Plain(f: Frame)
  {
    !IsMigration(f) && !f.Adding?
  }

  lemma PlainFrame(s: State, c: int)
    requires Shape(s) && 0 <= c < |s.cpus| && Plain(TopOf(s, c))
    ensures FrameOk(s, c)
  {
  }

  /** A step that leaves the locks alone, is not about to interrupt anybody and does
      not park. */
  lemma QuietStep(s: State, s': State, c: int, cx: Context)
    requires Inv(s) && 0 <= c < |s.cpus|
    requires s' == Local(s, c, cx, s.rqLock, s.wLock) && Shape(s')
    requires LocalContext(Me(s, c), cx)
    requires RqHeld(Top(cx), c) == RqHeld(TopOf(s, c), c) && WHeld(Top(cx)) == WHeld(TopOf(s, c))
    requires Plain(Top(cx)) || FrameOk(s', c)
    requires !TopOf(s, c).Added? && !TopOf(s, c).Moved? && !Top(cx).Idling?
    ensures Inv(s')
  {
    OpenLocks(s);
    assert RqHelds(s)[c := RqHeld(Top(cx), c)] == RqHelds(s);
    assert WHelds(s)[c := WHeld(Top(cx))] == WHelds(s);
    Quiet(s, s', c, cx);
    if Plain(Top(cx)) {
      PlainFrame(s', c);
    }
    LocalInv(s, s', c, cx, s.rqLock, s.wLock);
  }

  lemma Quiet(s: State, s': State, c: int, cx: Context)
    requires Shape(s) && 0 <= c < |s.cpus|
    requires s' == Local(s, c, cx, s.rqLock, s.wLock) && Shape(s')
    requires !TopOf(s, c).Added? && !TopOf(s, c).Moved? && !Top(cx).Idling?
    ensures KeepsWakeups(s, s', c)
  {
  }

  lemma SplContext(me: Context, spl: int)
    requires ContextOk(me, true) && Top(me).Code? && 0 <= spl <= 1
    ensures 0 <= me.spl <= 1 && me.spl <= me.count
    ensures LocalContext(me, me.(spl := spl, count := me.count + spl - me.spl))
  {
    assert Inside(0);
  }

  /** Taking a run queue lock. */
  lemma TakeStep(s: State, s': State, c: int, d: int, cx: Context)
    requires Inv(s) && 0 <= c < |s.cpus| && RqFree(s, d)
    requires s' == Local(s, c, cx, s.rqLock[d := Some(c)], s.wLock) && Shape(s')
    requires LocalContext(Me(s, c), cx)
    requires RqHeld(TopOf(s, c), c) == None && RqHeld(Top(cx), c) == Some(d) && WHeld(Top(cx)) == WHeld(TopOf(s, c))
    requires Plain(Top(cx)) || FrameOk(s', c)
    ensures Inv(s')
  {
    OpenLocks(s);
    PairTaken(s.rqLock, RqHelds(s), c, d);
    assert WHelds(s)[c := WHeld(Top(cx))] == WHelds(s);
    QuietLock(s, s', c, d, cx, Some(c));
    if Plain(Top(cx)) {
      PlainFrame(s', c);
    }
    LocalInv(s, s', c, cx, s.rqLock[d := Some(c)], s.wLock);
  }

  /** Releasing a run queue lock, with no interrupt left to send. */
  lemma GiveStep(s: State, s': State, c: int, d: int, cx: Context)
    requires Inv(s) && 0 <= c < |s.cpus| && 0 <= d < |s.cpus|
    requires s' == Local(s, c, cx, s.rqLock[d := None], s.wLock) && Shape(s')
    requires LocalContext(Me(s, c), cx)
    requires RqHeld(TopOf(s, c), c) == Some(d) && RqHeld(Top(cx), c) == None && WHeld(Top(cx)) == WHeld(TopOf(s, c))
    requires !AboutToSend(TopOf(s, c), d)
    requires Top(cx).Idling? ==> s.rq[c] == []
    requires Plain(Top(cx)) || FrameOk(s', c)
    ensures Inv(s')
  {
    OpenLocks(s);
    PairGiven(s.rqLock, RqHelds(s), c, d);
    assert WHelds(s)[c := WHeld(Top(cx))] == WHelds(s);
    QuietLock(s, s', c, d, cx, None);
    if Plain(Top(cx)) {
      PlainFrame(s', c);
    }
    LocalInv(s, s', c, cx, s.rqLock[d := None], s.wLock);
  }

  lemma QuietLock(s: State, s': State, c: int, d: int, cx: Context, l: Option<int>)
    requires Shape(s) && 0 <= c < |s.cpus| && 0 <= d < |s.cpus|
    requires s' == Local(s, c, cx, s.rqLock[d := l], s.wLock) && Shape(s')
    requires s.rqLock[d] == None || s.rqLock[d] == Some(c)
    requires RqHeld(TopOf(s, c), c) == None || (RqHeld(TopOf(s, c), c) == Some(d) && !AboutToSend(TopOf(s, c), d))
    requires Top(cx).Idling? ==> s.rq[c] == []
    ensures KeepsWakeups(s, s', c)
  {
  }

  lemma WTakeStep(s: State, s': State, c: int, w: int, cx: Context)
    requires Inv(s) && 0 <= c < |s.cpus| && WFree(s, w)
    requires s' == Local(s, c, cx, s.rqLock, s.wLock[w := Some(c)]) && Shape(s')
    requires LocalContext(Me(s, c), cx)
    requires WHeld(TopOf(s, c)) == None && WHeld(Top(cx)) == Some(w) && RqHeld(Top(cx), c) == RqHeld(TopOf(s, c), c) == None
    requires Plain(Top(cx)) && !Top(cx).Idling?
    ensures Inv(s')
  {
    OpenLocks(s);
    PairTaken(s.wLock, WHelds(s), c, w);
    assert RqHelds(s)[c := RqHeld(Top(cx), c)] == RqHelds(s);
    QuietW(s, s', c, cx, s.wLock[w := Some(c)]);
    PlainFrame(s', c);
    LocalInv(s, s', c, cx, s.rqLock, s.wLock[w := Some(c)]);
  }

  lemma WGiveStep(s: State, s': State, c: int, w: int, cx: Context)
    requires Inv(s) && 0 <= c < |s.cpus| && 0 <= w < |s.wLock|
    requires s' == Local(s, c, cx, s.rqLock, s.wLock[w := None]) && Shape(s')
    requires LocalContext(Me(s, c), cx)
    requires WHeld(TopOf(s, c)) == Some(w) && WHeld(Top(cx)) == None && RqHeld(Top(cx), c) == RqHeld(TopOf(s, c), c) == None
    requires Plain(Top(cx)) && !Top(cx).Idling?
    ensures Inv(s')
  {
    OpenLocks(s);
    PairGiven(s.wLock, WHelds(s), c, w);
    assert RqHelds(s)[c := RqHeld(Top(cx), c)] == RqHelds(s);
    QuietW(s, s', c, cx, s.wLock[w := None]);
    PlainFrame(s', c);
    LocalInv(s, s', c, cx, s.rqLock, s.wLock[w := None]);
  }

  lemma QuietW(s: State, s': State, c: int, cx: Context, wl: seq<Option<int>>)
    requires Shape(s) && 0 <= c < |s.cpus| && |wl| == |s.wLock|
    requires s' == Local(s, c, cx, s.rqLock, wl) && Shape(s')
    requires RqHeld(TopOf(s, c), c) == None && !Top(cx).Idling?
    ensures KeepsWakeups(s, s', c)
  {
  }

  /** Setting a pending interrupt, or clearing one's own outside cpu_idle. */
  lemma IpiStep(s: State, d: int, on: bool)
    requires Inv(s) && 0 <= d < |s.cpus|
    requires on || !TopOf(s, d).Idling?
    ensures Inv(SetIpi(s, d, on))
  {
    Open(s);
    var s' := SetIpi(s, d, on);
    assert Shape(s');
    IpiKeeps(s, s');
    IpiLocks(s, s');
    IpiStranded(s, d, on);
    assert Parts(s');
  }

  lemma IpiLocks(s: State, s': State)
    requires Shape(s) && LocksOk(s) && Shape(s') && |s'.cpus| == |s.cpus| && s' == s.(cpus := s'.cpus)
    requires forall e :: 0 <= e < |s.cpus| ==> s'.cpus[e].cur == s.cpus[e].cur
    ensures LocksOk(s')
  {
    assert RqHelds(s') == RqHelds(s) && WHelds(s') == WHelds(s);
  }

  lemma IpiStranded(s: State, d: int, on: bool)
    requires Shape(s) && NoneStranded(s) && 0 <= d < |s.cpus|
    requires on || !TopOf(s, d).Idling?
    ensures Shape(SetIpi(s, d, on)) && NoneStranded(SetIpi(s, d, on))
  {
    var s' := SetIpi(s, d, on);
    assert forall e :: 0 <= e < |s.cpus| ==> TopOf(s', e) == TopOf(s, e);
  }

  lemma IpiKeeps(s: State, s': State)
    requires Inv(s) && Shape(s') && |s'.cpus| == |s.cpus| && s' == s.(cpus := s'.cpus)
    requires forall e :: 0 <= e < |s.cpus| ==> s'.cpus[e].(ipi := s.cpus[e].ipi) == s.cpus[e]
    ensures Contexts(s') && Lists(s') && Links(s')
    ensures forall c :: 0 <= c < |s'.cpus| ==> FrameOk(s', c)
  {
    Open(s);
    forall t | t in s'.ctx
      ensures IsCurrent(s', t) == IsCurrent(s, t)
    {
    }
    forall l | IsPlace(s', l)
      ensures IsList(ListAt(s', l), s'.link, l)
    {
      assert IsPlace(s, l) && ListAt(s', l) == ListAt(s, l);
    }
    forall t | t in s'.link
      ensures LinkOk(s', t)
    {
      assert LinkOk(s, t);
    }
    forall c | 0 <= c < |s'.cpus|
      ensures FrameOk(s', c)
    {
      assert FrameOk(s, c);
    }
  }

  // ----- Contexts before and after -----

  lemma SpinContext(me: Context, k: int)
    requires ContextOk(me, true) && (OwnCode(Top(me)) || Top(me).Locked?) && (0 <= me.spins + k || k >= 0)
    ensures 0 <= me.spins <= me.count
    ensures LocalContext(me, me.(count := me.count + k, spins := me.spins + k))
    ensures Top(me.(count := me.count + k, spins := me.spins + k)) == Top(me)
  {
    assert Inside(0);
  }

  lemma InterruptContext(me: Context)
    requires ContextOk(me, true) && me.count <= 0
    ensures me.spl == 0 && me.count == 0 && me.hard.Absent? && me.switch.Absent? && me.soft.Absent?
    ensures Held(Top(me)) == 0
    ensures LocalContext(me, me.(hard := Handler, spl := 1, count := me.count + 1))
  {
    assert Inside(0);
  }

  lemma IdleInterruptContext(me: Context)
    requires ContextOk(me, true) && Top(me).Idling?
    ensures LocalContext(me, me.(soft := Handler))
  {
    assert Inside(0);
  }

  lemma InterruptReturnContext(me: Context)
    requires ContextOk(me, true) && Top(me).Handler? && me.spins == 0
    ensures me.spl == 1 && me.count == 1
    ensures me.soft.Absent? ==> LocalContext(me, me.(hard := Absent, spl := 0, count := me.count - 1))
                                && (me.own.Code? || me.own.Waking?) && me.switch.Absent?
    ensures !me.soft.Absent? ==> me.switch.Idling? && LocalContext(me, me.(soft := Absent, switch := Rousing(me.switch.saved)))
  {
    assert Inside(0);
  }

  /** Moving between two points of the same operation, with the spinlocks they hold. */
  lemma WakeContext(me: Context, f: Frame)
    requires ContextOk(me, true) && IsWaking(Top(me)) && IsWaking(f)
    ensures var cx := At(me, f, Held(f) - Held(Top(me)));
            LocalContext(me, cx) && Top(cx) == f && Hand(cx) == Hand(me) && cx.count >= 0
  {
    assert Inside(0);
    assert me.soft.Absent? ==> me.switch.Absent?;
    assert Levels(At(me, f, Held(f) - Held(Top(me))));
  }

  lemma MigrateContext(me: Context, f: Frame)
    requires ContextOk(me, true) && IsMigration(Top(me)) && IsMigration(f)
    ensures var cx := At(me, f, Held(f) - Held(Top(me)));
            LocalContext(me, cx) && Top(cx) == f && Hand(cx) == Hand(me) && cx.count >= 0
  {
    assert Inside(0);
    assert me.soft.Absent? ==> me.switch.Absent?;
    assert Levels(At(me, f, Held(f) - Held(Top(me))));
  }

  /** Moving on inside thread_switch without queueing or choosing anybody. */
  lemma SwitchContext(me: Context, f: Frame)
    requires ContextOk(me, true) && IsSwitch(Top(me)) && IsSwitch(f) && f.saved == Top(me).saved
    requires !f.Entered? && (f.Placing? ==> Top(me).Entered? && f.target == Top(me).target)
    requires (f.Picking? || f.Idling? || f.Rousing?) == (Top(me).Picking? || Top(me).Idling? || Top(me).Rousing?)
    ensures var cx := At(me, f, Held(f) - Held(Top(me)));
            LocalContext(me, cx) && Top(cx) == f && cx.count >= 0
  {
    assert Inside(0);
    assert me.soft.Absent? && !me.switch.Absent?;
    assert Levels(At(me, f, Held(f) - Held(Top(me))));
  }

  lemma FinishContext(me: Context)
    requires ContextOk(me, true) && Hand(me) == []
    requires Top(me).Waking? || Top(me).Counting? || Top(me).Returning?
    ensures LocalContext(me, SetTop(me, Outside(me))) && OwnCode(Top(SetTop(me, Outside(me))))
  {
    assert Inside(0);
  }

  // ----- Going on to the next point of an operation -----

  lemma FrameAfter(s: State, c: int, cx: Context, rl: seq<Option<int>>)
    requires Shape(s) && 0 <= c < |s.cpus| && |rl| == |s.rqLock| && LocalsOk(s, c, Top(cx), Hand(cx))
    requires Shape(Local(s, c, cx, rl, s.wLock))
    ensures FrameOk(Local(s, c, cx, rl, s.wLock), c)
  {
  }

  /** Going on with the same spinlocks. */
  lemma GoStep(s: State, c: int, f: Frame)
    requires Inv(s) && 0 <= c < |s.cpus|
    requires LocalContext(Me(s, c), At(Me(s, c), f, 0)) && Top(At(Me(s, c), f, 0)) == f && LocalsOk(s, c, f, Hand(At(Me(s, c), f, 0)))
    requires RqHeld(f, c) == RqHeld(TopOf(s, c), c) && WHeld(f) == WHeld(TopOf(s, c))
    requires !TopOf(s, c).Added? && !TopOf(s, c).Moved? && !f.Idling?
    ensures Inv(Put(s, c, Goto(CoreOf(s, c), f)))
  {
    var cx := At(Me(s, c), f, 0);
    RunsNow(s, c);
    GoIs(s, c, f);
    LocalIsShaped(s, c, cx, s.rqLock, s.wLock);
    FrameAfter(s, c, cx, s.rqLock);
    QuietStep(s, Local(s, c, cx, s.rqLock, s.wLock), c, cx);
  }

  /** Going on with run queue d locked. */
  lemma TakeGoStep(s: State, c: int, d: int, f: Frame)
    requires Inv(s) && 0 <= c < |s.cpus| && RqFree(s, d)
    requires LocalContext(Me(s, c), At(Me(s, c), f, 1)) && Top(At(Me(s, c), f, 1)) == f && LocalsOk(s, c, f, Hand(At(Me(s, c), f, 1)))
    requires RqHeld(TopOf(s, c), c) == None && RqHeld(f, c) == Some(d) && WHeld(f) == WHeld(TopOf(s, c))
    ensures Inv(Put(SetRqLock(s, d, Some(c)), c, Goto(Raise(CoreOf(s, c)), f)))
  {
    var cx := At(Me(s, c), f, 1);
    RunsNow(s, c);
    TakeIs(s, c, d, f);
    LocalIsShaped(s, c, cx, s.rqLock[d := Some(c)], s.wLock);
    FrameAfter(s, c, cx, s.rqLock[d := Some(c)]);
    TakeStep(s, Local(s, c, cx, s.rqLock[d := Some(c)], s.wLock), c, d, cx);
  }

  /** Going on with run queue d unlocked. */
  lemma GiveGoStep(s: State, c: int, d: int, f: Frame)
    requires Inv(s) && 0 <= c < |s.cpus| && 0 <= d < |s.cpus|
    requires LocalContext(Me(s, c), At(Me(s, c), f, -1)) && Top(At(Me(s, c), f, -1)) == f && LocalsOk(s, c, f, Hand(At(Me(s, c), f, -1)))
    requires Me(s, c).count > 0
    requires RqHeld(TopOf(s, c), c) == Some(d) && RqHeld(f, c) == None && WHeld(f) == WHeld(TopOf(s, c))
    requires !AboutToSend(TopOf(s, c), d) && (f.Idling? ==> s.rq[c] == [])
    ensures Inv(Put(SetRqLock(s, d, None), c, Goto(Lower(CoreOf(s, c)), f)))
  {
    var cx := At(Me(s, c), f, -1);
    RunsNow(s, c);
    GiveIs(s, c, d, f);
    LocalIsShaped(s, c, cx, s.rqLock[d := None], s.wLock);
    FrameAfter(s, c, cx, s.rqLock[d := None]);
    GiveStep(s, Local(s, c, cx, s.rqLock[d := None], s.wLock), c, d, cx);
  }

  /** Going on with run queue d still locked, after interrupting CPU d if it idles. */
  lemma SentStep(s: State, c: int, d: int, f: Frame)
    requires Inv(s) && 0 <= c < |s.cpus| && 0 <= d < |s.cpus| && (s.cpus[d].ipi || !TopOf(s, d).Idling?)
    requires LocalContext(Me(s, c), At(Me(s, c), f, 0)) && Top(At(Me(s, c), f, 0)) == f && LocalsOk(s, c, f, Hand(At(Me(s, c), f, 0)))
    requires RqHeld(f, c) == RqHeld(TopOf(s, c), c) == Some(d) && WHeld(f) == WHeld(TopOf(s, c)) && !f.Idling?
    ensures Inv(Put(s, c, Goto(CoreOf(s, c), f)))
  {
    var cx := At(Me(s, c), f, 0);
    var s' := Local(s, c, cx, s.rqLock, s.wLock);
    OpenLocks(s);
    RunsNow(s, c);
    GoIs(s, c, f);
    LocalIsShaped(s, c, cx, s.rqLock, s.wLock);
    FrameAfter(s, c, cx, s.rqLock);
    assert RqHelds(s)[c := RqHeld(f, c)] == RqHelds(s);
    assert WHelds(s)[c := WHeld(f)] == WHelds(s);
    Sent(s, s', c, d, cx);
    LocalInv(s, s', c, cx, s.rqLock, s.wLock);
  }

  lemma Sent(s: State, s': State, c: int, d: int, cx: Context)
    requires Shape(s) && 0 <= c < |s.cpus| && 0 <= d < |s.cpus| && (s.cpus[d].ipi || !TopOf(s, d).Idling?)
    requires s' == Local(s, c, cx, s.rqLock, s.wLock) && Shape(s')
    requires RqHeld(TopOf(s, c), c) == Some(d) && !Top(cx).Idling?
    ensures KeepsWakeups(s, s', c)
  {
  }

  // ----- Interrupt levels, spinlocks, interrupts -----

  lemma SplStep(s: State, c: int, spl: int)
    requires Inv(s) && 0 <= c < |s.cpus| && TopOf(s, c).Code? && 0 <= spl <= 1
    ensures Inv(Put(s, c, SplX(CoreOf(s, c), spl)))
  {
    var me := Me(s, c);
    var cx := me.(spl := spl, count := me.count + spl - me.spl);
    RunsNow(s, c);
    SplContext(me, spl);
    SplKeepsMask(CoreOf(s, c), spl);
    LocalIsShaped(s, c, cx, s.rqLock, s.wLock);
    var s' := Local(s, c, cx, s.rqLock, s.wLock);
    assert Put(s, c, SplX(CoreOf(s, c), spl)) == s';
    QuietStep(s, s', c, cx);
  }

  lemma SpinAcquireStep(s: State, c: int)
    requires Inv(s) && Enabled(s, c, SpinAcquire)
    ensures Inv(ApplyCode(s, c, SpinAcquire))
  {
    var me := Me(s, c);
    var cx := me.(count := me.count + 1, spins := me.spins + 1);
    RunsNow(s, c);
    SpinContext(me, 1);
    LocalIsShaped(s, c, cx, s.rqLock, s.wLock);
    var s' := Local(s, c, cx, s.rqLock, s.wLock);
    assert ApplyCode(s, c, SpinAcquire) == s';
    QuietStep(s, s', c, cx);
  }

  lemma SpinReleaseStep(s: State, c: int)
    requires Inv(s) && Enabled(s, c, SpinRelease)
    ensures Assertions(s, c, SpinRelease) && Inv(ApplyCode(s, c, SpinRelease))
  {
    var me := Me(s, c);
    var cx := me.(count := me.count - 1, spins := me.spins - 1);
    RunsNow(s, c);
    SpinContext(me, -1);
    assert me.count > 0;
    assert Lower(CoreOf(s, c)) == Core(me.count - 1 > 0, me.(count := me.count - 1));
    LocalIsShaped(s, c, cx, s.rqLock, s.wLock);
    var s' := Local(s, c, cx, s.rqLock, s.wLock);
    assert ApplyCode(s, c, SpinRelease) == s';
    QuietStep(s, s', c, cx);
  }

  lemma InterruptStep(s: State, c: int)
    requires Inv(s) && Enabled(s, c, Interrupt)
    ensures Assertions(s, c, Interrupt) && Inv(ApplyCode(s, c, Interrupt))
  {
    var me := Me(s, c);
    var cx := me.(hard := Handler, spl := 1, count := me.count + 1);
    RunsNow(s, c);
    InterruptContext(me);
    LocalIsShaped(s, c, cx, s.rqLock, s.wLock);
    var s' := Local(s, c, cx, s.rqLock, s.wLock);
    assert ApplyCode(s, c, Interrupt) == s';
    QuietStep(s, s', c, cx);
  }

  lemma IdleInterruptStep(s: State, c: int)
    requires Inv(s) && Enabled(s, c, IdleInterrupt)
    ensures Inv(ApplyCode(s, c, IdleInterrupt))
  {
    var me := Me(s, c);
    RunsNow(s, c);
    IdleInterruptContext(me);
    LocalIsShaped(s, c, me.(soft := Handler), s.rqLock, s.wLock);
    var s' := Local(s, c, me.(soft := Handler), s.rqLock, s.wLock);
    assert ApplyCode(s, c, IdleInterrupt) == s';
    QuietStep(s, s', c, me.(soft := Handler));
  }

  lemma InterruptReturnStep(s: State, c: int)
    requires Inv(s) && Enabled(s, c, InterruptReturn)
    ensures Assertions(s, c, InterruptReturn) && Inv(ApplyCode(s, c, InterruptReturn))
  {
    var me := Me(s, c);
    RunsNow(s, c);
    InterruptReturnContext(me);
    var cx := if me.soft.Absent? then me.(hard := Absent, spl := 0, count := me.count - 1)
              else me.(soft := Absent, switch := Rousing(me.switch.saved));
    LocalIsShaped(s, c, cx, s.rqLock, s.wLock);
    var s' := Local(s, c, cx, s.rqLock, s.wLock);
    assert ApplyCode(s, c, InterruptReturn) == s';
    QuietStep(s, s', c, cx);
  }

  lemma CodeSteps(s: State, c: int, a: Action)
    requires Inv(s) && Enabled(s, c, a) && IsCodeStep(a)
    ensures Assertions(s, c, a) && Inv(ApplyCode(s, c, a))
  {
    match a
    case SplHigh => SplStep(s, c, 1);
    case SplZero => SplStep(s, c, 0);
    case SpinAcquire => SpinAcquireStep(s, c);
    case SpinRelease => SpinReleaseStep(s, c);
    case Interrupt => InterruptStep(s, c);
    case IdleInterrupt => IdleInterruptStep(s, c);
    case InterruptReturn => InterruptReturnStep(s, c);
    case TakeIpi => IpiStep(s, c, false);
  }

  // ----- Making threads runnable: the steps that only touch locks -----

  lemma HeldRq(s: State, c: int, d: int)
    requires Inv(s) && 0 <= c < |s.cpus| && RqHeld(TopOf(s, c), c) == Some(d)
    ensures 0 <= d < |s.cpus| && s.rqLock[d] == Some(c)
  {
    OpenLocks(s);
    assert RqHelds(s)[c] == Some(d);
  }

  lemma HeldW(s: State, c: int, w: int)
    requires Inv(s) && 0 <= c < |s.cpus| && WHeld(TopOf(s, c)) == Some(w)
    ensures 0 <= w < |s.wLock| && s.wLock[w] == Some(c)
  {
    OpenLocks(s);
    assert WHelds(s)[c] == Some(w);
  }

  lemma WakeLockStep(s: State, c: int)
    requires Inv(s) && Enabled(s, c, WakeLock)
    ensures Inv(ApplyWake(s, c, WakeLock))
  {
    var d := s.tcpu[Hand(Me(s, c))[0]];
    RunsNow(s, c);
    WakeContext(Me(s, c), Adding(d));
    TakeGoStep(s, c, d, Adding(d));
    assert ApplyWake(s, c, WakeLock) == Put(SetRqLock(s, d, Some(c)), c, Goto(Raise(CoreOf(s, c)), Adding(d)));
  }

  lemma WakeIpiStep(s: State, c: int)
    requires Inv(s) && Enabled(s, c, WakeIpi)
    ensures Assertions(s, c, WakeIpi) && Inv(ApplyWake(s, c, WakeIpi))
  {
    var d := TopOf(s, c).dst;
    RunsNow(s, c);
    HeldRq(s, c, d);
    WakeContext(Me(s, c), Added(d, false));
    IpiStep(s, d, true);
    var s1 := SetIpi(s, d, true);
    assert CoreOf(s1, c) == CoreOf(s, c);
    SentStep(s1, c, d, Added(d, false));
    assert ApplyWake(s, c, WakeIpi) == Put(s1, c, Goto(CoreOf(s1, c), Added(d, false)));
  }

  lemma WakeReleaseStep(s: State, c: int)
    requires Inv(s) && Enabled(s, c, WakeRelease)
    ensures Assertions(s, c, WakeRelease) && Inv(ApplyWake(s, c, WakeRelease))
  {
    var d := TopOf(s, c).dst;
    RunsNow(s, c);
    HeldRq(s, c, d);
    WakeContext(Me(s, c), Waking);
    GiveGoStep(s, c, d, Waking);
    assert ApplyWake(s, c, WakeRelease) == Put(SetRqLock(s, d, None), c, Goto(Lower(CoreOf(s, c)), Waking));
  }

  lemma WakeDoneStep(s: State, c: int)
    requires Inv(s) && Enabled(s, c, WakeDone)
    ensures Inv(ApplyWake(s, c, WakeDone))
  {
    var me := Me(s, c);
    var cx := SetTop(me, Outside(me));
    RunsNow(s, c);
    FinishContext(me);
    LocalIsShaped(s, c, cx, s.rqLock, s.wLock);
    var s' := Local(s, c, cx, s.rqLock, s.wLock);
    assert ApplyWake(s, c, WakeDone) == s';
    QuietStep(s, s', c, cx);
  }

  // ----- Giving up the CPU: the steps that change no list -----

  lemma LockedContext(me: Context, w: int)
    requires ContextOk(me, true) && Top(me).Code?
    ensures LocalContext(me, me.(own := Locked(w), count := me.count + 1))
    ensures SetTop(me, Locked(w)) == me.(own := Locked(w))
  {
    assert Inside(0);
  }

  lemma LockWchanStep(s: State, c: int, w: int)
    requires Inv(s) && Enabled(s, c, LockWchan(w))
    ensures Inv(ApplyLeave(s, c, LockWchan(w)))
  {
    var me := Me(s, c);
    var cx := me.(own := Locked(w), count := me.count + 1);
    RunsNow(s, c);
    LockedContext(me, w);
    LocalIsShaped(s, c, cx, s.rqLock, s.wLock[w := Some(c)]);
    var s' := Local(s, c, cx, s.rqLock, s.wLock[w := Some(c)]);
    assert ApplyLeave(s, c, LockWchan(w)) == s';
    WTakeStep(s, s', c, w, cx);
  }

  lemma UnlockedContext(me: Context)
    requires ContextOk(me, true) && Top(me).Locked?
    ensures me.count > 0
    ensures LocalContext(me, me.(own := Code, count := me.count - 1))
    ensures SetTop(me, Outside(me)) == me.(own := Code)
  {
    assert Inside(0);
  }

  lemma UnlockWchanStep(s: State, c: int)
    requires Inv(s) && Enabled(s, c, UnlockWchan)
    ensures Assertions(s, c, UnlockWchan) && Inv(ApplyLeave(s, c, UnlockWchan))
  {
    var me, w := Me(s, c), TopOf(s, c).wchan;
    var cx := me.(own := Code, count := me.count - 1);
    RunsNow(s, c);
    HeldW(s, c, w);
    UnlockedContext(me);
    assert Lower(CoreOf(s, c)) == Core(me.count - 1 > 0, me.(count := me.count - 1));
    LocalIsShaped(s, c, cx, s.rqLock, s.wLock[w := None]);
    var s' := Local(s, c, cx, s.rqLock, s.wLock[w := None]);
    assert ApplyLeave(s, c, UnlockWchan) == s';
    WGiveStep(s, s', c, w, cx);
  }

  lemma EnterContext(me: Context, target: Target)
    requires ContextOk(me, true) && me.spins == 0
    requires match target
             case ToReady => Top(me).Code? || (Top(me).Handler? && !Parked(me))
             case ToSleep(w) => Top(me) == Locked(w)
             case ToZombie => Top(me).Code?
    ensures var k := Core(me.count > 0, if target.ToSleep? then me.(own := Code) else me);
            var r := Enter(if target.ToZombie? then SplX(k, 1) else k, target);
            r.irqOff == (r.cx.count > 0) && LocalContext(me, r.cx) && Top(r.cx) == r.cx.switch && r.cx.switch.Entered? && r.cx.switch.target == target
  {
    assert Inside(0);
  }

  lemma SleepStep(s: State, c: int)
    requires Inv(s) && Enabled(s, c, Sleep)
    ensures Inv(ApplyLeave(s, c, Sleep))
  {
    var me, w := Me(s, c), TopOf(s, c).wchan;
    var cx := Enter(Core(me.count > 0, me.(own := Code)), ToSleep(w)).cx;
    RunsNow(s, c);
    UnlockedContext(me);
    EnterContext(me, ToSleep(w));
    LocalIsShaped(s, c, cx, s.rqLock, s.wLock);
    var s' := Local(s, c, cx, s.rqLock, s.wLock);
    assert ApplyLeave(s, c, Sleep) == s';
    QuietStep(s, s', c, cx);
  }

  lemma YieldStep(s: State, c: int)
    requires Inv(s) && Enabled(s, c, Yield)
    ensures Inv(ApplyLeave(s, c, Yield))
  {
    var me := Me(s, c);
    var cx := Enter(CoreOf(s, c), ToReady).cx;
    RunsNow(s, c);
    if !s.cpus[c].isidle {
      EnterContext(me, ToReady);
      LocalIsShaped(s, c, cx, s.rqLock, s.wLock);
      var s' := Local(s, c, cx, s.rqLock, s.wLock);
      assert ApplyLeave(s, c, Yield) == s';
      QuietStep(s, s', c, cx);
    }
  }

  lemma ExitStep(s: State, c: int)
    requires Inv(s) && Enabled(s, c, Exit)
    ensures Inv(ApplyLeave(s, c, Exit))
  {
    var me := Me(s, c);
    var cx := Enter(SplX(CoreOf(s, c), 1), ToZombie).cx;
    RunsNow(s, c);
    EnterContext(me, ToZombie);
    LocalIsShaped(s, c, cx, s.rqLock, s.wLock);
    var s' := Local(s, c, cx, s.rqLock, s.wLock);
    assert ApplyLeave(s, c, Exit) == s';
    QuietStep(s, s', c, cx);
  }

  lemma LeaveSteps(s: State, c: int, a: Action)
    requires Inv(s) && Enabled(s, c, a) && IsLeaveStep(a)
    ensures Assertions(s, c, a) && Inv(ApplyLeave(s, c, a))
  {
    match a
    case LockWchan(w) => LockWchanStep(s, c, w);
    case UnlockWchan => UnlockWchanStep(s, c);
    case Sleep => SleepStep(s, c);
    case Yield => YieldStep(s, c);
    case Exit => ExitStep(s, c);
  }

  // ----- thread_switch: the steps that change no list -----

  lemma LeaveContext(me: Context, saved: int)
    requires ContextOk(me, true) && (Top(me).Cleaning? || (Top(me).Entered? && Top(me).target == ToReady)) && saved == Top(me).saved
    ensures var r := Leave(Core(me.count > 0, me), saved);
            r.irqOff == (r.cx.count > 0) && LocalContext(me, r.cx) && OwnCode(Top(r.cx))
  {
    assert Inside(0);
    assert me.soft.Absent?;
  }

  lemma StayStep(s: State, c: int, f: Frame)
    requires Inv(s) && 0 <= c < |s.cpus| && TopOf(s, c) == f && (f.Cleaning? || (f.Entered? && f.target == ToReady))
    ensures Inv(Put(s, c, Leave(CoreOf(s, c), f.saved)))
  {
    var me := Me(s, c);
    var r := Leave(CoreOf(s, c), f.saved);
    RunsNow(s, c);
    LeaveContext(me, f.saved);
    LocalIsShaped(s, c, r.cx, s.rqLock, s.wLock);
    var s' := Local(s, c, r.cx, s.rqLock, s.wLock);
    assert Put(s, c, r) == s';
    QuietStep(s, s', c, r.cx);
  }

  lemma OwnLockStep(s: State, c: int, f: Frame)
    requires Inv(s) && 0 <= c < |s.cpus| && TopOf(s, c) == f && f.Entered? && RqFree(s, c)
    ensures Inv(Put(SetRqLock(s, c, Some(c)), c, Goto(Raise(CoreOf(s, c)), Placing(f.target, f.saved))))
  {
    RunsNow(s, c);
    SwitchContext(Me(s, c), Placing(f.target, f.saved));
    TakeGoStep(s, c, c, Placing(f.target, f.saved));
  }

  lemma SwitchLockStep(s: State, c: int)
    requires Inv(s) && Enabled(s, c, SwitchLock)
    ensures Inv(ApplySwitching(s, c, SwitchLock))
  {
    var f := TopOf(s, c);
    if f.target.ToReady? && s.rq[c] == [] {
      StayStep(s, c, f);
    } else {
      OwnLockStep(s, c, f);
    }
  }

  lemma GoIdleStep(s: State, c: int, saved: int)
    requires Inv(s) && 0 <= c < |s.cpus| && TopOf(s, c) == Picking(saved) && s.rq[c] == []
    ensures Inv(Pick(s, c, saved))
  {
    RunsNow(s, c);
    SwitchContext(Me(s, c), Idling(saved));
    HeldRq(s, c, c);
    GiveGoStep(s, c, c, Idling(saved));
    assert Pick(s, c, saved) == Put(SetRqLock(s, c, None), c, Goto(Lower(CoreOf(s, c)), Idling(saved)));
  }

  lemma IdleReturnStep(s: State, c: int)
    requires Inv(s) && Enabled(s, c, IdleReturn)
    ensures Inv(ApplySwitching(s, c, IdleReturn))
  {
    var f := Rousing(TopOf(s, c).saved);
    RunsNow(s, c);
    SwitchContext(Me(s, c), f);
    GoStep(s, c, f);
    assert ApplySwitching(s, c, IdleReturn) == Put(s, c, Goto(CoreOf(s, c), f));
  }

  lemma IdleRelockStep(s: State, c: int)
    requires Inv(s) && Enabled(s, c, IdleRelock)
    ensures Inv(ApplySwitching(s, c, IdleRelock))
  {
    var f := Picking(TopOf(s, c).saved);
    RunsNow(s, c);
    SwitchContext(Me(s, c), f);
    TakeGoStep(s, c, c, f);
    assert ApplySwitching(s, c, IdleRelock) == Put(SetRqLock(s, c, Some(c)), c, Goto(Raise(CoreOf(s, c)), f));
  }

  lemma ResumeContext(me: Context, saved: int)
    requires ContextOk(me, true) && Top(me) == Switched(saved)
    ensures me.count == 2
    ensures var cx := At(me, Cleaning(saved), -1).(state := Running);
            LocalContext(me, cx) && Top(cx) == Cleaning(saved)
  {
    SwitchContext(me, Cleaning(saved));
    assert Inside(0);
  }

  lemma ResumeIs(s: State, c: int)
    requires Shape(s) && Enabled(s, c, SwitchResume) && Assertions(s, c, SwitchResume) && Masked(CoreOf(s, c))
    ensures ApplySwitching(s, c, SwitchResume) ==
            Local(s, c, At(Me(s, c), Cleaning(TopOf(s, c).saved), -1).(state := Running), s.rqLock[c := None], s.wLock)
  {
  }

  lemma ResumedStep(s: State, c: int, saved: int)
    requires Inv(s) && 0 <= c < |s.cpus| && TopOf(s, c) == Switched(saved)
    ensures Inv(Local(s, c, At(Me(s, c), Cleaning(saved), -1).(state := Running), s.rqLock[c := None], s.wLock))
  {
    var cx := At(Me(s, c), Cleaning(saved), -1).(state := Running);
    RunsNow(s, c);
    ResumeContext(Me(s, c), saved);
    LocalIsShaped(s, c, cx, s.rqLock[c := None], s.wLock);
    GiveStep(s, Local(s, c, cx, s.rqLock[c := None], s.wLock), c, c, cx);
  }

  /** A thread coming out of switchframe_switch has its own interrupt level and the
      handed-over lock counted, and its release brings it down to its own level. */
  lemma SwitchResumeStep(s: State, c: int)
    requires Inv(s) && Enabled(s, c, SwitchResume)
    ensures Assertions(s, c, SwitchResume) && Inv(ApplySwitching(s, c, SwitchResume))
  {
    RunsNow(s, c);
    ResumeContext(Me(s, c), TopOf(s, c).saved);
    HeldRq(s, c, c);
    ResumeIs(s, c);
    ResumedStep(s, c, TopOf(s, c).saved);
  }

  lemma SwitchDoneStep(s: State, c: int)
    requires Inv(s) && Enabled(s, c, SwitchDone)
    ensures Inv(ApplySwitching(s, c, SwitchDone))
  {
    StayStep(s, c, TopOf(s, c));
  }

  // ----- Migration: the steps that change no list -----

  lemma StartMigrationContext(me: Context)
    requires ContextOk(me, true) && Top(me).Handler? && me.spins == 0
    ensures var cx := At(me, Counting(0, 0, 0), 0); LocalContext(me, cx) && Top(cx) == Counting(0, 0, 0) && Hand(cx) == []
  {
    assert Inside(0);
  }

  lemma MigrateStep(s: State, c: int)
    requires Inv(s) && Enabled(s, c, Migrate)
    ensures Inv(ApplyCounting(s, c, Migrate))
  {
    RunsNow(s, c);
    StartMigrationContext(Me(s, c));
    GoStep(s, c, Counting(0, 0, 0));
    assert ApplyCounting(s, c, Migrate) == Put(s, c, Goto(CoreOf(s, c), Counting(0, 0, 0)));
  }

  lemma NowFrame(s: State, c: int)
    requires Inv(s) && 0 <= c < |s.cpus|
    ensures FrameOk(s, c)
  {
    Open(s);
  }

  /** Going on to f inside a migration, with the locks as they are. */
  lemma MigrateGoes(s: State, c: int, f: Frame)
    requires Inv(s) && 0 <= c < |s.cpus| && IsMigration(TopOf(s, c)) && IsMigration(f)
    requires RqHeld(TopOf(s, c), c) == RqHeld(f, c) == None
    requires LocalsOk(s, c, f, Hand(Me(s, c)))
    ensures Inv(Put(s, c, Goto(CoreOf(s, c), f)))
  {
    RunsNow(s, c);
    MigrateContext(Me(s, c), f);
    GoStep(s, c, f);
  }

  lemma CountedOne(s: State, c: int, f: Frame)
    requires Inv(s) && 0 <= c < |s.cpus| && f == TopOf(s, c) && f.Counting? && 0 <= f.i < |s.cpus|
    ensures LocalsOk(s, c, Counting(f.i + 1, if f.i == c then |s.rq[c]| else f.mine, f.total + |s.rq[f.i]|), Hand(Me(s, c)))
  {
    NowFrame(s, c);
  }

  lemma CountOneStep(s: State, c: int)
    requires Inv(s) && Enabled(s, c, CountOne)
    ensures Inv(ApplyCounting(s, c, CountOne))
  {
    var f := TopOf(s, c);
    var f' := Counting(f.i + 1, if f.i == c then |s.rq[c]| else f.mine, f.total + |s.rq[f.i]|);
    CountedOne(s, c, f);
    assert ApplyCounting(s, c, CountOne) == Put(s, c, Goto(CoreOf(s, c), f'));
    MigrateGoes(s, c, f');
  }

  lemma ShareNotNegative(total: int, n: int)
    requires n > 0 && total >= 0
    ensures 0 <= Share(total, n)
  {
  }

  lemma CountDoneStep(s: State, c: int)
    requires Inv(s) && Enabled(s, c, CountDone)
    ensures Inv(ApplyCounting(s, c, CountDone))
  {
    var me, f := Me(s, c), TopOf(s, c);
    var share := Share(f.total, |s.cpus|);
    NowFrame(s, c);
    if f.mine < share {
      FinishStep(s, c);
    } else {
      ShareNotNegative(f.total, |s.cpus|);
      MigrateGoes(s, c, Taking(f.mine - share, share));
    }
  }

  lemma FinishStep(s: State, c: int)
    requires Inv(s) && 0 <= c < |s.cpus| && (TopOf(s, c).Counting? || TopOf(s, c).Returning?) && Hand(Me(s, c)) == []
    ensures Inv(Put(s, c, Finish(CoreOf(s, c))))
  {
    RunsNow(s, c);
    FinishContext(Me(s, c));
    GoStep(s, c, Outside(Me(s, c)));
  }

  lemma PushedAll(s: State, c: int, f: Frame)
    requires Inv(s) && 0 <= c < |s.cpus| && f == TopOf(s, c) && f.Pushing?
    ensures f.i < |s.cpus| ==> LocalsOk(s, c, Pushing(f.i + 1, f.send, f.share), Hand(Me(s, c)))
    ensures 0 <= f.i < |s.cpus| && f.i != c ==> LocalsOk(s, c, Moving(f.i, f.send, f.share), Hand(Me(s, c)))
    ensures LocalsOk(s, c, Returning, Hand(Me(s, c)))
  {
    NowFrame(s, c);
  }

  lemma PushNextStep(s: State, c: int)
    requires Inv(s) && Enabled(s, c, PushNext)
    ensures Inv(ApplyPushing(s, c, PushNext))
  {
    var f := TopOf(s, c);
    PushedAll(s, c, f);
    if f.i >= |s.cpus| || f.send == 0 {
      MigrateGoes(s, c, Returning);
    } else {
      MigrateGoes(s, c, Pushing(f.i + 1, f.send, f.share));
    }
  }

  lemma PushLockStep(s: State, c: int)
    requires Inv(s) && Enabled(s, c, PushLock)
    ensures Inv(ApplyPushing(s, c, PushLock))
  {
    var f := TopOf(s, c);
    var f', d := Moving(f.i, f.send, f.share), f.i;
    PushedAll(s, c, f);
    RunsNow(s, c);
    MigrateContext(Me(s, c), f');
    TakeGoStep(s, c, d, f');
    assert ApplyPushing(s, c, PushLock) == Put(SetRqLock(s, d, Some(c)), c, Goto(Raise(CoreOf(s, c)), f'));
  }

  lemma MovedEnough(s: State, c: int, f: Frame)
    requires Inv(s) && 0 <= c < |s.cpus| && f == TopOf(s, c) && (f.Moving? || f.Moved?)
    ensures LocalsOk(s, c, Pushing(f.i + 1, f.send, f.share), Hand(Me(s, c)))
    ensures LocalsOk(s, c, Moving(f.i, f.send, f.share), Hand(Me(s, c)))
    ensures 0 <= f.i < |s.cpus| && f.i != c && s.rqLock[f.i] == Some(c)
  {
    NowFrame(s, c);
    HeldRq(s, c, f.i);
  }

  lemma PushUnlockStep(s: State, c: int)
    requires Inv(s) && Enabled(s, c, PushUnlock)
    ensures Assertions(s, c, PushUnlock) && Inv(ApplyPushing(s, c, PushUnlock))
  {
    var f := TopOf(s, c);
    var f', d := Pushing(f.i + 1, f.send, f.share), f.i;
    RunsNow(s, c);
    MovedEnough(s, c, f);
    MigrateContext(Me(s, c), f');
    GiveGoStep(s, c, d, f');
    assert ApplyPushing(s, c, PushUnlock) == Put(SetRqLock(s, d, None), c, Goto(Lower(CoreOf(s, c)), f'));
  }

  lemma NotParkedNow(s: State, d: int)
    requires Inv(s) && 0 <= d < |s.cpus| && !s.cpus[d].isidle
    ensures !TopOf(s, d).Idling?
  {
    RunsNow(s, d);
    assert Inside(0);
  }

  lemma MoveIpiStep(s: State, c: int)
    requires Inv(s) && Enabled(s, c, MoveIpi)
    ensures Assertions(s, c, MoveIpi) && Inv(ApplyPushing(s, c, MoveIpi))
  {
    var f := TopOf(s, c);
    var f', d := Moving(f.i, f.send, f.share), f.i;
    MovedEnough(s, c, f);
    if s.cpus[d].isidle {
      IpiStep(s, d, true);
      MovedOn(SetIpi(s, d, true), c, f);
    } else {
      NotParkedNow(s, d);
      MovedOn(s, c, f);
    }
    MoveIpiIs(s, c, f', d);
  }

  lemma MoveIpiIs(s: State, c: int, f: Frame, d: int)
    requires Shape(s) && Enabled(s, c, MoveIpi) && Assertions(s, c, MoveIpi)
    requires d == TopOf(s, c).i && f == Moving(d, TopOf(s, c).send, TopOf(s, c).share)
    ensures var s1 := if s.cpus[d].isidle then SetIpi(s, d, true) else s;
            Shape(s1) && ApplyPushing(s, c, MoveIpi) == Put(s1, c, Goto(CoreOf(s1, c), f))
  {
  }

  lemma MovedOn(s: State, c: int, f: Frame)
    requires Inv(s) && 0 <= c < |s.cpus| && f == TopOf(s, c) && f.Moved? && 0 <= f.i < |s.cpus|
    requires s.cpus[f.i].ipi || !TopOf(s, f.i).Idling?
    ensures Inv(Put(s, c, Goto(CoreOf(s, c), Moving(f.i, f.send, f.share))))
  {
    RunsNow(s, c);
    MovedEnough(s, c, f);
    MigrateContext(Me(s, c), Moving(f.i, f.send, f.share));
    SentStep(s, c, f.i, Moving(f.i, f.send, f.share));
  }
}
