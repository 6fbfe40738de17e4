/** Every step of the thread system keeps its invariant. */
module ThreadSafety {
  import opened ThreadSystem
  import opened ThreadSteps

  // ----- Steps that only touch the running thread's own context -----

  /** CPU c changed its current thread's context, its interrupt mask, locks and
      pending interrupts, and no list. */
  ghost predicate LocalChange(s: State, s': State, c: int)
    requires Shape(s) && 0 <= c < |s.cpus|
  {
    && s'.rq == s.rq && s'.zombies == s.zombies && s'.waiters == s.waiters && s'.link == s.link && s'.tcpu == s.tcpu
    && |s'.cpus| == |s.cpus| && |s'.rqLock| == |s.rqLock| && |s'.wLock| == |s.wLock|
    && (forall d :: 0 <= d < |s.cpus| ==> s'.cpus[d].cur == s.cpus[d].cur && s'.cpus[d].isidle == s.cpus[d].isidle)
    && (forall d :: 0 <= d < |s.cpus| && d != c ==> s'.cpus[d].irqOff == s.cpus[d].irqOff)
    && (forall t :: t in s'.ctx <==> t in s.ctx)
    && (forall t :: t in s.ctx && t != s.cpus[c].cur ==> s'.ctx[t] == s.ctx[t])
    && var me, me' := s.ctx[s.cpus[c].cur], s'.ctx[s.cpus[c].cur];
       && me'.hand0 == me.hand0 && me'.hand1 == me.hand1 && me'.hand2 == me.hand2
       && (Parked(me) ==> me'.hard == me.hard)
       && Parked(me') == Parked(me)
       && (me'.state == me.state || !Parked(me))
  }

  lemma LocalContexts(s: State, s': State, c: int)
    requires Shape(s) && Shape(s') && 0 <= c < |s.cpus| && LocalChange(s, s', c) && Contexts(s)
    requires ContextOk(s'.ctx[s.cpus[c].cur], true)
    requires s'.cpus[c].irqOff == (s'.ctx[s.cpus[c].cur].count > 0)
    ensures Contexts(s')
  {
    forall t | t in s'.ctx
      ensures ContextOk(s'.ctx[t], IsCurrent(s', t))
    {
      assert IsCurrent(s', t) == IsCurrent(s, t);
    }
  }

  lemma LocalLists(s: State, s': State, c: int)
    requires Shape(s) && Shape(s') && 0 <= c < |s.cpus| && LocalChange(s, s', c) && Lists(s)
    ensures Lists(s')
  {
    forall l | IsPlace(s', l)
      ensures IsList(ListAt(s', l), s'.link, l)
    {
      assert IsPlace(s, l) && ListAt(s', l) == ListAt(s, l);
    }
  }

  lemma LocalLinks(s: State, s': State, c: int)
    requires Shape(s) && Shape(s') && 0 <= c < |s.cpus| && LocalChange(s, s', c) && Links(s)
    ensures Links(s')
  {
    forall t | t in s'.link
      ensures LinkOk(s', t)
    {
      assert LinkOk(s, t);
      assert IsCurrent(s', t) == IsCurrent(s, t);
    }
  }

  // ----- Locks -----

  /** The other CPUs are where they were. */
  ghost predicate OthersStay(s: State, s': State, c: int)
    requires Shape(s) && Shape(s')
  {
    && |s'.cpus| == |s.cpus| && |s'.waiters| == |s.waiters|
    && forall d :: 0 <= d < |s.cpus| && d != c ==> TopOf(s', d) == TopOf(s, d)
  }

  lemma PairTaken(lock: seq<Option<int>>, held: seq<Option<int>>, c: int, d: int)
    requires Paired(lock, held) && 0 <= c < |held| && 0 <= d < |lock| && lock[d] == None && held[c] == None
    ensures Paired(lock[d := Some(c)], held[c := Some(d)])
  {
  }

  lemma PairGiven(lock: seq<Option<int>>, held: seq<Option<int>>, c: int, d: int)
    requires Paired(lock, held) && 0 <= c < |held| && held[c] == Some(d)
    ensures 0 <= d < |lock| && lock[d] == Some(c) && Paired(lock[d := None], held[c := None])
  {
  }

  lemma HeldsAfter(s: State, s': State, c: int)
    requires Shape(s) && Shape(s') && 0 <= c < |s.cpus| && OthersStay(s, s', c)
    ensures RqHelds(s') == RqHelds(s)[c := RqHeld(TopOf(s', c), c)]
    ensures WHelds(s') == WHelds(s)[c := WHeld(TopOf(s', c))]
  {
  }

  // ----- Wakeups -----

  /** CPU c neither withdraws another CPU's wakeup nor parks over queued work. */
  ghost predicate KeepsWakeups(s: State, s': State, c: int)
    requires Shape(s) && Shape(s') && 0 <= c < |s.cpus| == |s'.cpus|
  {
    && (TopOf(s', c).Idling? ==> s'.rq[c] == [])
    && (forall e :: 0 <= e < |s.cpus| && e != c && s.cpus[e].ipi ==> s'.cpus[e].ipi)
    && (forall e :: 0 <= e < |s.cpus| && s.rqLock[e].Some? && s.rqLock[e].value != c ==> s'.rqLock[e] == s.rqLock[e])
    && (forall e :: 0 <= e < |s.cpus| && e != c && TopOf(s, e).Idling? && AboutToSend(TopOf(s, c), e) ==>
          s'.cpus[e].ipi || (AboutToSend(TopOf(s', c), e) && s'.rqLock[e] == s.rqLock[e]))
    && (forall e :: 0 <= e < |s.cpus| && e != c && TopOf(s, e).Idling? && s.rq[e] == [] && s'.rq[e] != [] ==>
          s'.rqLock[e] == Some(c) && AboutToSend(TopOf(s', c), e))
  }

  lemma WakeupsKept(s: State, s': State, c: int)
    requires Shape(s) && Shape(s') && 0 <= c < |s.cpus| && OthersStay(s, s', c) && NoneStranded(s)
    requires KeepsWakeups(s, s', c)
    ensures NoneStranded(s')
  {
  }

  // ----- Putting it together for local steps -----

  /** The state after CPU c changed its current thread's context to cx and the locks
      to rl and wl; interrupts are masked exactly while the count is positive. */
  function Local(s: State, c: int, cx: Context, rl: seq<Option<int>>, wl: seq<Option<int>>): State
    requires 0 <= c < |s.cpus|
  {
    Put(s.(rqLock := rl, wLock := wl), c, Core(cx.count > 0, cx))
  }

  lemma LocalFrames(s: State, s': State, c: int)
    requires Shape(s) && Shape(s') && 0 <= c < |s.cpus| && LocalChange(s, s', c)
    requires forall d :: 0 <= d < |s.cpus| ==> FrameOk(s, d)
    requires FrameOk(s', c)
    ensures forall d :: 0 <= d < |s'.cpus| ==> FrameOk(s', d)
  {
    forall d | 0 <= d < |s'.cpus|
      ensures FrameOk(s', d)
    {
      assert FrameOk(s, d);
    }
  }

  ghost predicate LocalContext(me: Context, me': Context)
  {
    && me'.hand0 == me.hand0 && me'.hand1 == me.hand1 && me'.hand2 == me.hand2
    && (Parked(me) ==> me'.hard == me.hard)
    && Parked(me') == Parked(me)
    && (me'.state == me.state || !Parked(me))
    && ContextOk(me', true)
  }

  lemma LocalIsLocal(s: State, s': State, c: int, cx: Context, rl: seq<Option<int>>, wl: seq<Option<int>>)
    requires Shape(s) && 0 <= c < |s.cpus| && |rl| == |s.rqLock| && |wl| == |s.wLock|
    requires s' == Local(s, c, cx, rl, wl) && Shape(s')
    requires LocalContext(s.ctx[s.cpus[c].cur], cx)
    ensures LocalChange(s, s', c) && OthersStay(s, s', c)
    ensures s'.ctx[s.cpus[c].cur] == cx && s'.cpus[c].irqOff == (cx.count > 0)
  {
  }

  lemma LocalInv(s: State, s': State, c: int, cx: Context, rl: seq<Option<int>>, wl: seq<Option<int>>)
    requires Inv(s) && 0 <= c < |s.cpus| && |rl| == |s.rqLock| && |wl| == |s.wLock|
    requires s' == Local(s, c, cx, rl, wl) && Shape(s')
    requires LocalContext(s.ctx[s.cpus[c].cur], cx)
    requires Paired(rl, RqHelds(s)[c := RqHeld(Top(cx), c)]) && Paired(wl, WHelds(s)[c := WHeld(Top(cx))])
    requires FrameOk(s', c) && KeepsWakeups(s, s', c)
    ensures Inv(s')
  {
    Open(s);
    LocalIsLocal(s, s', c, cx, rl, wl);
    LocalContexts(s, s', c);
    LocalLists(s, s', c);
    LocalLinks(s, s', c);
    WakeupsKept(s, s', c);
    LocalFrames(s, s', c);
    HeldsAfter(s, s', c);
    assert Parts(s');
  }

  lemma LocalIsShaped(s: State, c: int, cx: Context, rl: seq<Option<int>>, wl: seq<Option<int>>)
    requires Shape(s) && 0 <= c < |s.cpus| && |rl| == |s.rqLock| && |wl| == |s.wLock|
    ensures Shape(Local(s, c, cx, rl, wl))
  {
  }

  /** The interrupt mask agrees with the count. */
  predicate Masked(k: Core)
  {
    k.irqOff == (k.cx.count > 0) && k.cx.count >= 0
  }

  lemma RunsNow(s: State, c: int)
    requires Inv(s) && 0 <= c < |s.cpus|
    ensures ContextOk(Me(s, c), true) && Masked(CoreOf(s, c)) && s.cpus[c].isidle == Parked(Me(s, c))
  {
    assert Inside(0);
    OpenContexts(s);
    assert IsCurrent(s, s.cpus[c].cur);
  }

  /** splraise, spllower and splx keep mask and count in step. */
  lemma SplKeepsMask(k: Core, spl: int)
    requires Masked(k) && 0 <= k.cx.spl <= 1 && 0 <= spl <= 1 && k.cx.spl <= k.cx.count
    ensures Masked(Raise(k)) && Raise(k).cx == k.cx.(count := k.cx.count + 1)
    ensures k.cx.count > 0 ==> Masked(Lower(k)) && Lower(k).cx == k.cx.(count := k.cx.count - 1)
    ensures Masked(SplX(k, spl)) && SplX(k, spl).cx == k.cx.(spl := spl, count := k.cx.count + spl - k.cx.spl)
  {
  }

  /** Going to f with one more, as many, or one fewer spinlocks held. */
  function At(me: Context, f: Frame, more: int): Context
  {
    SetTop(me, f).(count := me.count + more)
  }

  lemma TakeIs(s: State, c: int, d: int, f: Frame)
    requires Shape(s) && 0 <= c < |s.cpus| && 0 <= d < |s.cpus| && Masked(CoreOf(s, c))
    ensures Put(SetRqLock(s, d, Some(c)), c, Goto(Raise(CoreOf(s, c)), f)) ==
            Local(s, c, At(Me(s, c), f, 1), s.rqLock[d := Some(c)], s.wLock)
  {
  }

  lemma GiveIs(s: State, c: int, d: int, f: Frame)
    requires Shape(s) && 0 <= c < |s.cpus| && 0 <= d < |s.cpus| && Masked(CoreOf(s, c)) && Me(s, c).count > 0
    ensures Put(SetRqLock(s, d, None), c, Goto(Lower(CoreOf(s, c)), f)) ==
            Local(s, c, At(Me(s, c), f, -1), s.rqLock[d := None], s.wLock)
  {
  }

  lemma GoIs(s: State, c: int, f: Frame)
    requires Shape(s) && 0 <= c < |s.cpus| && Masked(CoreOf(s, c))
    ensures Put(s, c, Goto(CoreOf(s, c), f)) == Local(s, c, At(Me(s, c), f, 0), s.rqLock, s.wLock)
  {
  }
}
