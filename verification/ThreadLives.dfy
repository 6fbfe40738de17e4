/** Context switches, births and deaths of threads. */
module ThreadLives {
  import opened ThreadSystem
  import opened ThreadSteps
  import opened ThreadSafety
  import opened ThreadLocalSteps
  import opened ThreadLists
  import opened ThreadListSteps

  // ----- thread_switch: the next thread becomes current -----

  /** The context a thread leaves behind inside switchframe_switch. */
  lemma LeftContext(me: Context, saved: int)
    requires ContextOk(me, true) && Top(me) == Picking(saved)
    ensures var cx := SetTop(me, Switched(saved));
            && ContextOk(cx, false) && cx.count == me.count == 2 && Top(cx) == Switched(saved)
            && cx.hand0 == me.hand0 && cx.hand1 == me.hand1 && cx.hand2 == me.hand2
            && cx.state == me.state && cx.hard == me.hard && Parked(me) && !Parked(cx)
  {
    assert Inside(0);
    assert me.soft.Absent? && !me.switch.Absent?;
  }

  lemma WaitingContext(cx: Context)
    requires ContextOk(cx, false)
    ensures ContextOk(cx, true) && cx.count == 2 && Top(cx).Switched? && !Parked(cx)
  {
    assert Inside(0);
  }

  /** What SwitchTo does, without saying how. */
  ghost predicate Switches(s: State, s': State, c: int, saved: int)
    requires Shape(s) && 0 <= c < |s.cpus|
  {
    && s.rq[c] != []
    && s'.rq == s.rq[c := s.rq[c][1..]] && s'.zombies == s.zombies && s'.waiters == s.waiters
    && s'.rqLock == s.rqLock && s'.wLock == s.wLock && s'.tcpu == s.tcpu
    && s'.link == s.link[s.rq[c][0] := Unlinked]
    && s'.ctx == s.ctx[s.cpus[c].cur := SetTop(Me(s, c), Switched(saved))]
    && s'.cpus == s.cpus[c := Cpu(s.rq[c][0], false, s.cpus[c].ipi, s.cpus[c].irqOff)]
  }

  lemma SwitchToIs(s: State, c: int, saved: int)
    requires Inv(s) && 0 <= c < |s.cpus| && s.rq[c] != []
    ensures Switches(s, SwitchTo(s, c, saved), c, saved) && Shape(SwitchTo(s, c, saved))
    ensures s.rq[c][0] in s.link && s.link[s.rq[c][0]] == OnRunq(c) && s.tcpu[s.rq[c][0]] == c
  {
    OpenLists(s);
    assert IsPlace(s, OnRunq(c)) && ListAt(s, OnRunq(c)) == s.rq[c];
    QueueIsOwn(s, c, 0);
  }

  lemma NextIsWaiting(s: State, c: int, next: int)
    requires Inv(s) && 0 <= c < |s.cpus| && next in s.ctx && s.tcpu[next] == c && next != s.cpus[c].cur
    ensures ContextOk(s.ctx[next], false)
  {
    Open(s);
    assert !IsCurrent(s, next);
  }

  lemma SwitchContexts(s: State, s': State, c: int, saved: int)
    requires Inv(s) && Shape(s') && 0 <= c < |s.cpus| && TopOf(s, c) == Picking(saved) && Switches(s, s', c, saved)
    requires s.rq[c][0] in s.link && s.tcpu[s.rq[c][0]] == c
    ensures Contexts(s') && TopOf(s', c).Switched?
  {
    var t, next := s.cpus[c].cur, s.rq[c][0];
    RunsNow(s, c);
    LeftContext(Me(s, c), saved);
    if next != t {
      NextIsWaiting(s, c, next);
      WaitingContext(s.ctx[next]);
    } else {
      WaitingContext(SetTop(Me(s, c), Switched(saved)));
    }
    OpenContexts(s);
    forall u | u in s'.ctx
      ensures ContextOk(s'.ctx[u], IsCurrent(s', u))
    {
      if u != t && u != next {
        assert IsCurrent(s', u) == IsCurrent(s, u);
      }
    }
  }

  lemma SwitchLists(s: State, s': State, c: int, saved: int)
    requires Shape(s) && 0 <= c < |s.cpus| && Lists(s) && Switches(s, s', c, saved)
    requires s.rq[c][0] in s.link && s.link[s.rq[c][0]] == OnRunq(c)
    requires var me, cx := Me(s, c), SetTop(Me(s, c), Switched(saved));
             cx.hand0 == me.hand0 && cx.hand1 == me.hand1 && cx.hand2 == me.hand2
    ensures Lists(s')
  {
    RelinkOne(s.link, s.rq[c][0], Unlinked);
    assert s.rq[c] == [s.rq[c][0]] + s.rq[c][1..];
    TransferLists(s, s', [s.rq[c][0]], OnRunq(c), Unlinked);
  }

  lemma SwitchLinks(s: State, s': State, c: int, saved: int)
    requires Inv(s) && Shape(s') && 0 <= c < |s.cpus| && TopOf(s, c) == Picking(saved) && Switches(s, s', c, saved)
    requires s.rq[c][0] in s.link && s.link[s.rq[c][0]] == OnRunq(c) && s.tcpu[s.rq[c][0]] == c && Contexts(s')
    ensures Links(s')
  {
    var t, next := s.cpus[c].cur, s.rq[c][0];
    RunsNow(s, c);
    LeftContext(Me(s, c), saved);
    ZombieIsParked(s, c);
    forall u | u in s'.link
      ensures LinkOk(s', u)
    {
      OpenLink(s, u);
      if u != next && u != t {
        assert IsCurrent(s', u) == IsCurrent(s, u);
      }
    }
    forall d | 0 <= d < |s'.cpus|
      ensures Parked(s'.ctx[s'.cpus[d].cur]) != s'.link[s'.cpus[d].cur].Unlinked?
    {
      if d == c {
        SwitchedNotParked(s', c);
      } else {
        ZombieIsParked(s, d);
        assert s.cpus[d].cur != t && s.cpus[d].cur != next;
      }
    }
  }

  lemma SwitchedNotParked(s: State, c: int)
    requires Shape(s) && 0 <= c < |s.cpus| && Contexts(s) && !s.cpus[c].isidle
    ensures !Parked(Me(s, c))
  {
  }

  lemma SwitchFrames(s: State, s': State, c: int, saved: int)
    requires Inv(s) && Shape(s') && 0 <= c < |s.cpus| && Switches(s, s', c, saved) && TopOf(s', c).Switched?
    requires s.rq[c][0] in s.link && s.tcpu[s.rq[c][0]] == c
    ensures forall d :: 0 <= d < |s'.cpus| ==> FrameOk(s', d)
    ensures OthersStay(s, s', c)
  {
    forall d | 0 <= d < |s'.cpus|
      ensures FrameOk(s', d) && (d != c ==> TopOf(s', d) == TopOf(s, d))
    {
      NowFrame(s, d);
      if d != c {
        assert s.cpus[d].cur != s.cpus[c].cur;
      }
    }
  }

  lemma SwitchWakeups(s: State, s': State, c: int, saved: int)
    requires Shape(s) && Shape(s') && 0 <= c < |s.cpus| && Switches(s, s', c, saved)
    requires TopOf(s, c).Picking? && TopOf(s', c).Switched?
    ensures KeepsWakeups(s, s', c)
  {
  }

  lemma SwitchToStep(s: State, c: int, saved: int)
    requires Inv(s) && 0 <= c < |s.cpus| && TopOf(s, c) == Picking(saved) && s.rq[c] != []
    ensures Inv(SwitchTo(s, c, saved))
  {
    var s' := SwitchTo(s, c, saved);
    SwitchToIs(s, c, saved);
    SwitchContexts(s, s', c, saved);
    OpenLists(s);
    RunsNow(s, c);
    LeftContext(Me(s, c), saved);
    SwitchLists(s, s', c, saved);
    SwitchLinks(s, s', c, saved);
    SwitchFrames(s, s', c, saved);
    SwitchWakeups(s, s', c, saved);
    SwitchedInv(s, s', c);
  }

  lemma SwitchedInv(s: State, s': State, c: int)
    requires Inv(s) && Shape(s') && 0 <= c < |s.cpus| && OthersStay(s, s', c) && KeepsWakeups(s, s', c)
    requires TopOf(s, c).Picking? && TopOf(s', c).Switched? && s'.rqLock == s.rqLock && s'.wLock == s.wLock
    requires Contexts(s') && Lists(s') && Links(s') && forall d :: 0 <= d < |s'.cpus| ==> FrameOk(s', d)
    ensures Inv(s')
  {
    OpenLocks(s);
    OpenWakeups(s);
    SameLocks(s, s', c);
    WakeupsKept(s, s', c);
    assert Parts(s');
  }

  lemma OpenWakeups(s: State)
    requires Inv(s)
    ensures NoneStranded(s)
  {
    Open(s);
  }

  lemma SwitchPickStep(s: State, c: int)
    requires Inv(s) && Enabled(s, c, SwitchPick)
    ensures Assertions(s, c, SwitchPick) && Inv(ApplySwitching(s, c, SwitchPick))
  {
    var saved := TopOf(s, c).saved;
    RunsNow(s, c);
    HeldRq(s, c, c);
    LeftContext(Me(s, c), saved);
    if s.rq[c] == [] {
      GoIdleStep(s, c, saved);
    } else {
      SwitchToIs(s, c, saved);
      if s.rq[c][0] != s.cpus[c].cur {
        NextIsWaiting(s, c, s.rq[c][0]);
        WaitingContext(s.ctx[s.rq[c][0]]);
      }
      SwitchToStep(s, c, saved);
    }
    assert ApplySwitching(s, c, SwitchPick) == Pick(s, c, saved);
  }

  // ----- thread_fork -----

  const UNBORN := Context(Code, Absent, Switched(0), Absent, [], [], [], 1, 2, 0, Ready)

  /** A forked thread starts with its own raised level and the lock it will be handed. */
  lemma NewbornContext()
    ensures ContextOk(UNBORN, false)
  {
    assert Levels(UNBORN);
    assert ContextParts(UNBORN, false);
  }

  /** What Born does, without saying how. */
  ghost predicate Births(s: State, s': State, c: int, child: int, cx: Context)
    requires Shape(s) && 0 <= c < |s.cpus|
  {
    && s'.rq == s.rq && s'.zombies == s.zombies && s'.waiters == s.waiters && s'.rqLock == s.rqLock && s'.wLock == s.wLock
    && s'.cpus == s.cpus
    && s'.ctx == s.ctx[s.cpus[c].cur := cx][child := UNBORN]
    && s'.link == s.link[child := Mine(s, c)] && s'.tcpu == s.tcpu[child := c]
  }

  lemma BornIs(s: State, c: int, child: int)
    requires Shape(s) && 0 <= c < |s.cpus| && child !in s.ctx
    ensures Births(s, Born(s, c, child), c, child, Carry(Me(s, c), Waking, [child])) && Shape(Born(s, c, child))
  {
  }

  lemma BornContexts(s: State, s': State, c: int, child: int, cx: Context)
    requires Shape(s) && Shape(s') && 0 <= c < |s.cpus| && child !in s.ctx && Births(s, s', c, child, cx) && Contexts(s)
    requires ContextOk(cx, true) && cx.count == Me(s, c).count && Parked(cx) == Parked(Me(s, c))
    ensures Contexts(s')
  {
    NewbornContext();
    forall t | t in s'.ctx
      ensures ContextOk(s'.ctx[t], IsCurrent(s', t))
    {
      if t != child {
        assert IsCurrent(s', t) == IsCurrent(s, t);
      }
    }
  }

  lemma BornLists(s: State, s': State, c: int, child: int)
    requires Inv(s) && 0 <= c < |s.cpus| && child !in s.ctx && TopOf(s, c).Code?
    requires Births(s, s', c, child, Carry(Me(s, c), Waking, [child]))
    ensures Lists(s')
  {
    RunsNow(s, c);
    MineIsPlace(s, c);
    CarryHands(Me(s, c), Waking, [child]);
    OpenLists(s);
    forall l | IsPlace(s', l)
      ensures IsList(ListAt(s', l), s'.link, l)
    {
      if IsPlace(s, l) {
        assert l != Mine(s, c) ==> ListAt(s', l) == ListAt(s, l);
        assert l == Mine(s, c) ==> ListAt(s', l) == [child] && ListAt(s, l) == [];
      } else {
        NobodyThere(s, l);
        assert l != Mine(s, c) && ListAt(s', l) == [];
      }
    }
  }

  lemma NobodyThere(s: State, l: Link)
    requires Inv(s) && !l.Unlinked? && !IsPlace(s, l)
    ensures forall t :: t in s.link ==> s.link[t] != l
  {
    forall t | t in s.link
      ensures s.link[t] != l
    {
      OpenLink(s, t);
    }
  }

  lemma BornLinks(s: State, s': State, c: int, child: int, cx: Context)
    requires Inv(s) && Shape(s') && 0 <= c < |s.cpus| && child !in s.ctx && Births(s, s', c, child, cx) && IsPlace(s, Mine(s, c))
    requires cx.hard == Me(s, c).hard && cx.state == Me(s, c).state && Parked(cx) == Parked(Me(s, c))
    ensures Links(s')
  {
    forall t | t in s'.link
      ensures LinkOk(s', t)
    {
      if t != child {
        OpenLink(s, t);
        assert IsCurrent(s', t) == IsCurrent(s, t);
      }
    }
    forall d | 0 <= d < |s'.cpus|
      ensures Parked(s'.ctx[s'.cpus[d].cur]) != s'.link[s'.cpus[d].cur].Unlinked?
    {
      ZombieIsParked(s, d);
      assert s.cpus[d].cur in s.ctx;
    }
  }

  lemma BornFrames(s: State, s': State, c: int, child: int, cx: Context)
    requires Inv(s) && Shape(s') && 0 <= c < |s.cpus| && child !in s.ctx && Births(s, s', c, child, cx)
    requires TopOf(s', c).Waking?
    ensures forall d :: 0 <= d < |s'.cpus| ==> FrameOk(s', d)
    ensures OthersStay(s, s', c)
  {
    forall d | 0 <= d < |s'.cpus|
      ensures FrameOk(s', d) && (d != c ==> TopOf(s', d) == TopOf(s, d))
    {
      NowFrame(s, d);
      if d != c {
        assert s.cpus[d].cur != s.cpus[c].cur && s.cpus[d].cur in s.ctx;
        AllOnStays(s, s', Hand(s.ctx[s.cpus[d].cur]), d);
      }
    }
  }

  lemma AllOnStays(s: State, s': State, h: seq<int>, d: int)
    requires forall t :: t in s.tcpu ==> t in s'.tcpu && s'.tcpu[t] == s.tcpu[t]
    ensures AllOn(s, h, d) ==> AllOn(s', h, d)
  {
    if AllOn(s, h, d) {
      forall k | 0 <= k < |h|
        ensures h[k] in s'.tcpu && s'.tcpu[h[k]] == d
      {
        var t := h[k];
        assert t in s.tcpu && s'.tcpu[t] == s.tcpu[t];
      }
    }
  }

  lemma BornWakeups(s: State, s': State, c: int, child: int, cx: Context)
    requires Shape(s) && Shape(s') && 0 <= c < |s.cpus| && Births(s, s', c, child, cx)
    requires TopOf(s, c).Code? && TopOf(s', c).Waking?
    ensures KeepsWakeups(s, s', c)
  {
  }

  lemma ForkStep(s: State, c: int, child: int)
    requires Inv(s) && Enabled(s, c, Fork(child))
    ensures Inv(ApplyWake(s, c, Fork(child)))
  {
    var s', me := Born(s, c, child), Me(s, c);
    var cx := Carry(me, Waking, [child]);
    RunsNow(s, c);
    BornIs(s, c, child);
    CarryContext(me, Waking, [child]);
    CarryTop(me, Waking, [child]);
    CodeIsOwn(me);
    MineIsPlace(s, c);
    BornStep(s, s', c, child, cx);
    assert ApplyWake(s, c, Fork(child)) == s';
  }

  lemma CodeIsOwn(me: Context)
    requires ContextOk(me, true) && Top(me).Code?
    ensures Carry(me, Waking, me.hand0).hard == me.hard && me.hard.Absent? && me.switch.Absent? && me.soft.Absent?
  {
    assert Inside(0);
  }

  lemma BornStep(s: State, s': State, c: int, child: int, cx: Context)
    requires Inv(s) && Shape(s') && 0 <= c < |s.cpus| && child !in s.ctx && Births(s, s', c, child, cx) && IsPlace(s, Mine(s, c))
    requires TopOf(s, c).Code? && Top(cx).Waking? && cx == Carry(Me(s, c), Waking, [child]) && ContextOk(cx, true)
    requires cx.hard == Me(s, c).hard && cx.state == Me(s, c).state && Parked(cx) == Parked(Me(s, c)) && cx.count == Me(s, c).count
    ensures Inv(s')
  {
    OpenContexts(s);
    BornContexts(s, s', c, child, cx);
    BornLists(s, s', c, child);
    BornLinks(s, s', c, child, cx);
    assert s.cpus[c].cur != child && TopOf(s', c).Waking?;
    BornFrames(s, s', c, child, cx);
    BornWakeups(s, s', c, child, cx);
    OpenLocks(s);
    OpenWakeups(s);
    SameLocks(s, s', c);
    WakeupsKept(s, s', c);
    assert Parts(s');
  }

  // ----- exorcise -----

  /** The first zombie of the CPU is nowhere current, has exited, and has nobody in hand. */
  lemma ZombieIsDead(s: State, c: int, z: int)
    requires Inv(s) && 0 <= c < |s.cpus| && TopOf(s, c).Cleaning? && s.zombies[c] != [] && z == s.zombies[c][0]
    ensures z in s.link && s.link[z] == OnZombies(c) && s.ctx[z].state == Zombie
    ensures forall d :: 0 <= d < |s.cpus| ==> s.cpus[d].cur != z
    ensures s.ctx[z].hand0 == [] && s.ctx[z].hand1 == [] && s.ctx[z].hand2 == []
  {
    OpenLists(s);
    assert IsPlace(s, OnZombies(c)) && ListAt(s, OnZombies(c)) == s.zombies[c];
    OpenLink(s, z);
    ZombieIsParked(s, c);
    RunsNow(s, c);
    CleaningNotParked(Me(s, c));
    assert s.link[s.cpus[c].cur].Unlinked?;
    forall d | 0 <= d < |s.cpus|
      ensures s.cpus[d].cur != z
    {
      assert s.tcpu[s.cpus[d].cur] == d;
    }
    assert !IsCurrent(s, z);
    OpenContexts(s);
    DeadHands(s.ctx[z]);
  }

  lemma CleaningNotParked(me: Context)
    requires ContextOk(me, true) && Top(me).Cleaning?
    ensures !Parked(me)
  {
    assert Inside(0);
  }

  lemma DeadHands(cx: Context)
    requires ContextOk(cx, false) && cx.hard.Absent?
    ensures cx.hand0 == [] && cx.hand1 == [] && cx.hand2 == []
  {
    assert Inside(0);
  }

  lemma BuryLists(s: State, s': State, c: int, z: int)
    requires Shape(s) && Lists(s) && 0 <= c < |s.cpus| && s.zombies[c] != [] && z == s.zombies[c][0] && s' == Bury(s, c)
    requires z in s.link && s.link[z] == OnZombies(c)
    ensures Lists(s')
  {
    forall l | IsPlace(s', l)
      ensures IsList(ListAt(s', l), s'.link, l)
    {
      assert IsPlace(s, l);
      if l == OnZombies(c) {
        assert IsList(ListAt(s, l), s.link, l);
        assert s.zombies[c] == [z] + s.zombies[c][1..];
        BuriedFrom(z, s.zombies[c][1..], s.link, l);
      } else {
        assert ListAt(s', l) == ListAt(s, l);
        assert forall k :: 0 <= k < |ListAt(s, l)| ==> ListAt(s, l)[k] != z;
      }
    }
  }

  lemma BuriedFrom(z: int, rest: seq<int>, link: map<int, Link>, l: Link)
    requires IsList([z] + rest, link, l)
    ensures IsList(rest, link - {z}, l)
  {
    var all := [z] + rest;
    assert all[0] == z && forall k :: 0 <= k < |rest| ==> rest[k] == all[k + 1];
    forall t | t in link - {z} && (link - {z})[t] == l
      ensures t in rest
    {
      assert t in all;
    }
  }

  lemma BuryLinks(s: State, s': State, c: int, z: int)
    requires Inv(s) && Shape(s') && 0 <= c < |s.cpus| && s.zombies[c] != [] && z == s.zombies[c][0] && s' == Bury(s, c)
    requires z in s.ctx && s.ctx[z].hand0 == [] && s.ctx[z].hand1 == [] && s.ctx[z].hand2 == []
    requires forall d :: 0 <= d < |s.cpus| ==> s.cpus[d].cur != z
    ensures Links(s')
  {
    forall t | t in s'.link
      ensures LinkOk(s', t)
    {
      OpenLink(s, t);
      assert IsCurrent(s', t) == IsCurrent(s, t);
      NotInHandOf(s, t, z);
    }
    forall d | 0 <= d < |s'.cpus|
      ensures Parked(s'.ctx[s'.cpus[d].cur]) != s'.link[s'.cpus[d].cur].Unlinked?
    {
      ZombieIsParked(s, d);
    }
  }

  lemma NotInHandOf(s: State, t: int, z: int)
    requires Inv(s) && t in s.link && z in s.ctx && s.ctx[z].hand0 == [] && s.ctx[z].hand1 == [] && s.ctx[z].hand2 == []
    ensures !(s.link[t].InHand? && s.link[t].carrier == z)
  {
    OpenLink(s, t);
    OpenLists(s);
    var l := s.link[t];
    if l.InHand? {
      assert IsPlace(s, l) && IsList(ListAt(s, l), s.link, l);
      assert ListAt(s, l) != [];
    }
  }

  lemma BuryFrames(s: State, s': State, c: int, z: int)
    requires Inv(s) && Shape(s') && 0 <= c < |s.cpus| && s.zombies[c] != [] && z == s.zombies[c][0] && s' == Bury(s, c)
    requires z in s.link && s.link[z] == OnZombies(c) && forall d :: 0 <= d < |s.cpus| ==> s.cpus[d].cur != z
    ensures forall d :: 0 <= d < |s'.cpus| ==> FrameOk(s', d)
    ensures forall d :: 0 <= d < |s.cpus| ==> TopOf(s', d) == TopOf(s, d)
  {
    forall d | 0 <= d < |s'.cpus|
      ensures FrameOk(s', d) && TopOf(s', d) == TopOf(s, d)
    {
      NowFrame(s, d);
      NotInHand(s, d, z);
      AllOnWithout(s, s', Hand(Me(s, d)), d, z);
    }
  }

  lemma NotInHand(s: State, d: int, z: int)
    requires Inv(s) && 0 <= d < |s.cpus| && z in s.link && !s.link[z].InHand?
    ensures z !in Hand(Me(s, d))
  {
    OpenLists(s);
    var l := InHand(s.cpus[d].cur, Level(Me(s, d)));
    assert IsPlace(s, l) && ListAt(s, l) == Hand(Me(s, d));
  }

  lemma AllOnWithout(s: State, s': State, h: seq<int>, d: int, z: int)
    requires z !in h && s'.tcpu == s.tcpu - {z}
    ensures AllOn(s, h, d) ==> AllOn(s', h, d)
  {
  }

  lemma BuryContexts(s: State, s': State, c: int)
    requires Shape(s) && Contexts(s) && Shape(s') && 0 <= c < |s.cpus| && s.zombies[c] != [] && s' == Bury(s, c)
    requires forall d :: 0 <= d < |s.cpus| ==> s.cpus[d].cur != s.zombies[c][0]
    ensures Contexts(s')
  {
    forall t | t in s'.ctx
      ensures ContextOk(s'.ctx[t], IsCurrent(s', t))
    {
      assert IsCurrent(s', t) == IsCurrent(s, t);
    }
  }

  /** exorcise destroys only threads that have exited and are current nowhere. */
  lemma ExorciseStep(s: State, c: int)
    requires Inv(s) && Enabled(s, c, Exorcise)
    ensures Assertions(s, c, Exorcise) && Inv(ApplySwitching(s, c, Exorcise))
  {
    var s', z := Bury(s, c), s.zombies[c][0];
    ZombieIsDead(s, c, z);
    assert Shape(s');
    OpenLists(s);
    OpenContexts(s);
    BuryContexts(s, s', c);
    BuryLists(s, s', c, z);
    BuryLinks(s, s', c, z);
    BuryFrames(s, s', c, z);
    BuriedInv(s, s', c);
    assert ApplySwitching(s, c, Exorcise) == s';
  }

  lemma BuriedInv(s: State, s': State, c: int)
    requires Inv(s) && Shape(s') && 0 <= c < |s.cpus| && s.zombies[c] != [] && s' == Bury(s, c) && TopOf(s, c).Cleaning?
    requires Contexts(s') && Lists(s') && Links(s') && forall d :: 0 <= d < |s'.cpus| ==> FrameOk(s', d)
    requires forall d :: 0 <= d < |s.cpus| ==> TopOf(s', d) == TopOf(s, d)
    ensures Inv(s')
  {
    OpenLocks(s);
    OpenWakeups(s);
    SameLocks(s, s', c);
    WakeupsKept(s, s', c);
    assert Parts(s');
  }
}
