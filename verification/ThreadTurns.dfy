/** The steps of the thread system that queue the current thread, switch, create,
    destroy and migrate threads. */
module ThreadTurns {
  import opened ThreadSystem
  import opened ThreadSteps
  import opened ThreadSafety
  import opened ThreadLocalSteps
  import opened ThreadLists
  import opened ThreadListSteps

  // ----- thread_switch: the current thread queues itself -----

  function StateFor(target: Target): ThreadState
  {
    match target case ToReady => Ready case ToSleep(_) => Sleeping case ToZombie => Zombie
  }

  function PlaceFor(target: Target, c: int): Link
  {
    match target case ToReady => OnRunq(c) case ToSleep(w) => OnWchan(w) case ToZombie => OnZombies(c)
  }

  /** The context of a thread that has queued itself. */
  function Queued(me: Context, target: Target, saved: int): Context
  {
    At(me, Picking(saved), if target.ToSleep? then -1 else 0).(state := StateFor(target))
  }

  lemma QueuedContext(me: Context, target: Target, saved: int)
    requires ContextOk(me, true) && Top(me) == Placing(target, saved)
    ensures var cx := Queued(me, target, saved);
            && ContextOk(cx, true) && Top(cx) == Picking(saved) && Parked(cx) && cx.state == StateFor(target)
            && cx.hand0 == me.hand0 && cx.hand1 == me.hand1 && cx.hand2 == me.hand2
            && (target.ToZombie? ==> cx.hard.Absent?) && me.count > 0
  {
    assert Inside(0);
    assert me.soft.Absent? && !me.switch.Absent?;
  }

  lemma PlaceIs(s: State, c: int, target: Target, saved: int)
    requires Inv(s) && 0 <= c < |s.cpus| && TopOf(s, c) == Placing(target, saved) && (target.ToSleep? ==> 0 <= target.wchan < |s.wLock|)
    ensures Shape(Place(s, c, target, saved)) && StepsTo(s, Place(s, c, target, saved), c, Queued(Me(s, c), target, saved))
  {
    RunsNow(s, c);
    QueuedContext(Me(s, c), target, saved);
  }

  lemma PlaceTransfer(s: State, s': State, c: int, target: Target, saved: int)
    requires Shape(s) && 0 <= c < |s.cpus| && (target.ToSleep? ==> 0 <= target.wchan < |s.wLock|)
    requires s' == Place(s, c, target, saved) && s.link[s.cpus[c].cur] == Unlinked
    requires StepsTo(s, s', c, Queued(Me(s, c), target, saved))
    requires var cx := Queued(Me(s, c), target, saved);
             cx.hand0 == Me(s, c).hand0 && cx.hand1 == Me(s, c).hand1 && cx.hand2 == Me(s, c).hand2
    ensures Transfer(s, s', [s.cpus[c].cur], Unlinked, PlaceFor(target, c))
  {
    RelinkOne(s.link, s.cpus[c].cur, PlaceFor(target, c));
  }

  lemma PlaceLocks(s: State, s': State, c: int, target: Target, saved: int)
    requires Inv(s) && 0 <= c < |s.cpus| && TopOf(s, c) == Placing(target, saved)
    requires target.ToSleep? ==> 0 <= target.wchan < |s.wLock|
    requires s' == Place(s, c, target, saved)
    ensures s'.rqLock == s.rqLock
    ensures Paired(s'.rqLock, RqHelds(s)[c := Some(c)]) && Paired(s'.wLock, WHelds(s)[c := None])
  {
    OpenLocks(s);
    assert RqHelds(s)[c := Some(c)] == RqHelds(s);
    if target.ToSleep? {
      PairGiven(s.wLock, WHelds(s), c, target.wchan);
    } else {
      assert WHelds(s)[c := None] == WHelds(s);
    }
  }

  lemma PlaceLinks(s: State, s': State, c: int, target: Target, saved: int)
    requires Shape(s) && Shape(s') && 0 <= c < |s.cpus| && (target.ToSleep? ==> 0 <= target.wchan < |s.wLock|)
    requires s' == Place(s, c, target, saved)
    requires var cx := Queued(Me(s, c), target, saved);
             StepsTo(s, s', c, cx) && Parked(cx) && cx.state == StateFor(target) && (target.ToZombie? ==> cx.hard.Absent?)
    requires Transfer(s, s', [s.cpus[c].cur], Unlinked, PlaceFor(target, c))
    ensures LinksLeft(s, s', c, Queued(Me(s, c), target, saved), [s.cpus[c].cur], Unlinked, PlaceFor(target, c))
    ensures LinkOk(s', s.cpus[c].cur)
  {
  }

  lemma PlaceSizes(s: State, s': State, c: int, target: Target, saved: int)
    requires Shape(s) && 0 <= c < |s.cpus| && (target.ToSleep? ==> 0 <= target.wchan < |s.wLock|)
    requires s' == Place(s, c, target, saved)
    ensures |s'.waiters| == |s.waiters| && s'.tcpu == s.tcpu
    ensures forall d :: 0 <= d < |s.cpus| && d != c ==> s'.rq[d] == s.rq[d]
  {
  }

  lemma PlaceStep(s: State, c: int, target: Target, saved: int)
    requires Inv(s) && 0 <= c < |s.cpus| && TopOf(s, c) == Placing(target, saved)
    requires (target.ToSleep? ==> 0 <= target.wchan < |s.wLock|) && s.link[s.cpus[c].cur] == Unlinked
    ensures Inv(Place(s, c, target, saved))
  {
    var s', cx, ts := Place(s, c, target, saved), Queued(Me(s, c), target, saved), [s.cpus[c].cur];
    RunsNow(s, c);
    QueuedContext(Me(s, c), target, saved);
    PlaceIs(s, c, target, saved);
    PlaceTransfer(s, s', c, target, saved);
    PlaceLocks(s, s', c, target, saved);
    PlaceLinks(s, s', c, target, saved);
    PlaceSizes(s, s', c, target, saved);
    PlacedStep(s, s', c, cx, PlaceFor(target, c));
  }

  lemma PlacedStep(s: State, s': State, c: int, cx: Context, l: Link)
    requires Inv(s) && Shape(s') && 0 <= c < |s.cpus| && TopOf(s, c).Placing?
    requires ContextOk(cx, true) && Top(cx).Picking? && LinksLeft(s, s', c, cx, [s.cpus[c].cur], Unlinked, l) && LinkOk(s', s.cpus[c].cur)
    requires |s'.waiters| == |s.waiters| && s'.tcpu == s.tcpu && s'.rqLock == s.rqLock
    requires forall d :: 0 <= d < |s.cpus| && d != c ==> s'.rq[d] == s.rq[d]
    requires Paired(s'.rqLock, RqHelds(s)[c := Some(c)]) && Paired(s'.wLock, WHelds(s)[c := None])
    ensures Inv(s')
  {
    NobodyMoved(s, s', c, cx);
    QuietCarry(s, s', c, cx);
    StepOthers(s, s', c, cx);
    PlainFrame(s', c);
    TransferInv(s, s', c, cx, [s.cpus[c].cur], Unlinked, l);
  }

  lemma SwitchPlaceStep(s: State, c: int)
    requires Inv(s) && Enabled(s, c, SwitchPlace)
    ensures Assertions(s, c, SwitchPlace) && Inv(ApplySwitching(s, c, SwitchPlace))
  {
    var f := TopOf(s, c);
    RunsNow(s, c);
    ZombieIsParked(s, c);
    assert !Parked(Me(s, c)) by {
      assert Inside(0);
    }
    HeldRq(s, c, c);
    if f.target.ToSleep? {
      HeldW(s, c, f.target.wchan);
    }
    PlaceStep(s, c, f.target, f.saved);
    assert ApplySwitching(s, c, SwitchPlace) == Place(s, c, f.target, f.saved);
  }

  // ----- thread_consider_migration: one victim -----

  lemma MoveFirstIs(s: State, c: int, i: int, send: int, share: int)
    requires Inv(s) && 0 <= c < |s.cpus| && 0 <= i < |s.cpus| && i != c && TopOf(s, c).Moving? && Hand(Me(s, c)) != []
    requires Hand(Me(s, c))[0] != s.cpus[c].cur && AllOn(s, Hand(Me(s, c)), c)
    ensures var s' := MoveFirst(s, c, i, send, share);
            Shape(s') && StepsTo(s, s', c, Carry(Me(s, c), Moved(i, send - 1, share), Hand(Me(s, c))[1..]))
  {
    var v, rest, f := Hand(Me(s, c))[0], Hand(Me(s, c))[1..], Moved(i, send - 1, share);
    RunsNow(s, c);
    CarryTop(Me(s, c), f, rest);
    CarryIs(s, s.(tcpu := s.tcpu[v := i], rq := s.rq[i := s.rq[i] + [v]], link := s.link[v := OnRunq(i)]), c, f, rest);
  }

  /** A victim that is not current anywhere can change its CPU. */
  lemma VictimMoves(s: State, s': State, c: int, v: int, i: int, cx: Context)
    requires Shape(s) && Shape(s') && 0 <= c < |s.cpus| && 0 <= i < |s.cpus| && i != c && Lists(s) && StepsTo(s, s', c, cx)
    requires v in s.tcpu && s.tcpu[v] == c && v != s.cpus[c].cur && s'.tcpu == s.tcpu[v := i]
    requires v in s.link && s.link[v] == Mine(s, c)
    ensures SameCpus(s, s', c)
  {
    forall d | 0 <= d < |s.cpus| && d != c
      ensures HandStays(s, s', d)
    {
      var t, h := s.cpus[d].cur, Hand(s.ctx[s.cpus[d].cur]);
      var l := InHand(t, Level(s.ctx[t]));
      assert IsPlace(s, l) && ListAt(s, l) == h;
      assert forall k :: 0 <= k < |h| ==> s.link[h[k]] == l;
      assert t != s.cpus[c].cur;
    }
  }

  lemma MovedLocals(s: State, s': State, c: int, i: int, send: int, share: int, v: int, rest: seq<int>)
    requires Shape(s) && Shape(s') && 0 <= c < |s.cpus| == |s'.cpus| && 0 <= i < |s.cpus| && i != c
    requires s'.tcpu == s.tcpu[v := i] && NoDup([v] + rest) && AllOn(s, [v] + rest, c) && 0 < send <= |rest| + 1
    ensures LocalsOk(s', c, Moved(i, send - 1, share), rest)
  {
    var h := [v] + rest;
    forall k | 0 <= k < |rest|
      ensures rest[k] in s'.tcpu && s'.tcpu[rest[k]] == c
    {
      assert rest[k] == h[k + 1] && h[0] == v;
    }
  }

  lemma VictimTransfer(s: State, s': State, c: int, i: int, send: int, share: int, v: int, rest: seq<int>)
    requires Inv(s) && 0 <= c < |s.cpus| && 0 <= i < |s.cpus| && i != c && TopOf(s, c).Moving?
    requires Hand(Me(s, c)) == [v] + rest && v != s.cpus[c].cur && AllOn(s, [v] + rest, c)
    requires s' == MoveFirst(s, c, i, send, share) && Shape(s')
    requires StepsTo(s, s', c, Carry(Me(s, c), Moved(i, send - 1, share), rest))
    ensures Transfer(s, s', [v], Mine(s, c), OnRunq(i)) && SameCpus(s, s', c)
  {
    RunsNow(s, c);
    InHandNow(s, c, 0);
    OpenLists(s);
    assert ([v] + rest)[0] == v && ([v] + rest)[1..] == rest;
    AddFirstTransfer(s, s', c, i, v, rest, Moved(i, send - 1, share));
    VictimMoves(s, s', c, v, i, Carry(Me(s, c), Moved(i, send - 1, share), rest));
  }

  lemma VictimWakeups(s: State, s': State, c: int, i: int, send: int, share: int, rest: seq<int>)
    requires Inv(s) && Shape(s') && 0 <= c < |s.cpus| && 0 <= i < |s.cpus| && TopOf(s, c) == Moving(i, send, share)
    requires Hand(Me(s, c)) != [] && Hand(Me(s, c))[0] != s.cpus[c].cur
    requires s' == MoveFirst(s, c, i, send, share) && StepsTo(s, s', c, Carry(Me(s, c), Moved(i, send - 1, share), rest))
    ensures KeepsWakeups(s, s', c)
  {
    RunsNow(s, c);
    CarryTop(Me(s, c), Moved(i, send - 1, share), rest);
    HeldRq(s, c, i);
    AddedWakeups(s, s', c, i, Carry(Me(s, c), Moved(i, send - 1, share), rest));
  }

  lemma MoveFirstStep(s: State, c: int, i: int, send: int, share: int)
    requires Inv(s) && 0 <= c < |s.cpus| && TopOf(s, c) == Moving(i, send, share) && send > 0
    requires Hand(Me(s, c)) != [] && Hand(Me(s, c))[0] != s.cpus[c].cur
    requires 0 <= i < |s.cpus| && i != c && AllOn(s, Hand(Me(s, c)), c) && send <= |Hand(Me(s, c))|
    ensures Inv(MoveFirst(s, c, i, send, share))
  {
    var s' := MoveFirst(s, c, i, send, share);
    var v, rest, f := Hand(Me(s, c))[0], Hand(Me(s, c))[1..], Moved(i, send - 1, share);
    assert Hand(Me(s, c)) == [v] + rest;
    MoveFirstIs(s, c, i, send, share);
    VictimTransfer(s, s', c, i, send, share, v, rest);
    VictimWakeups(s, s', c, i, send, share, rest);
    HandNoDup(s, c);
    MovedLocals(s, s', c, i, send, share, v, rest);
    VictimMoved(s, s', c, i, send, share, v, rest);
    MovedStep(s, s', c, i, f, v, rest);
  }

  lemma MovedStep(s: State, s': State, c: int, i: int, f: Frame, v: int, rest: seq<int>)
    requires Inv(s) && Shape(s') && 0 <= c < |s.cpus| && TopOf(s, c).Moving? && f.Moved? && f.i == TopOf(s, c).i
    requires StepsTo(s, s', c, Carry(Me(s, c), f, rest)) && Transfer(s, s', [v], Mine(s, c), OnRunq(i)) && SameCpus(s, s', c)
    requires v in s'.link && LinkOk(s', v) && (forall t :: t in s.link && t != v ==> s'.tcpu[t] == s.tcpu[t])
    requires s'.rqLock == s.rqLock && s'.wLock == s.wLock && |s'.waiters| == |s.waiters|
    requires forall d :: 0 <= d < |s.cpus| ==> |s'.rq[d]| >= |s.rq[d]|
    requires LocalsOk(s', c, f, rest) && KeepsWakeups(s, s', c)
    ensures Inv(s')
  {
    CarryInv(s, s', c, f, rest, [v], Mine(s, c), OnRunq(i));
  }

  lemma VictimMoved(s: State, s': State, c: int, i: int, send: int, share: int, v: int, rest: seq<int>)
    requires Shape(s) && Shape(s') && 0 <= c < |s.cpus| && 0 <= i < |s.cpus| && Hand(Me(s, c)) == [v] + rest && v != s.cpus[c].cur
    requires s' == MoveFirst(s, c, i, send, share) && v in s.link
    ensures v in s'.link && LinkOk(s', v)
    ensures (forall t :: t in s.link && t != v ==> s'.tcpu[t] == s.tcpu[t])
    ensures s'.rqLock == s.rqLock && s'.wLock == s.wLock && |s'.waiters| == |s.waiters|
    ensures forall d :: 0 <= d < |s.cpus| ==> |s'.rq[d]| >= |s.rq[d]|
  {
    assert ([v] + rest)[0] == v;
  }

  lemma HandNoDup(s: State, c: int)
    requires Inv(s) && 0 <= c < |s.cpus| && Carries(TopOf(s, c))
    ensures NoDup(Hand(Me(s, c)))
  {
    RunsNow(s, c);
    MineIsPlace(s, c);
    OpenLists(s);
  }

  /** The current thread goes to the end of the victims. */
  lemma RotateLists(s: State, s': State, c: int, f: Frame, v: int, rest: seq<int>)
    requires Shape(s) && 0 <= c < |s.cpus| && Lists(s) && ContextOk(Me(s, c), true) && Carries(TopOf(s, c)) && Hand(Me(s, c)) == [v] + rest
    requires StepsTo(s, s', c, Carry(Me(s, c), f, rest + [v]))
    requires s'.link == s.link && s'.rq == s.rq && s'.waiters == s.waiters && s'.zombies == s.zombies
    ensures Lists(s')
  {
    MineIsPlace(s, c);
    CarriedLists(s, s', c, f, rest + [v]);
    forall l | IsPlace(s', l)
      ensures IsList(ListAt(s', l), s'.link, l)
    {
      if l == Mine(s, c) {
        Rotated(v, rest, s.link, l);
      } else {
        assert IsPlace(s, l) && ListAt(s', l) == ListAt(s, l);
      }
    }
  }

  lemma Rotated(v: int, rest: seq<int>, link: map<int, Link>, l: Link)
    requires IsList([v] + rest, link, l)
    ensures IsList(rest + [v], link, l)
  {
    var a, b := [v] + rest, rest + [v];
    assert forall k :: 0 <= k < |rest| ==> b[k] == a[k + 1];
    assert b[|rest|] == a[0];
    forall t | t in link && link[t] == l
      ensures t in b
    {
      assert t in a;
    }
  }

  lemma RotateLinks(s: State, s': State, c: int, f: Frame, h: seq<int>)
    requires Inv(s) && Shape(s') && 0 <= c < |s.cpus| && Carries(TopOf(s, c)) && !f.Absent?
    requires StepsTo(s, s', c, Carry(Me(s, c), f, h)) && s'.link == s.link && s'.tcpu == s.tcpu
    requires |s'.rq| == |s.rq| && |s'.waiters| == |s.waiters| && |s'.zombies| == |s.zombies|
    ensures Links(s')
  {
    Open(s);
    RunsNow(s, c);
    CarryTop(Me(s, c), f, h);
    ZombieIsParked(s, c);
    forall t | t in s'.link
      ensures LinkOk(s', t)
    {
      assert LinkOk(s, t);
    }
  }

  lemma RotateIs(s: State, c: int, f: Frame, h: seq<int>)
    requires Inv(s) && 0 <= c < |s.cpus| && Carries(TopOf(s, c)) && !f.Absent?
    ensures var s' := Put(s, c, GotoWith(CoreOf(s, c), f, h)); Shape(s') && StepsTo(s, s', c, Carry(Me(s, c), f, h))
  {
    RunsNow(s, c);
    CarryTop(Me(s, c), f, h);
    CarryIs(s, s, c, f, h);
  }

  lemma RotateStep(s: State, c: int, f: Frame, h: seq<int>)
    requires Inv(s) && 0 <= c < |s.cpus| && Hand(Me(s, c)) != [] && h == Hand(Me(s, c))[1..] + [Hand(Me(s, c))[0]]
    requires TopOf(s, c).Moving? && f.Moving? && f.i == TopOf(s, c).i && LocalsOk(s, c, f, h)
    ensures Inv(Put(s, c, GotoWith(CoreOf(s, c), f, h)))
  {
    var s', cx := Put(s, c, GotoWith(CoreOf(s, c), f, h)), Carry(Me(s, c), f, h);
    RunsNow(s, c);
    RotateIs(s, c, f, h);
    CarryTop(Me(s, c), f, h);
    CarryContext(Me(s, c), f, h);
    assert Hand(Me(s, c)) == [Hand(Me(s, c))[0]] + Hand(Me(s, c))[1..];
    NobodyMoved(s, s', c, cx);
    QuietCarry(s, s', c, cx);
    RotateLinks(s, s', c, f, h);
    StepOthers(s, s', c, cx);
    RotateParts(s, s', c, f, h);
  }

  lemma RotateParts(s: State, s': State, c: int, f: Frame, h: seq<int>)
    requires Inv(s) && Shape(s') && 0 <= c < |s.cpus| && Hand(Me(s, c)) != [] && h == Hand(Me(s, c))[1..] + [Hand(Me(s, c))[0]]
    requires TopOf(s, c).Moving? && RqHeld(f, c) == RqHeld(TopOf(s, c), c) && WHeld(f) == None
    requires ContextOk(Me(s, c), true) && Hand(Me(s, c)) == [Hand(Me(s, c))[0]] + Hand(Me(s, c))[1..]
    requires var cx := Carry(Me(s, c), f, h); ContextOk(cx, true) && Top(cx) == f && StepsTo(s, s', c, cx)
    requires s'.link == s.link && s'.rq == s.rq && s'.waiters == s.waiters && s'.zombies == s.zombies
    requires s'.rqLock == s.rqLock && s'.wLock == s.wLock
    requires SameCpus(s, s', c) && KeepsWakeups(s, s', c) && Links(s') && OthersStay(s, s', c) && FrameOk(s', c)
    ensures Inv(s')
  {
    var cx := Carry(Me(s, c), f, h);
    Open(s);
    StepContexts(s, s', c, cx);
    RotateLists(s, s', c, f, Hand(Me(s, c))[0], Hand(Me(s, c))[1..]);
    StepFrames(s, s', c, cx);
    SameLocks(s, s', c);
    WakeupsKept(s, s', c);
    assert Parts(s');
  }

  lemma MovingNow(s: State, c: int, i: int, send: int, share: int)
    requires Inv(s) && 0 <= c < |s.cpus| && TopOf(s, c) == Moving(i, send, share)
    ensures 0 <= i < |s.cpus| && i != c && 0 <= send <= |Hand(Me(s, c))| && AllOn(s, Hand(Me(s, c)), c)
  {
    NowFrame(s, c);
  }

  lemma MoveOneStep(s: State, c: int)
    requires Inv(s) && Enabled(s, c, MoveOne)
    ensures Assertions(s, c, MoveOne) && Inv(ApplyPushing(s, c, MoveOne))
  {
    var f, hand := TopOf(s, c), Hand(Me(s, c));
    MovingNow(s, c, f.i, f.send, f.share);
    HeldRq(s, c, f.i);
    if hand[0] == s.cpus[c].cur {
      var h := hand[1..] + [hand[0]];
      forall k | 0 <= k < |h|
        ensures h[k] in s.tcpu && s.tcpu[h[k]] == c
      {
        assert h[k] == if k < |hand| - 1 then hand[k + 1] else hand[0];
      }
      RotateStep(s, c, Moving(f.i, f.send - 1, f.share), h);
      assert ApplyPushing(s, c, MoveOne) == Put(s, c, GotoWith(CoreOf(s, c), Moving(f.i, f.send - 1, f.share), h));
    } else {
      MoveFirstStep(s, c, f.i, f.send, f.share);
      assert ApplyPushing(s, c, MoveOne) == MoveFirst(s, c, f.i, f.send, f.share);
    }
  }
}
