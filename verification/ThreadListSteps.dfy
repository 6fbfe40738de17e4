/** The steps of the thread system that queue, dequeue or hand over threads. */
module ThreadListSteps {
  import opened ThreadSystem
  import opened ThreadSteps
  import opened ThreadSafety
  import opened ThreadLocalSteps
  import opened ThreadLists

  // ----- Taking threads in hand and giving them away -----

  /** The context at f with the threads h in hand. */
  function Carry(me: Context, f: Frame, h: seq<int>): Context
  {
    SetTop(SetHand(me, h), f)
  }

  predicate Carries(f: Frame)
  {
    IsWaking(f) || IsMigration(f)
  }

  lemma CarryContext(me: Context, f: Frame, h: seq<int>)
    requires ContextOk(me, true) && (OwnCode(Top(me)) || Carries(Top(me))) && Held(f) == Held(Top(me))
    requires Carries(f) || (f == Outside(me) && h == [])
    requires IsMigration(f) ==> IsMigration(Top(me))
    ensures ContextOk(Carry(me, f, h), true)
  {
    assert Inside(0);
    CarryTop(me, f, h);
    if !me.soft.Absent? {
    } else if !me.hard.Absent? {
      assert me.switch.Absent?;
    } else {
      assert me.switch.Absent?;
    }
  }

  lemma CarryTop(me: Context, f: Frame, h: seq<int>)
    requires ContextOk(me, true) && (OwnCode(Top(me)) || Carries(Top(me))) && !f.Absent?
    ensures var cx := Carry(me, f, h);
            && Top(cx) == f && Hand(cx) == h
            && cx.count == me.count && cx.state == me.state && Parked(cx) == Parked(me) && (Parked(me) ==> cx.hard == me.hard)
  {
    assert Inside(0);
    assert me.soft.Absent? ==> me.switch.Absent?;
  }

  lemma CarryHands(me: Context, f: Frame, h: seq<int>)
    requires ContextOk(me, true) && (OwnCode(Top(me)) || Carries(Top(me)))
    ensures 0 <= Level(me) <= 2 && HandAt(me, Level(me)) == Hand(me) && HandAt(Carry(me, f, h), Level(me)) == h
    ensures forall level :: 0 <= level <= 2 && level != Level(me) ==> HandAt(Carry(me, f, h), level) == HandAt(me, level)
    ensures OwnCode(Top(me)) ==> Hand(me) == []
    ensures Held(Top(me)) == 0 ==> RqHeld(Top(me), 0) == None && WHeld(Top(me)) == None
  {
    assert Inside(0);
    assert me.soft.Absent? ==> me.switch.Absent?;
  }

  lemma CarryIs(s: State, s1: State, c: int, f: Frame, h: seq<int>)
    requires Shape(s) && 0 <= c < |s.cpus| && s1.cpus == s.cpus && s1.ctx == s.ctx
    requires Masked(CoreOf(s, c)) && s.cpus[c].isidle == Parked(Me(s, c))
    requires var cx := Carry(Me(s, c), f, h); cx.count == Me(s, c).count && Parked(cx) == Parked(Me(s, c))
    ensures StepsTo(s, Put(s1, c, GotoWith(CoreOf(s, c), f, h)), c, Carry(Me(s, c), f, h))
  {
  }

  /** The private list at the running level, as a place. */
  lemma MineIsPlace(s: State, c: int)
    requires Shape(s) && 0 <= c < |s.cpus| && ContextOk(Me(s, c), true) && (OwnCode(TopOf(s, c)) || Carries(TopOf(s, c)))
    ensures IsPlace(s, Mine(s, c)) && ListAt(s, Mine(s, c)) == Hand(Me(s, c))
  {
    CarryHands(Me(s, c), Code, []);
  }

  /** Lists after a step that took h in hand: private lists of others, and of other
      levels, are as they were. */
  lemma CarriedLists(s: State, s': State, c: int, f: Frame, h: seq<int>)
    requires Shape(s) && 0 <= c < |s.cpus| && ContextOk(Me(s, c), true) && (OwnCode(TopOf(s, c)) || Carries(TopOf(s, c)))
    requires StepsTo(s, s', c, Carry(Me(s, c), f, h))
    ensures forall t, level :: IsPlace(s', InHand(t, level)) <==> IsPlace(s, InHand(t, level))
    ensures forall t, level :: IsPlace(s, InHand(t, level)) && InHand(t, level) != Mine(s, c) ==>
              ListAt(s', InHand(t, level)) == ListAt(s, InHand(t, level))
    ensures IsPlace(s', Mine(s, c)) && ListAt(s', Mine(s, c)) == h
  {
    CarryHands(Me(s, c), f, h);
  }

  lemma ZombieIsParked(s: State, c: int)
    requires Inv(s) && 0 <= c < |s.cpus|
    ensures s.link[s.cpus[c].cur].Unlinked? != Parked(Me(s, c))
  {
    Open(s);
  }

  /** A step that only moves the threads ts between a list and the hand, or puts
      them where they belong. */
  lemma CarryInv(s: State, s': State, c: int, f: Frame, h: seq<int>, ts: seq<int>, l0: Link, l1: Link)
    requires Inv(s) && 0 <= c < |s.cpus| && (OwnCode(TopOf(s, c)) || Carries(TopOf(s, c))) && Held(f) == Held(TopOf(s, c))
    requires Carries(f) || (f == Outside(Me(s, c)) && h == [])
    requires IsMigration(f) ==> IsMigration(TopOf(s, c))
    requires Shape(s') && StepsTo(s, s', c, Carry(Me(s, c), f, h)) && Transfer(s, s', ts, l0, l1) && !l0.Unlinked? && !l1.Unlinked?
    requires SameCpus(s, s', c) && (forall t :: t in s.link && t !in ts ==> s'.tcpu[t] == s.tcpu[t])
    requires s'.rqLock == s.rqLock && s'.wLock == s.wLock && |s'.waiters| == |s.waiters|
    requires RqHeld(f, c) == RqHeld(TopOf(s, c), c) && WHeld(f) == WHeld(TopOf(s, c))
    requires forall k :: 0 <= k < |ts| ==> ts[k] in s'.link && LinkOk(s', ts[k])
    requires forall d :: 0 <= d < |s.cpus| && d != c ==> |s'.rq[d]| >= |s.rq[d]|
    requires LocalsOk(s', c, f, h) && KeepsWakeups(s, s', c)
    ensures Inv(s')
  {
    var cx := Carry(Me(s, c), f, h);
    RunsNow(s, c);
    CarryContext(Me(s, c), f, h);
    CarryTop(Me(s, c), f, h);
    CarryLinks(s, s', c, f, h, ts, l0, l1);
    OpenLocks(s);
    assert RqHelds(s)[c := RqHeld(f, c)] == RqHelds(s);
    assert WHelds(s)[c := WHeld(f)] == WHelds(s);
    TransferInv(s, s', c, cx, ts, l0, l1);
  }

  lemma CarryLinks(s: State, s': State, c: int, f: Frame, h: seq<int>, ts: seq<int>, l0: Link, l1: Link)
    requires Inv(s) && 0 <= c < |s.cpus| && (OwnCode(TopOf(s, c)) || Carries(TopOf(s, c))) && !f.Absent?
    requires Shape(s') && StepsTo(s, s', c, Carry(Me(s, c), f, h)) && Transfer(s, s', ts, l0, l1) && !l0.Unlinked? && !l1.Unlinked?
    requires forall t :: t in s.link && t !in ts ==> s'.tcpu[t] == s.tcpu[t]
    ensures LinksLeft(s, s', c, Carry(Me(s, c), f, h), ts, l0, l1)
  {
    RunsNow(s, c);
    CarryTop(Me(s, c), f, h);
    ZombieIsParked(s, c);
  }

  lemma OpenLists(s: State)
    requires Inv(s)
    ensures Lists(s)
  {
    Open(s);
  }

  lemma OpenLink(s: State, t: int)
    requires Inv(s) && t in s.link
    ensures LinkOk(s, t)
  {
    Open(s);
  }

  /** No run queue changed and nobody was about to be interrupted. */
  lemma QuietCarry(s: State, s': State, c: int, cx: Context)
    requires Shape(s) && Shape(s') && 0 <= c < |s.cpus| && StepsTo(s, s', c, cx) && !Top(cx).Idling?
    requires s'.rqLock == s.rqLock && !TopOf(s, c).Added? && !TopOf(s, c).Moved?
    requires forall d :: 0 <= d < |s.cpus| && d != c ==> s'.rq[d] == s.rq[d]
    ensures KeepsWakeups(s, s', c)
  {
  }

  // ----- wchan_wakeone, wchan_wakeall -----

  lemma WaitersTransfer(s: State, s': State, c: int, w: int, n: int)
    requires Shape(s) && 0 <= c < |s.cpus| && 0 <= w < |s.waiters| && 0 <= n <= |s.waiters[w]|
    requires Lists(s) && ContextOk(Me(s, c), true) && OwnCode(TopOf(s, c))
    requires s' == TakeWaiters(s, c, w, n) && StepsTo(s, s', c, Carry(Me(s, c), Waking, s.waiters[w][..n]))
    ensures Transfer(s, s', s.waiters[w][..n], OnWchan(w), Mine(s, c))
  {
    var ts := s.waiters[w][..n];
    MineIsPlace(s, c);
    CarryHands(Me(s, c), Waking, ts);
    CarriedLists(s, s', c, Waking, ts);
    assert s.waiters[w] == ts + s.waiters[w][n..];
    assert IsPlace(s, OnWchan(w)) && ListAt(s, OnWchan(w)) == s.waiters[w];
    ListCutFront(ts, s.waiters[w][n..], s.link, OnWchan(w), Mine(s, c));
  }

  lemma TakeWaitersIs(s: State, c: int, w: int, n: int)
    requires Inv(s) && 0 <= c < |s.cpus| && 0 <= w < |s.waiters| && 0 <= n <= |s.waiters[w]| && OwnCode(TopOf(s, c))
    ensures Shape(TakeWaiters(s, c, w, n)) && StepsTo(s, TakeWaiters(s, c, w, n), c, Carry(Me(s, c), Waking, s.waiters[w][..n]))
  {
    var ts := s.waiters[w][..n];
    RunsNow(s, c);
    CarryTop(Me(s, c), Waking, ts);
    CarryIs(s, s.(waiters := s.waiters[w := s.waiters[w][n..]], link := Relink(s.link, ts, Mine(s, c))), c, Waking, ts);
  }

  lemma TakeWaitersStep(s: State, c: int, w: int, n: int)
    requires Inv(s) && 0 <= c < |s.cpus| && 0 <= w < |s.waiters| && 0 <= n <= |s.waiters[w]| && OwnCode(TopOf(s, c))
    ensures Inv(TakeWaiters(s, c, w, n))
  {
    var s' := TakeWaiters(s, c, w, n);
    var ts := s.waiters[w][..n];
    RunsNow(s, c);
    TakeWaitersIs(s, c, w, n);
    OpenLists(s);
    WaitersTransfer(s, s', c, w, n);
    TakenLinks(s, s', c, ts, OnWchan(w));
    CarryTop(Me(s, c), Waking, ts);
    QuietCarry(s, s', c, Carry(Me(s, c), Waking, ts));
    NobodyMoved(s, s', c, s'.ctx[s.cpus[c].cur]);
    CarryInv(s, s', c, Waking, ts, ts, OnWchan(w), Mine(s, c));
  }

  /** Threads just taken in hand are well linked. */
  lemma TakenLinks(s: State, s': State, c: int, ts: seq<int>, l0: Link)
    requires Inv(s) && Shape(s') && 0 <= c < |s.cpus| && |s'.cpus| == |s.cpus| && (OwnCode(TopOf(s, c)) || Carries(TopOf(s, c)))
    requires Transfer(s, s', ts, l0, Mine(s, c)) && s'.tcpu == s.tcpu
    ensures forall k :: 0 <= k < |ts| ==> ts[k] in s'.link && LinkOk(s', ts[k])
  {
    RunsNow(s, c);
    MineIsPlace(s, c);
    forall k | 0 <= k < |ts|
      ensures ts[k] in s'.link && LinkOk(s', ts[k])
    {
      OpenLink(s, ts[k]);
      assert IsPlace(s', Mine(s, c));
    }
  }

  // ----- thread_make_runnable -----

  lemma AddFirstIs(s: State, c: int, d: int)
    requires Inv(s) && 0 <= c < |s.cpus| && 0 <= d < |s.cpus| && Hand(Me(s, c)) != [] && TopOf(s, c) == Adding(d)
    ensures Shape(AddFirst(s, c, d))
    ensures StepsTo(s, AddFirst(s, c, d), c, Carry(Me(s, c), Added(d, s.cpus[d].isidle), Hand(Me(s, c))[1..]))
    ensures Hand(Me(s, c))[0] in s.link && s.link[Hand(Me(s, c))[0]] == Mine(s, c) && s.tcpu[Hand(Me(s, c))[0]] == d
  {
    var t, rest := Hand(Me(s, c))[0], Hand(Me(s, c))[1..];
    RunsNow(s, c);
    CarryTop(Me(s, c), Added(d, s.cpus[d].isidle), rest);
    InHandNow(s, c, 0);
    NowFrame(s, c);
    CarryIs(s, s.(rq := s.rq[d := s.rq[d] + [t]], link := s.link[t := OnRunq(d)]), c, Added(d, s.cpus[d].isidle), rest);
  }

  /** What is in hand is linked there. */
  lemma InHandNow(s: State, c: int, k: int)
    requires Inv(s) && 0 <= c < |s.cpus| && (OwnCode(TopOf(s, c)) || Carries(TopOf(s, c))) && 0 <= k < |Hand(Me(s, c))|
    ensures Hand(Me(s, c))[k] in s.link && s.link[Hand(Me(s, c))[k]] == Mine(s, c)
  {
    RunsNow(s, c);
    MineIsPlace(s, c);
    OpenLists(s);
  }

  lemma AddFirstTransfer(s: State, s': State, c: int, d: int, t: int, rest: seq<int>, f: Frame)
    requires Shape(s) && 0 <= c < |s.cpus| && 0 <= d < |s.rq| && ContextOk(Me(s, c), true) && Carries(TopOf(s, c))
    requires Hand(Me(s, c)) == [t] + rest && t in s.link && s.link[t] == Mine(s, c)
    requires s'.rq == s.rq[d := s.rq[d] + [t]] && s'.link == s.link[t := OnRunq(d)] && s'.waiters == s.waiters && s'.zombies == s.zombies
    requires StepsTo(s, s', c, Carry(Me(s, c), f, rest))
    ensures Transfer(s, s', [t], Mine(s, c), OnRunq(d))
  {
    MineIsPlace(s, c);
    CarriedLists(s, s', c, f, rest);
    RelinkOne(s.link, t, OnRunq(d));
  }

  /** Queueing on a CPU that idles leaves the interrupt to be sent. */
  lemma AddedWakeups(s: State, s': State, c: int, d: int, cx: Context)
    requires Shape(s) && Shape(s') && 0 <= c < |s.cpus| && 0 <= d < |s.cpus| && StepsTo(s, s', c, cx)
    requires AboutToSend(Top(cx), d) || !TopOf(s, d).Idling?
    requires !Top(cx).Idling? && s'.rqLock == s.rqLock && s.rqLock[d] == Some(c) && !TopOf(s, c).Added? && !TopOf(s, c).Moved?
    requires forall e :: 0 <= e < |s.cpus| && e != d ==> s'.rq[e] == s.rq[e]
    ensures KeepsWakeups(s, s', c)
  {
  }

  lemma WakeAddStep(s: State, c: int)
    requires Inv(s) && Enabled(s, c, WakeAdd)
    ensures Assertions(s, c, WakeAdd) && Inv(ApplyWake(s, c, WakeAdd))
  {
    var d := TopOf(s, c).dst;
    NowFrame(s, c);
    HeldRq(s, c, d);
    InHandNow(s, c, 0);
    AddFirstStep(s, c, d);
    assert ApplyWake(s, c, WakeAdd) == AddFirst(s, c, d);
  }

  lemma AddFirstStep(s: State, c: int, d: int)
    requires Inv(s) && 0 <= c < |s.cpus| && 0 <= d < |s.cpus| && Hand(Me(s, c)) != [] && TopOf(s, c) == Adding(d)
    ensures Inv(AddFirst(s, c, d))
  {
    var s' := AddFirst(s, c, d);
    var t, rest, f := Hand(Me(s, c))[0], Hand(Me(s, c))[1..], Added(d, s.cpus[d].isidle);
    RunsNow(s, c);
    AddFirstIs(s, c, d);
    AddFirstTransfer(s, s', c, d, t, rest, f);
    OpenLink(s, t);
    CarryTop(Me(s, c), f, rest);
    HeldRq(s, c, d);
    if !s.cpus[d].isidle {
      NotParkedNow(s, d);
    }
    AddedWakeups(s, s', c, d, Carry(Me(s, c), f, rest));
    NobodyMoved(s, s', c, s'.ctx[s.cpus[c].cur]);
    CarryInv(s, s', c, f, rest, [t], Mine(s, c), OnRunq(d));
  }

  // ----- thread_consider_migration -----

  lemma TailTransfer(s: State, s': State, c: int, k: int, f: Frame)
    requires Shape(s) && 0 <= c < |s.cpus| && 0 <= k <= |s.rq[c]| && Lists(s) && ContextOk(Me(s, c), true)
    requires Carries(TopOf(s, c)) && Hand(Me(s, c)) == []
    requires s'.rq == s.rq[c := s.rq[c][..k]] && s'.link == Relink(s.link, s.rq[c][k..], Mine(s, c))
    requires s'.waiters == s.waiters && s'.zombies == s.zombies && StepsTo(s, s', c, Carry(Me(s, c), f, s.rq[c][k..]))
    ensures Transfer(s, s', s.rq[c][k..], OnRunq(c), Mine(s, c))
  {
    var victims := s.rq[c][k..];
    MineIsPlace(s, c);
    CarriedLists(s, s', c, f, victims);
    assert s.rq[c] == s.rq[c][..k] + victims;
    assert IsPlace(s, OnRunq(c)) && ListAt(s, OnRunq(c)) == s.rq[c];
    ListCutBack(s.rq[c][..k], victims, s.link, OnRunq(c), Mine(s, c));
  }

  lemma TakeTailIs(s: State, c: int, send: int, share: int)
    requires Inv(s) && 0 <= c < |s.cpus| && TopOf(s, c).Taking? && 0 <= send <= |s.rq[c]|
    ensures Shape(TakeTail(s, c, send, share))
    ensures StepsTo(s, TakeTail(s, c, send, share), c, Carry(Me(s, c), Pushing(0, send, share), s.rq[c][|s.rq[c]| - send..]))
  {
    var k := |s.rq[c]| - send;
    var victims := s.rq[c][k..];
    RunsNow(s, c);
    CarryTop(Me(s, c), Pushing(0, send, share), victims);
    CarryIs(s, s.(rq := s.rq[c := s.rq[c][..k]], link := Relink(s.link, victims, Mine(s, c))), c, Pushing(0, send, share), victims);
  }

  /** Everybody on a run queue belongs to that CPU. */
  lemma QueueIsOwn(s: State, c: int, k: int)
    requires Inv(s) && 0 <= c < |s.cpus| && 0 <= k < |s.rq[c]|
    ensures s.rq[c][k] in s.tcpu && s.tcpu[s.rq[c][k]] == c
  {
    OpenLists(s);
    assert IsPlace(s, OnRunq(c)) && ListAt(s, OnRunq(c)) == s.rq[c];
    OpenLink(s, s.rq[c][k]);
  }

  lemma TailIsOwn(s: State, c: int, k: int)
    requires Inv(s) && 0 <= c < |s.cpus| && 0 <= k <= |s.rq[c]|
    ensures AllOn(s, s.rq[c][k..], c)
  {
    forall j | 0 <= j < |s.rq[c]| - k
      ensures s.rq[c][k..][j] in s.tcpu && s.tcpu[s.rq[c][k..][j]] == c
    {
      QueueIsOwn(s, c, k + j);
    }
  }

  lemma TakingNow(s: State, c: int)
    requires Inv(s) && 0 <= c < |s.cpus| && TopOf(s, c).Taking?
    ensures Hand(Me(s, c)) == [] && 0 <= TopOf(s, c).send <= |s.rq[c]|
  {
    NowFrame(s, c);
  }

  lemma TakeTailStep(s: State, c: int, send: int, share: int)
    requires Inv(s) && 0 <= c < |s.cpus| && TopOf(s, c).Taking? && 0 <= send <= |s.rq[c]|
    ensures Inv(TakeTail(s, c, send, share))
  {
    var s' := TakeTail(s, c, send, share);
    var k, f := |s.rq[c]| - send, Pushing(0, send, share);
    var victims := s.rq[c][k..];
    RunsNow(s, c);
    TakingNow(s, c);
    TakeTailIs(s, c, send, share);
    OpenLists(s);
    TailTransfer(s, s', c, k, f);
    TakenLinks(s, s', c, victims, OnRunq(c));
    CarryTop(Me(s, c), f, victims);
    QuietCarry(s, s', c, Carry(Me(s, c), f, victims));
    TailIsOwn(s, c, k);
    NobodyMoved(s, s', c, Carry(Me(s, c), f, victims));
    CarryInv(s, s', c, f, victims, victims, OnRunq(c), Mine(s, c));
  }

  lemma TakeVictimsStep(s: State, c: int)
    requires Inv(s) && Enabled(s, c, TakeVictims)
    ensures Assertions(s, c, TakeVictims) && Inv(ApplyCounting(s, c, TakeVictims))
  {
    var f := TopOf(s, c);
    NowFrame(s, c);
    TakeTailStep(s, c, f.send, f.share);
    assert ApplyCounting(s, c, TakeVictims) == TakeTail(s, c, f.send, f.share);
  }

  lemma BackTransfer(s: State, s': State, c: int, h: seq<int>, f: Frame)
    requires Shape(s) && 0 <= c < |s.cpus| && Lists(s) && ContextOk(Me(s, c), true) && Carries(TopOf(s, c)) && Hand(Me(s, c)) == h
    requires s'.rq == s.rq[c := s.rq[c] + h] && s'.link == Relink(s.link, h, OnRunq(c))
    requires s'.waiters == s.waiters && s'.zombies == s.zombies && StepsTo(s, s', c, Carry(Me(s, c), f, []))
    ensures Transfer(s, s', h, Mine(s, c), OnRunq(c))
  {
    MineIsPlace(s, c);
    CarriedLists(s, s', c, f, []);
    assert h == h + [];
  }

  lemma GiveBackIs(s: State, c: int)
    requires Inv(s) && 0 <= c < |s.cpus| && TopOf(s, c).Returning? && Hand(Me(s, c)) != []
    ensures Shape(GiveBack(s, c)) && StepsTo(s, GiveBack(s, c), c, Carry(Me(s, c), Outside(Me(s, c)), []))
  {
    var h := Hand(Me(s, c));
    RunsNow(s, c);
    CarryTop(Me(s, c), Outside(Me(s, c)), []);
    CarryIs(s, s.(rq := s.rq[c := s.rq[c] + h], link := Relink(s.link, h, OnRunq(c))), c, Outside(Me(s, c)), []);
  }

  lemma GiveBackStep(s: State, c: int)
    requires Inv(s) && 0 <= c < |s.cpus| && TopOf(s, c).Returning?
    ensures Inv(GiveBack(s, c))
  {
    var h, f := Hand(Me(s, c)), Outside(Me(s, c));
    if h == [] {
      FinishStep(s, c);
    } else {
      var s' := GiveBack(s, c);
      RunsNow(s, c);
      NowFrame(s, c);
      GiveBackIs(s, c);
      OpenLists(s);
      BackTransfer(s, s', c, h, f);
      BackLinks(s, s', c, h);
      CarryTop(Me(s, c), f, []);
      QuietCarry(s, s', c, Carry(Me(s, c), f, []));
      NobodyMoved(s, s', c, s'.ctx[s.cpus[c].cur]);
      CarryInv(s, s', c, f, [], h, Mine(s, c), OnRunq(c));
    }
  }

  lemma BackLinks(s: State, s': State, c: int, h: seq<int>)
    requires Inv(s) && Shape(s') && 0 <= c < |s.cpus| == |s'.cpus| && AllOn(s, h, c)
    requires Transfer(s, s', h, Mine(s, c), OnRunq(c)) && s'.tcpu == s.tcpu
    ensures forall k :: 0 <= k < |h| ==> h[k] in s'.link && LinkOk(s', h[k])
  {
  }

  lemma ReturnVictimsStep(s: State, c: int)
    requires Inv(s) && Enabled(s, c, ReturnVictims)
    ensures Inv(ApplyPushing(s, c, ReturnVictims))
  {
    GiveBackStep(s, c);
    assert ApplyPushing(s, c, ReturnVictims) == GiveBack(s, c);
  }
}
