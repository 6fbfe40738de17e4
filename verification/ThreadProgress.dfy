/** No CPU waits for a run queue or channel lock it holds itself, and whoever holds one
    can go on, or waits for a lock whose holder can: these locks cannot deadlock. */
module ThreadProgress {
  import opened ThreadSystem
  import opened ThreadSteps
  import opened ThreadSafety
  import opened ThreadLocalSteps
  import opened ThreadListSteps
  import opened ThreadRuns

  /** CPU c can go on with what it does in the thread system; what the code around that
      could do, or an interrupt, does not count. */
  ghost predicate CanMove(s: State, c: int)
    requires Shape(s)
  {
    exists a :: !IsCodeStep(a) && Enabled(s, c, a)
  }

  /** The run queue lock the code at a frame is about to take. */
  function Wanted(s: State, c: int): Option<int>
    requires Shape(s) && 0 <= c < |s.cpus|
  {
    var f, h := TopOf(s, c), Hand(Me(s, c));
    match f
    case Waking => if |h| > 0 && h[0] in s.tcpu then Some(s.tcpu[h[0]]) else None
    case Entered(_, _) | Rousing(_) | Taking(_, _) => Some(c)
    case Counting(i, _, _) => if i < |s.cpus| then Some(i) else None
    case Pushing(i, send, _) => if i < |s.cpus| && send > 0 && i != c then Some(i) else None
    case Returning => if |h| > 0 then Some(c) else None
    case _ => None
  }

  /** `panic("Deadlock on spinlock")` never happens: no CPU waits for a run queue lock
      that it holds. */
  lemma NoSelfDeadlock(s: State, c: int, d: int)
    requires Reachable(s) && Shape(s) && 0 <= c < |s.cpus| && 0 <= d < |s.rqLock| && Wanted(s, c) == Some(d)
    ensures s.rqLock[d] != Some(c)
  {
    ReachableIsSafe(s);
    OpenLocks(s);
    assert RqHelds(s)[c] == RqHeld(TopOf(s, c), c) == None;
  }

  /** Nor is a wait channel locked by the CPU that is about to lock it. */
  lemma NoSelfDeadlockOnChannel(s: State, c: int, w: int)
    requires Reachable(s) && Shape(s) && 0 <= c < |s.cpus| && 0 <= w < |s.wLock| && OwnCode(TopOf(s, c))
    ensures s.wLock[w] != Some(c)
  {
    ReachableIsSafe(s);
    OpenLocks(s);
    assert WHelds(s)[c] == WHeld(TopOf(s, c)) == None;
  }

  /** Whoever holds a run queue lock can go on. */
  lemma HolderMoves(s: State, h: int)
    requires Inv(s) && 0 <= h < |s.cpus| && RqHeld(TopOf(s, h), h).Some?
    ensures CanMove(s, h)
  {
    NowFrame(s, h);
    var f := TopOf(s, h);
    var a := match f
             case Adding(_) => WakeAdd
             case Added(_, unidle) => if unidle then WakeIpi else WakeRelease
             case Moving(i, send, share) => if |s.rq[i]| < share && send > 0 then MoveOne else PushUnlock
             case Moved(_, _, _) => MoveIpi
             case Placing(_, _) => SwitchPlace
             case Picking(_) => SwitchPick
             case _ => SwitchResume;
    assert Enabled(s, h, a);
  }

  lemma FirstHasCpu(s: State, c: int)
    requires Inv(s) && 0 <= c < |s.cpus| && TopOf(s, c).Waking? && |Hand(Me(s, c))| > 0
    ensures Hand(Me(s, c))[0] in s.tcpu
  {
    InHandNow(s, c, 0);
    var t := Hand(Me(s, c))[0];
    assert t in s.link;
    assert t in s.ctx;
  }

  lemma TopIsThere(s: State, c: int)
    requires Inv(s) && 0 <= c < |s.cpus|
    ensures !TopOf(s, c).Absent?
  {
    RunsNow(s, c);
    assert Inside(0);
    assert Levels(Me(s, c));
  }

  /** What a CPU can do when the lock it wants, if any, is free. */
  lemma MovesIfFree(s: State, c: int)
    requires Inv(s) && 0 <= c < |s.cpus| && RqHeld(TopOf(s, c), c).None? && !OwnCode(TopOf(s, c))
    requires Wanted(s, c).Some? ==> RqFree(s, Wanted(s, c).value)
    ensures CanMove(s, c)
  {
    NowFrame(s, c);
    var f, hand := TopOf(s, c), Hand(Me(s, c));
    if f.Waking? && |hand| > 0 {
      FirstHasCpu(s, c);
    }
    TopIsThere(s, c);
    var a := match f
             case Waking => if |hand| > 0 then WakeLock else WakeDone
             case Locked(_) => UnlockWchan
             case Entered(_, _) => SwitchLock
             case Idling(_) => IdleReturn
             case Rousing(_) => IdleRelock
             case Cleaning(_) => if |s.zombies[c]| > 0 then Exorcise else SwitchDone
             case Counting(i, _, _) => if i < |s.cpus| then CountOne else CountDone
             case Taking(_, _) => TakeVictims
             case Pushing(i, send, _) => if i >= |s.cpus| || send == 0 || i == c then PushNext else PushLock
             case _ => ReturnVictims;
    assert Enabled(s, c, a);
  }

  /** CPU c waits for a run queue lock that CPU h holds, and h can go on. */
  ghost predicate WaitsFor(s: State, c: int, h: int)
    requires Shape(s) && 0 <= c < |s.cpus|
  {
    0 <= h < |s.cpus| && h != c && CanMove(s, h) && Wanted(s, c).Some? && RqHeld(TopOf(s, h), h) == Wanted(s, c)
  }

  /** In every reachable state a CPU inside the thread system can go on, or it waits for
      a run queue lock that another CPU holds, and that one can go on. */
  lemma NobodyDeadlocks(s: State, c: int)
    requires Reachable(s) && Shape(s) && 0 <= c < |s.cpus| && !OwnCode(TopOf(s, c))
    ensures CanMove(s, c) || exists h :: WaitsFor(s, c, h)
  {
    ReachableIsSafe(s);
    OpenLocks(s);
    if RqHeld(TopOf(s, c), c).Some? {
      HolderMoves(s, c);
    } else if Wanted(s, c).Some? && !RqFree(s, Wanted(s, c).value) {
      var d := Wanted(s, c).value;
      WantedInRange(s, c);
      var h := s.rqLock[d].value;
      assert RqHelds(s)[h] == Some(d);
      NoSelfDeadlock(s, c, d);
      HolderMoves(s, h);
      assert WaitsFor(s, c, h);
    } else {
      MovesIfFree(s, c);
    }
  }

  /** A wait channel that somebody wants to lock or wake is free, or its holder can go
      on, or waits for its run queue lock, whose holder can go on. */
  lemma ChannelsDoNotDeadlock(s: State, w: int)
    requires Reachable(s) && Shape(s) && 0 <= w < |s.wLock| && s.wLock[w].Some?
    ensures var h := s.wLock[w].value; 0 <= h < |s.cpus| && (CanMove(s, h) || exists g :: WaitsFor(s, h, g))
  {
    ReachableIsSafe(s);
    OpenLocks(s);
    var h := s.wLock[w].value;
    assert WHelds(s)[h] == Some(w);
    assert WHeld(TopOf(s, h)) == Some(w);
    NobodyDeadlocks(s, h);
  }

  lemma WantedInRange(s: State, c: int)
    requires Inv(s) && 0 <= c < |s.cpus| && Wanted(s, c).Some?
    ensures 0 <= Wanted(s, c).value < |s.rqLock|
  {
    NowFrame(s, c);
    var h := Hand(Me(s, c));
    if TopOf(s, c).Waking? {
      OpenLink(s, h[0]);
    }
  }
}
