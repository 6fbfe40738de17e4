/** Counting semaphores: P and V by any number of threads, in every interleaving. The
    semaphore's spinlock and the wait channel's are separate; P goes from one to the
    other before it sleeps. */
module Semaphore {

  datatype Option<T> = None | Some(value: T)

  /** Where a thread is. `Woken` covers everything between being taken off the channel
      and getting the semaphore's lock back. */
  datatype Pc =
    | Out                 // outside P and V
    | Testing             // in P, has sem_lock, about to look at sem_count
    | Bridging            // has sem_lock and the channel's lock
    | Drowsy              // has the channel's lock only, on its way to sleep
    | Asleep              // on the channel
    | Woken               // off the channel, not yet back in the loop
    | Taken               // has sem_lock, has decremented
    | Giving              // in V, has sem_lock
    | Given               // has sem_lock, has incremented
    | Waked               // has sem_lock, wchan_wakeone is done

  /** `vs` and `ps` count the increments and decrements made since the start. */
  datatype Sem = Sem(count: int, semLock: Option<int>, wLock: Option<int>, queue: seq<int>, pc: map<int, Pc>, vs: nat, ps: nat)

  datatype Move = EnterP | Bridge | LetGo | Doze | Retry | Take | LeaveP | EnterV | Give | Wake | LeaveV

  const MAX_INT := 0x7fff_ffff

  predicate HasSemLock(p: Pc)
  {
    p.Testing? || p.Bridging? || p.Taken? || p.Giving? || p.Given? || p.Waked?
  }

  predicate HasWLock(p: Pc)
  {
    p.Bridging? || p.Drowsy?
  }

  /** When thread t can make a move. V asserts that sem_count did not overflow. */
  predicate CanMove(s: Sem, t: int, m: Move)
  {
    t in s.pc &&
    var p := s.pc[t];
    match m
    case EnterP => p.Out? && s.semLock.None?
    case Bridge => p.Testing? && s.count == 0 && s.wLock.None?
    case LetGo => p.Bridging?
    case Doze => p.Drowsy?
    case Retry => p.Woken? && s.semLock.None?
    case Take => p.Testing? && s.count != 0
    case LeaveP => p.Taken?
    case EnterV => p.Out? && s.semLock.None?
    case Give => p.Giving? && s.count < MAX_INT
    case Wake => p.Given? && s.wLock.None?
    case LeaveV => p.Waked?
  }

  function Moved(s: Sem, t: int, m: Move): Sem
    requires CanMove(s, t, m)
  {
    match m
    case EnterP => s.(semLock := Some(t), pc := s.pc[t := Testing])
    case Bridge => s.(wLock := Some(t), pc := s.pc[t := Bridging])
    case LetGo => s.(semLock := None, pc := s.pc[t := Drowsy])
    case Doze => s.(wLock := None, queue := s.queue + [t], pc := s.pc[t := Asleep])
    case Retry => s.(semLock := Some(t), pc := s.pc[t := Testing])
    case Take => s.(count := s.count - 1, pc := s.pc[t := Taken], ps := s.ps + 1)
    case LeaveP => s.(semLock := None, pc := s.pc[t := Out])
    case EnterV => s.(semLock := Some(t), pc := s.pc[t := Giving])
    case Give => s.(count := s.count + 1, pc := s.pc[t := Given], vs := s.vs + 1)
    case Wake =>
      if s.queue == [] then s.(pc := s.pc[t := Waked])
      else s.(queue := s.queue[1..], pc := s.pc[s.queue[0] := Woken][t := Waked])
    case LeaveV => s.(semLock := None, pc := s.pc[t := Out])
  }

  // ----- The invariant -----

  /** The threads that were woken and have yet to look at the count again. */
  function Retrying(s: Sem): set<int>
  {
    set t | t in s.pc && s.pc[t].Woken?
  }

  /** Somebody sleeps on the channel, or is on the way to. */
  ghost predicate SomeoneWaits(s: Sem)
  {
    s.queue != [] || exists t :: t in s.pc && HasWLock(s.pc[t])
  }

  /** The holder of sem_lock may be about to use, or to hand on, one unit. */
  ghost predicate InTheMiddle(s: Sem)
  {
    exists t :: t in s.pc && (s.pc[t].Testing? || s.pc[t].Given?)
  }

  ghost predicate Locked(s: Sem)
  {
    && (forall t :: t in s.pc ==> (HasSemLock(s.pc[t]) <==> s.semLock == Some(t)))
    && (forall t :: t in s.pc ==> (HasWLock(s.pc[t]) <==> s.wLock == Some(t)))
    && (s.semLock.Some? ==> s.semLock.value in s.pc)
    && (s.wLock.Some? ==> s.wLock.value in s.pc)
  }

  ghost predicate Queued(s: Sem)
  {
    && (forall i, j :: 0 <= i < j < |s.queue| ==> s.queue[i] != s.queue[j])
    && (forall t :: t in s.queue ==> t in s.pc)
    && (forall t :: t in s.pc ==> (s.pc[t].Asleep? <==> t in s.queue))
  }

  ghost predicate Counted(s: Sem, initial: nat)
  {
    && 0 <= s.count == initial + s.vs - s.ps
    && (forall t :: t in s.pc && s.pc[t].Bridging? ==> s.count == 0)
    && (SomeoneWaits(s) ==> s.count <= |Retrying(s)| + if InTheMiddle(s) then 1 else 0)
  }

  ghost predicate Inv(s: Sem, initial: nat)
  {
    Locked(s) && Queued(s) && Counted(s, initial)
  }

  // ----- Every move keeps it -----

  lemma MoveLocks(s: Sem, t: int, m: Move)
    requires Locked(s) && Queued(s) && CanMove(s, t, m)
    ensures Locked(Moved(s, t, m))
  {
  }

  lemma MoveQueue(s: Sem, t: int, m: Move)
    requires Locked(s) && Queued(s) && CanMove(s, t, m)
    ensures Queued(Moved(s, t, m))
  {
    var s' := Moved(s, t, m);
    if m.Wake? && s.queue != [] {
      assert s.queue == [s.queue[0]] + s.queue[1..];
      assert forall k :: 0 <= k < |s'.queue| ==> s'.queue[k] == s.queue[k + 1];
      forall u | u in s'.pc
        ensures s'.pc[u].Asleep? <==> u in s'.queue
      {
      }
    }
  }

  /** How the woken threads change: V adds the head of the queue, a retry takes one away. */
  lemma MoveRetrying(s: Sem, t: int, m: Move)
    requires Queued(s) && CanMove(s, t, m)
    ensures Retrying(Moved(s, t, m)) ==
            if m.Retry? then Retrying(s) - {t}
            else if m.Wake? && s.queue != [] then Retrying(s) + {s.queue[0]}
            else Retrying(s)
    ensures m.Retry? ==> t in Retrying(s)
    ensures m.Wake? && s.queue != [] ==> s.queue[0] !in Retrying(s)
  {
    var s' := Moved(s, t, m);
    if m.Wake? && s.queue != [] {
      assert s.queue[0] in s.queue && s.queue[0] != t;
    }
    forall u
      ensures u in Retrying(s') <==>
              u in if m.Retry? then Retrying(s) - {t} else if m.Wake? && s.queue != [] then Retrying(s) + {s.queue[0]} else Retrying(s)
    {
    }
  }

  lemma Holder(s: Sem, t: int)
    requires Locked(s) && t in s.pc && HasSemLock(s.pc[t])
    ensures InTheMiddle(s) ==> s.pc[t].Testing? || s.pc[t].Given?
  {
  }

  lemma NoHolder(s: Sem)
    requires Locked(s) && s.semLock.None?
    ensures !InTheMiddle(s)
  {
  }

  lemma InMiddle(s: Sem, t: int)
    requires t in s.pc && (s.pc[t].Testing? || s.pc[t].Given?)
    ensures InTheMiddle(s)
  {
  }

  /** Who waits after a move waited before, or is the one bridging. */
  lemma WaitersBefore(s: Sem, t: int, m: Move)
    requires Locked(s) && Queued(s) && CanMove(s, t, m) && SomeoneWaits(Moved(s, t, m)) && !m.Bridge?
    ensures SomeoneWaits(s)
  {
    var s' := Moved(s, t, m);
    if s'.queue == [] {
      var u :| u in s'.pc && HasWLock(s'.pc[u]);
      assert u in s.pc && HasWLock(s.pc[u]);
    } else if m.Doze? {
      assert HasWLock(s.pc[t]);
    }
  }

  lemma MoveCount(s: Sem, t: int, m: Move, initial: nat)
    requires Inv(s, initial) && CanMove(s, t, m)
    ensures Counted(Moved(s, t, m), initial)
  {
    var s' := Moved(s, t, m);
    MoveRetrying(s, t, m);
    MoveLocks(s, t, m);
    if SomeoneWaits(s') && !m.Bridge? {
      WaitersBefore(s, t, m);
      MoveBound(s, t, m, initial);
    }
  }

  lemma MoveBound(s: Sem, t: int, m: Move, initial: nat)
    requires Inv(s, initial) && CanMove(s, t, m) && SomeoneWaits(s) && !m.Bridge? && SomeoneWaits(Moved(s, t, m))
    requires Locked(Moved(s, t, m))
    ensures Moved(s, t, m).count <= |Retrying(Moved(s, t, m))| + if InTheMiddle(Moved(s, t, m)) then 1 else 0
  {
    var s' := Moved(s, t, m);
    MoveRetrying(s, t, m);
    match m
    case EnterP => NoHolder(s);
    case EnterV => NoHolder(s);
    case Retry => NoHolder(s); InMiddle(s', t);
    case Take => InMiddle(s, t);
    case Give => Holder(s, t); InMiddle(s', t);
    case Wake => WakeBound(s, t);
    case LetGo => assert s.count == 0;
    case Doze => if InTheMiddle(s) { SameMiddle(s, t, m); }
    case _ => Holder(s, t);
  }

  /** wchan_wakeone finds the queue empty only when nobody waits at all. */
  lemma WakeBound(s: Sem, t: int)
    requires Locked(s) && Queued(s) && CanMove(s, t, Wake) && SomeoneWaits(s)
    ensures s.queue != []
  {
  }

  lemma SameMiddle(s: Sem, t: int, m: Move)
    requires CanMove(s, t, m) && m.Doze? && InTheMiddle(s)
    ensures InTheMiddle(Moved(s, t, m))
  {
    var u :| u in s.pc && (s.pc[u].Testing? || s.pc[u].Given?);
    assert u in Moved(s, t, m).pc && Moved(s, t, m).pc[u] == s.pc[u];
  }

  lemma MoveIsSafe(s: Sem, t: int, m: Move, initial: nat)
    requires Inv(s, initial) && CanMove(s, t, m)
    ensures Inv(Moved(s, t, m), initial)
  {
    MoveLocks(s, t, m);
    MoveQueue(s, t, m);
    MoveCount(s, t, m, initial);
  }

  // ----- Runs -----

  datatype Turn = Turn(thread: int, move: Move)

  /** A run from a fresh semaphore. */
  ghost predicate IsRun(initial: nat, states: seq<Sem>, turns: seq<Turn>)
  {
    && |states| == |turns| + 1
    && states[0].count == initial && states[0].vs == states[0].ps == 0
    && states[0].semLock == states[0].wLock == None && states[0].queue == []
    && (forall t :: t in states[0].pc ==> states[0].pc[t] == Out)
    && forall i :: 0 <= i < |turns| ==>
         CanMove(states[i], turns[i].thread, turns[i].move) && states[i + 1] == Moved(states[i], turns[i].thread, turns[i].move)
  }

  lemma {:induction false} RunIsSafe(initial: nat, states: seq<Sem>, turns: seq<Turn>, i: nat)
    requires IsRun(initial, states, turns) && i < |states|
    ensures Inv(states[i], initial)
  {
    if i > 0 {
      RunIsSafe(initial, states, turns, i - 1);
      MoveIsSafe(states[i - 1], turns[i - 1].thread, turns[i - 1].move, initial);
    }
  }

  /** The count is always the initial value plus the Vs minus the completed Ps, and
      never negative. */
  lemma CountIsExact(initial: nat, states: seq<Sem>, turns: seq<Turn>, i: nat)
    requires IsRun(initial, states, turns) && i < |states|
    ensures 0 <= states[i].count == initial + states[i].vs - states[i].ps
  {
    RunIsSafe(initial, states, turns, i);
  }

  /** No wakeup is lost: while the semaphore is unlocked and somebody waits, every
      unit of the count has a woken thread coming for it. */
  lemma NoLostWakeup(initial: nat, states: seq<Sem>, turns: seq<Turn>, i: nat)
    requires IsRun(initial, states, turns) && i < |states|
    requires states[i].semLock.None? && SomeoneWaits(states[i])
    ensures states[i].count <= |Retrying(states[i])|
  {
    RunIsSafe(initial, states, turns, i);
    NoHolder(states[i]);
  }

  /** Threads sleep for good only if the count is used up: once everybody else is
      outside, a sleeper means the count is zero. */
  lemma SleepersMeanZero(initial: nat, states: seq<Sem>, turns: seq<Turn>, i: nat)
    requires IsRun(initial, states, turns) && i < |states| && states[i].queue != []
    requires forall t :: t in states[i].pc ==> states[i].pc[t].Out? || states[i].pc[t].Asleep?
    ensures states[i].count == 0
  {
    RunIsSafe(initial, states, turns, i);
    assert forall t :: t !in Retrying(states[i]);
    assert Retrying(states[i]) == {};
  }

  /** Nobody gets stuck between the locks: whoever holds one of them can move, unless
      it is waiting for the other one, whose holder can. */
  lemma HoldersMove(initial: nat, states: seq<Sem>, turns: seq<Turn>, i: nat)
    requires IsRun(initial, states, turns) && i < |states| && (states[i].semLock.Some? || states[i].wLock.Some?)
    requires states[i].count < MAX_INT
    ensures exists t, m :: (states[i].semLock == Some(t) || states[i].wLock == Some(t)) && CanMove(states[i], t, m)
  {
    var s := states[i];
    RunIsSafe(initial, states, turns, i);
    if s.wLock.Some? {
      var t := s.wLock.value;
      assert CanMove(s, t, if s.pc[t].Bridging? then LetGo else Doze);
    } else {
      var t := s.semLock.value;
      var m := match s.pc[t]
               case Testing => if s.count == 0 then Bridge else Take
               case Taken => LeaveP
               case Giving => Give
               case Given => Wake
               case _ => LeaveV;
      assert CanMove(s, t, m);
    }
  }

  // ----- What the turns taken say -----

  /** How often a move was made, by anybody, before point i of a run. */
  function Made(turns: seq<Turn>, i: nat, m: Move): nat
    requires i <= |turns|
  {
    if i == 0 then 0 else Made(turns, i - 1, m) + (if turns[i - 1].move == m then 1 else 0)
  }

  /** How often thread t made it. */
  function MadeBy(turns: seq<Turn>, i: nat, t: int, m: Move): nat
    requires i <= |turns|
  {
    if i == 0 then 0 else MadeBy(turns, i - 1, t, m) + (if turns[i - 1] == Turn(t, m) then 1 else 0)
  }

  function One(b: bool): nat
  {
    if b then 1 else 0
  }

  predicate InP(p: Pc)
  {
    p.Testing? || p.Bridging? || p.Drowsy? || p.Asleep? || p.Woken? || p.Taken?
  }

  predicate InV(p: Pc)
  {
    p.Giving? || p.Given? || p.Waked?
  }

  /** Where the turns a thread has taken leave it. */
  predicate Balance(p: Pc, enterP: int, take: int, leaveP: int, enterV: int, give: int, wake: int, leaveV: int)
  {
    && enterP == leaveP + One(InP(p)) && take == leaveP + One(p.Taken?)
    && enterV == leaveV + One(InV(p)) && give == leaveV + One(p.Given? || p.Waked?) && wake == leaveV + One(p.Waked?)
  }

  lemma OwnStep(s: Sem, u: int, m: Move, t: int, enterP: int, take: int, leaveP: int, enterV: int, give: int, wake: int, leaveV: int)
    requires Queued(s) && CanMove(s, u, m) && t in s.pc && Balance(s.pc[t], enterP, take, leaveP, enterV, give, wake, leaveV)
    ensures t in Moved(s, u, m).pc
    ensures var own := u == t;
            Balance(Moved(s, u, m).pc[t], enterP + One(own && m == EnterP), take + One(own && m == Take), leaveP + One(own && m == LeaveP),
                    enterV + One(own && m == EnterV), give + One(own && m == Give), wake + One(own && m == Wake), leaveV + One(own && m == LeaveV))
  {
    OthersMove(s, u, m, t);
  }

  /** A thread's own turns: each P it has left took one unit, each V it has left gave
      one and woke, and it is nowhere else meanwhile. */
  lemma {:induction false} OwnTurns(initial: nat, states: seq<Sem>, turns: seq<Turn>, i: nat, t: int)
    requires IsRun(initial, states, turns) && i <= |turns| && t in states[0].pc
    ensures t in states[i].pc
    ensures Balance(states[i].pc[t], MadeBy(turns, i, t, EnterP), MadeBy(turns, i, t, Take), MadeBy(turns, i, t, LeaveP),
                    MadeBy(turns, i, t, EnterV), MadeBy(turns, i, t, Give), MadeBy(turns, i, t, Wake), MadeBy(turns, i, t, LeaveV))
  {
    if i > 0 {
      var j := i - 1;
      OwnTurns(initial, states, turns, j, t);
      RunIsSafe(initial, states, turns, j);
      OwnStep(states[j], turns[j].thread, turns[j].move, t, MadeBy(turns, j, t, EnterP), MadeBy(turns, j, t, Take), MadeBy(turns, j, t, LeaveP),
              MadeBy(turns, j, t, EnterV), MadeBy(turns, j, t, Give), MadeBy(turns, j, t, Wake), MadeBy(turns, j, t, LeaveV));
    }
  }

  /** Another thread's move changes a thread only by waking it. */
  lemma OthersMove(s: Sem, u: int, m: Move, t: int)
    requires Queued(s) && CanMove(s, u, m) && t in s.pc
    ensures t in Moved(s, u, m).pc
    ensures t != u ==> Moved(s, u, m).pc[t] == s.pc[t] || (s.pc[t].Asleep? && Moved(s, u, m).pc[t].Woken?)
    ensures Moved(s, u, m).pc[u] == match m
                                    case EnterP | Retry => Testing
                                    case Bridge => Bridging
                                    case LetGo => Drowsy
                                    case Doze => Asleep
                                    case Take => Taken
                                    case EnterV => Giving
                                    case Give => Given
                                    case Wake => Waked
                                    case _ => Out
  {
    if m.Wake? && s.queue != [] {
      assert s.queue[0] in s.queue;
    }
  }

  /** Somebody has taken a unit and not left P yet. */
  predicate Leaving(s: Sem)
  {
    s.semLock.Some? && s.semLock.value in s.pc && s.pc[s.semLock.value].Taken?
  }

  /** Somebody has given a unit and not left V yet. */
  predicate Gave(s: Sem)
  {
    s.semLock.Some? && s.semLock.value in s.pc && (s.pc[s.semLock.value].Given? || s.pc[s.semLock.value].Waked?)
  }

  lemma AllStep(s: Sem, u: int, m: Move)
    requires Locked(s) && Queued(s) && CanMove(s, u, m)
    ensures var s' := Moved(s, u, m);
            && s'.vs == s.vs + One(m == Give) && s'.ps == s.ps + One(m == Take)
            && One(Leaving(s')) == One(Leaving(s)) + One(m == Take) - One(m == LeaveP)
            && One(Gave(s')) == One(Gave(s)) + One(m == Give) - One(m == LeaveV)
  {
    OthersMove(s, u, m, u);
    if s.semLock.Some? {
      OthersMove(s, u, m, s.semLock.value);
    }
  }

  /** Over all threads: the units taken are those of the Ps left, and one more while
      somebody is on the way out; the units given are those of the Vs left, and so on. */
  lemma {:induction false} AllTurns(initial: nat, states: seq<Sem>, turns: seq<Turn>, i: nat)
    requires IsRun(initial, states, turns) && i <= |turns|
    ensures states[i].vs == Made(turns, i, Give) && states[i].ps == Made(turns, i, Take)
    ensures Made(turns, i, Take) == Made(turns, i, LeaveP) + One(Leaving(states[i]))
    ensures Made(turns, i, Give) == Made(turns, i, LeaveV) + One(Gave(states[i]))
  {
    if i > 0 {
      AllTurns(initial, states, turns, i - 1);
      RunIsSafe(initial, states, turns, i - 1);
      AllStep(states[i - 1], turns[i - 1].thread, turns[i - 1].move);
    }
  }

  /** What a semaphore is for: no more threads get through P than the initial count and
      the Vs allow, and the count is exactly what is left. */
  lemma ThroughP(initial: nat, states: seq<Sem>, turns: seq<Turn>, i: nat)
    requires IsRun(initial, states, turns) && i <= |turns|
    ensures Made(turns, i, LeaveP) <= initial + Made(turns, i, Give)
    ensures states[i].count == initial + Made(turns, i, Give) - Made(turns, i, LeaveP) - One(Leaving(states[i]))
  {
    CountIsExact(initial, states, turns, i);
    AllTurns(initial, states, turns, i);
  }

  /** The threads that went to sleep, in order. */
  function Dozed(turns: seq<Turn>, i: nat): seq<int>
    requires i <= |turns|
  {
    if i == 0 then [] else Dozed(turns, i - 1) + (if turns[i - 1].move == Doze then [turns[i - 1].thread] else [])
  }

  /** How many Vs found somebody asleep. */
  function Awakened(states: seq<Sem>, turns: seq<Turn>, i: nat): nat
    requires i <= |turns| < |states|
  {
    if i == 0 then 0
    else Awakened(states, turns, i - 1) + One(turns[i - 1].move == Wake && |states[i - 1].queue| > 0)
  }

  /** Each V that finds somebody asleep wakes one thread, the one asleep longest; nobody
      else wakes anybody. */
  lemma {:induction false} WokenInTurn(initial: nat, states: seq<Sem>, turns: seq<Turn>, i: nat)
    requires IsRun(initial, states, turns) && i <= |turns|
    ensures Awakened(states, turns, i) <= |Dozed(turns, i)|
    ensures states[i].queue == Dozed(turns, i)[Awakened(states, turns, i)..]
  {
    if i > 0 {
      WokenInTurn(initial, states, turns, i - 1);
      var d, k := Dozed(turns, i - 1), Awakened(states, turns, i - 1);
      assert k < |d| ==> d[k..][1..] == d[k + 1..];
      assert (d + [turns[i - 1].thread])[k..] == d[k..] + [turns[i - 1].thread];
    }
  }
}
