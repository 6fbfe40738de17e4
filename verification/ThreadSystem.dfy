/** The kernel thread system as a step machine: any number of CPUs, threads and wait
    channels. A thread remembers where it is in its own code, in an interrupt handler
    that broke into it, in thread_switch, and in a handler taken while its CPU idles;
    the CPU it is current on executes the innermost of these. A step is the code
    between two points where another CPU, or an interrupt, can get in. */
module ThreadSystem {

  datatype Option<T> = None | Some(value: T)

  // ----- State -----

  /** Where a thread's list node is linked. `InHand` is a private list or a local
      variable of another thread, at one of its levels. */
  datatype Link = Unlinked | OnRunq(cpu: int) | OnWchan(wchan: int) | OnZombies(of: int) | InHand(carrier: int, level: int)

  datatype Target = ToReady | ToSleep(wchan: int) | ToZombie

  datatype ThreadState = Running | Ready | Sleeping | Zombie

  datatype Frame =
    | Absent                                                  // nothing at this level
    | Code                                                    // a thread's own code, outside the thread system
    | Handler                                                 // interrupt handler code, outside the thread system
    | Waking                                                  // making the threads in hand runnable
    | Adding(dst: int)                                        // has dst's run queue lock, will add the first in hand
    | Added(dst: int, unidle: bool)                           // added; will send the IPI if unidle, then unlock
    | Locked(wchan: int)                                      // between wchan_lock and wchan_sleep
    | Entered(target: Target, saved: int)                     // thread_switch before taking the run queue lock
    | Placing(target: Target, saved: int)                     // has the lock, will queue itself
    | Picking(saved: int)                                     // queued itself, has the lock, will pick the next
    | Idling(saved: int)                                      // in cpu_idle
    | Rousing(saved: int)                                     // cpu_idle returned, wants the lock again
    | Switched(saved: int)                                    // in switchframe_switch; the lock is handed over
    | Cleaning(saved: int)                                    // lock released, in exorcise
    | Counting(i: int, mine: int, total: int)                 // thread_consider_migration, first loop
    | Taking(send: int, share: int)                           // will take the victims
    | Pushing(i: int, send: int, share: int)                  // between two CPUs of the second loop
    | Moving(i: int, send: int, share: int)                   // has CPU i's lock
    | Moved(i: int, send: int, share: int)                    // added one there, will send the IPI if it idles
    | Returning                                               // will put leftovers back

  /** The part of a thread that only the thread itself changes. `hard` is a handler
      that found interrupts on, `soft` one taken in the window cpu_idle opens. The
      hands are the threads each level has in private lists or local variables. */
  datatype Context = Context(own: Frame, hard: Frame, switch: Frame, soft: Frame,
                             hand0: seq<int>, hand1: seq<int>, hand2: seq<int>,
                             spl: int, count: int, spins: int, state: ThreadState)

  datatype Cpu = Cpu(cur: int, isidle: bool, ipi: bool, irqOff: bool)

  datatype State = State(
    cpus: seq<Cpu>,
    rq: seq<seq<int>>,                // c_runqueue
    zombies: seq<seq<int>>,           // c_zombies
    rqLock: seq<Option<int>>,         // c_runqueue_lock: the CPU holding it
    waiters: seq<seq<int>>,           // wc_threads
    wLock: seq<Option<int>>,          // wc_lock
    ctx: map<int, Context>,
    link: map<int, Link>,             // t_listnode
    tcpu: map<int, int>)              // t_cpu

  // ----- Frames -----

  /** The innermost level, where execution is. */
  function Top(cx: Context): Frame
  {
    if !cx.soft.Absent? then cx.soft
    else if !cx.switch.Absent? then cx.switch
    else if !cx.hard.Absent? then cx.hard
    else cx.own
  }

  function SetTop(cx: Context, f: Frame): Context
  {
    if !cx.soft.Absent? then cx.(soft := f)
    else if !cx.switch.Absent? then cx.(switch := f)
    else if !cx.hard.Absent? then cx.(hard := f)
    else cx.(own := f)
  }

  /** What the innermost level goes back to when an operation is done. */
  function Outside(cx: Context): Frame
  {
    if cx.soft.Absent? && cx.hard.Absent? then Code else Handler
  }

  /** Spinlocks the code at a frame holds. */
  function Held(f: Frame): (n: int)
    ensures 0 <= n <= 2
  {
    match f
    case Adding(_) | Added(_, _) | Moving(_, _, _) | Moved(_, _, _) => 1
    case Locked(_) | Picking(_) | Switched(_) => 1
    case Entered(target, _) => if target.ToSleep? then 1 else 0
    case Placing(target, _) => if target.ToSleep? then 2 else 1
    case _ => 0
  }

  /** The run queue lock the code at a frame holds when CPU c executes it. */
  function RqHeld(f: Frame, c: int): Option<int>
  {
    match f
    case Adding(dst) => Some(dst)
    case Added(dst, _) => Some(dst)
    case Moving(i, _, _) => Some(i)
    case Moved(i, _, _) => Some(i)
    case Placing(_, _) | Picking(_) | Switched(_) => Some(c)
    case _ => None
  }

  function WHeld(f: Frame): Option<int>
  {
    match f
    case Locked(w) => Some(w)
    case Entered(ToSleep(w), _) => Some(w)
    case Placing(ToSleep(w), _) => Some(w)
    case _ => None
  }

  predicate IsSwitch(f: Frame)
  {
    f.Entered? || f.Placing? || f.Picking? || f.Idling? || f.Rousing? || f.Switched? || f.Cleaning?
  }

  predicate IsMigration(f: Frame)
  {
    f.Counting? || f.Taking? || f.Pushing? || f.Moving? || f.Moved? || f.Returning?
  }

  /** The level whose hand the innermost operation uses. */
  function Level(cx: Context): int
  {
    if !cx.soft.Absent? then 2 else if !cx.hard.Absent? then 1 else 0
  }

  function Hand(cx: Context): seq<int>
  {
    if !cx.soft.Absent? then cx.hand2 else if !cx.hard.Absent? then cx.hand1 else cx.hand0
  }

  function SetHand(cx: Context, h: seq<int>): Context
  {
    if !cx.soft.Absent? then cx.(hand2 := h) else if !cx.hard.Absent? then cx.(hand1 := h) else cx.(hand0 := h)
  }

  /** Whether a thread has queued itself and its CPU has not switched away yet. */
  predicate Parked(cx: Context)
  {
    cx.switch.Picking? || cx.switch.Idling? || cx.switch.Rousing?
  }

  predicate IsWaking(f: Frame)
  {
    f.Waking? || f.Adding? || f.Added?
  }

  /** How the levels fit together, and the interrupt level they imply. An interrupt
      comes in only with interrupts on, or in the window cpu_idle opens;
      thread_switch is called by a thread's own code or by a handler that broke
      into it. */
  predicate Levels(cx: Context)
  {
    && (cx.own.Code? || cx.own.Locked? || IsWaking(cx.own))
    && (cx.hard.Absent? || cx.hard.Handler? || IsWaking(cx.hard) || IsMigration(cx.hard))
    && (cx.switch.Absent? || IsSwitch(cx.switch))
    && (cx.soft.Absent? || cx.soft.Handler? || IsWaking(cx.soft) || IsMigration(cx.soft))
    && (!cx.hard.Absent? ==> (cx.own.Code? || cx.own.Waking?) && cx.spl == 1)
    && (!cx.switch.Absent? ==>
          && cx.spl == 1 && 0 <= cx.switch.saved <= 1
          && (if cx.hard.Absent? then cx.own.Code? else cx.hard.Handler? && cx.switch.saved == 1)
          && ((cx.switch.Entered? || cx.switch.Placing?) && !cx.switch.target.ToReady? ==> cx.hard.Absent?))
    && (!cx.soft.Absent? ==> cx.switch.Idling?)
    && 0 <= cx.spl <= 1
    && (cx.hand0 != [] ==> IsWaking(cx.own))
    && (cx.hand1 != [] ==> IsWaking(cx.hard) || IsMigration(cx.hard))
    && (cx.hand2 != [] ==> IsWaking(cx.soft) || IsMigration(cx.soft))
  }

  predicate NoDup(s: seq<int>)
  {
    forall i, j :: 0 <= i < j < |s| ==> s[i] != s[j]
  }

  // ----- Invariants -----

  ghost predicate Shape(s: State)
  {
    && 0 < |s.cpus| == |s.rq| == |s.zombies| == |s.rqLock|
    && |s.waiters| == |s.wLock|
    && (forall t :: t in s.ctx <==> t in s.link)
    && (forall t :: t in s.ctx <==> t in s.tcpu)
    && forall c :: 0 <= c < |s.cpus| ==> s.cpus[c].cur in s.ctx && s.tcpu[s.cpus[c].cur] == c
  }

  function TopOf(s: State, c: int): Frame
    requires Shape(s) && 0 <= c < |s.cpus|
  {
    Top(s.ctx[s.cpus[c].cur])
  }

  predicate IsCurrent(s: State, t: int)
    requires Shape(s) && t in s.ctx
  {
    0 <= s.tcpu[t] < |s.cpus| && s.cpus[s.tcpu[t]].cur == t
  }

  predicate Inside(k: int)
  {
    true
  }

  predicate ContextParts(cx: Context, current: bool)
  {
    && Levels(cx) && cx.spins >= 0
    && cx.count == cx.spl + cx.spins + Held(Top(cx))
    && (IsSwitch(Top(cx)) || IsMigration(Top(cx)) ==> cx.spins == 0)
    && (!current ==> Top(cx).Switched?)
  }

  /** A context that is not running is inside switchframe_switch, with exactly its
      own interrupt level and the handed-over run queue lock counted. Folded until a
      proof mentions `Inside`. */
  ghost predicate ContextOk(cx: Context, current: bool)
  {
    forall k: int {:trigger Inside(k)} :: k == 0 ==> ContextParts(cx, current)
  }

  ghost predicate Contexts(s: State)
    requires Shape(s)
  {
    && (forall t :: t in s.ctx ==> ContextOk(s.ctx[t], IsCurrent(s, t)))
    && (forall c :: 0 <= c < |s.cpus| ==>
          && s.cpus[c].isidle == Parked(s.ctx[s.cpus[c].cur])
          && s.cpus[c].irqOff == (s.ctx[s.cpus[c].cur].count > 0))
  }

  /** A list without repetitions that holds exactly the threads linked on it. */
  ghost predicate IsList(q: seq<int>, link: map<int, Link>, l: Link)
  {
    && NoDup(q)
    && (forall k :: 0 <= k < |q| ==> q[k] in link && link[q[k]] == l)
    && (forall t :: t in link && link[t] == l ==> t in q)
  }

  function HandAt(cx: Context, level: int): seq<int>
  {
    if level == 0 then cx.hand0 else if level == 1 then cx.hand1 else cx.hand2
  }

  /** The places that have a list. */
  predicate IsPlace(s: State, l: Link)
  {
    match l
    case Unlinked => false
    case OnRunq(c) => 0 <= c < |s.rq|
    case OnWchan(w) => 0 <= w < |s.waiters|
    case OnZombies(c) => 0 <= c < |s.zombies|
    case InHand(t, level) => t in s.ctx && 0 <= level <= 2
  }

  function ListAt(s: State, l: Link): seq<int>
    requires IsPlace(s, l)
  {
    match l
    case OnRunq(c) => s.rq[c]
    case OnWchan(w) => s.waiters[w]
    case OnZombies(c) => s.zombies[c]
    case InHand(t, level) => HandAt(s.ctx[t], level)
  }

  /** Run queues, wait channels, zombie lists and private lists all agree with the
      list nodes: no thread is on two of them, or twice on one. */
  ghost predicate Lists(s: State)
  {
    forall l :: IsPlace(s, l) ==> IsList(ListAt(s, l), s.link, l)
  }

  ghost predicate LinkOk(s: State, t: int)
    requires Shape(s) && t in s.link
  {
    && 0 <= s.tcpu[t] < |s.cpus|
    && (s.link[t].Unlinked? || IsPlace(s, s.link[t]))
    && match s.link[t]
       case Unlinked => IsCurrent(s, t)
       case OnRunq(c) => s.tcpu[t] == c
       case OnZombies(c) => s.tcpu[t] == c && s.ctx[t].state == Zombie && s.ctx[t].hard.Absent?
       case _ => true
  }

  /** A current thread is on no list at all exactly until it has queued itself. */
  ghost predicate Links(s: State)
    requires Shape(s)
  {
    && (forall t :: t in s.link ==> LinkOk(s, t))
    && (forall c :: 0 <= c < |s.cpus| ==> Parked(s.ctx[s.cpus[c].cur]) != s.link[s.cpus[c].cur].Unlinked?)
  }

  /** Locks and the CPUs that hold them: `lock` gives each lock's holder, `held` the
      lock each CPU holds. */
  ghost predicate Paired(lock: seq<Option<int>>, held: seq<Option<int>>)
  {
    && (forall d :: 0 <= d < |lock| && lock[d].Some? ==>
          0 <= lock[d].value < |held| && held[lock[d].value] == Some(d))
    && (forall c :: 0 <= c < |held| && held[c].Some? ==>
          0 <= held[c].value < |lock| && lock[held[c].value] == Some(c))
  }

  function RqHelds(s: State): (r: seq<Option<int>>)
    requires Shape(s)
    ensures |r| == |s.cpus|
    ensures forall c :: 0 <= c < |s.cpus| ==> r[c] == RqHeld(TopOf(s, c), c)
  {
    seq(|s.cpus|, c requires 0 <= c < |s.cpus| => RqHeld(TopOf(s, c), c))
  }

  function WHelds(s: State): (r: seq<Option<int>>)
    requires Shape(s)
    ensures |r| == |s.cpus|
    ensures forall c :: 0 <= c < |s.cpus| ==> r[c] == WHeld(TopOf(s, c))
  {
    seq(|s.cpus|, c requires 0 <= c < |s.cpus| => WHeld(TopOf(s, c)))
  }

  ghost predicate LocksOk(s: State)
    requires Shape(s)
  {
    Paired(s.rqLock, RqHelds(s)) && Paired(s.wLock, WHelds(s))
  }

  /** What the local variables of code at f, on CPU c with the threads h in hand,
      satisfy. */
  ghost predicate LocalsOk(s: State, c: int, f: Frame, h: seq<int>)
    requires Shape(s) && 0 <= c < |s.cpus|
  {
    match f
    case Adding(dst) => h != [] && h[0] in s.tcpu && s.tcpu[h[0]] == dst
    case Counting(i, mine, total) => 0 <= i <= |s.cpus| && 0 <= mine <= |s.rq[c]| && 0 <= total && h == []
    case Taking(send, _) => 0 <= send <= |s.rq[c]| && h == []
    case Pushing(i, send, _) => 0 <= i <= |s.cpus| && 0 <= send <= |h| && AllOn(s, h, c)
    case Moving(i, send, _) => 0 <= i < |s.cpus| && i != c && 0 <= send <= |h| && AllOn(s, h, c)
    case Moved(i, send, _) => 0 <= i < |s.cpus| && i != c && 0 <= send <= |h| && AllOn(s, h, c)
    case Returning => AllOn(s, h, c)
    case _ => true
  }

  ghost predicate FrameOk(s: State, c: int)
    requires Shape(s) && 0 <= c < |s.cpus|
  {
    LocalsOk(s, c, TopOf(s, c), Hand(s.ctx[s.cpus[c].cur]))
  }

  ghost predicate AllOn(s: State, ts: seq<int>, c: int)
  {
    forall k :: 0 <= k < |ts| ==> ts[k] in s.tcpu && s.tcpu[ts[k]] == c
  }

  /** The code at f is about to interrupt CPU c. */
  predicate AboutToSend(f: Frame, c: int)
  {
    (f.Added? && f.dst == c && f.unidle) || (f.Moved? && f.i == c)
  }

  /** A CPU parked in cpu_idle with work queued has its wakeup pending, or the CPU
      that queued the work still holds the lock and sends it next. */
  ghost predicate NoneStranded(s: State)
    requires Shape(s)
  {
    forall c :: 0 <= c < |s.cpus| && TopOf(s, c).Idling? && s.rq[c] != [] ==>
      s.cpus[c].ipi || (s.rqLock[c].Some? && 0 <= s.rqLock[c].value < |s.cpus| && AboutToSend(TopOf(s, s.rqLock[c].value), c))
  }

  /** Writing `Unfolding(0)` in a proof makes the parts of an invariant available. */
  predicate Unfolding(k: int)
  {
    true
  }

  ghost predicate Parts(s: State)
    requires Shape(s)
  {
    && Contexts(s) && Lists(s) && Links(s) && LocksOk(s) && NoneStranded(s)
    && (forall c :: 0 <= c < |s.cpus| ==> FrameOk(s, c))
  }

  /** The whole invariant. It stays folded until a proof mentions `Unfolding`. */
  ghost predicate Inv(s: State)
  {
    Shape(s) && forall k: int {:trigger Unfolding(k)} :: k == 0 ==> Parts(s)
  }

  lemma Open(s: State)
    requires Inv(s)
    ensures Contexts(s) && Lists(s) && Links(s) && LocksOk(s) && NoneStranded(s)
    ensures forall c :: 0 <= c < |s.cpus| ==> FrameOk(s, c)
  {
    assert Unfolding(0);
  }

  lemma OpenContexts(s: State)
    requires Inv(s)
    ensures Contexts(s)
  {
    Open(s);
  }

  lemma OpenLocks(s: State)
    requires Inv(s)
    ensures LocksOk(s)
  {
    Open(s);
  }
}
