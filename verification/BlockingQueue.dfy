/** The bounded blocking queue: a ring buffer used as a monitor with two condition
    variables, by any number of producers and consumers. */
module BlockingQueue {
  import opened Words

  // ----- The ring -----

  /** The index i places round a ring of `capacity`. */
  function Slot(out: nat, i: nat, capacity: nat): (r: nat)
    requires out < capacity && i <= capacity
    ensures r < capacity
  {
    if out + i < capacity then out + i else out + i - capacity
  }

  lemma SlotIsModulo(out: nat, i: nat, capacity: nat)
    requires out < capacity && i <= capacity
    ensures (out + i) % capacity == Slot(out, i, capacity)
  {
    if out + i < capacity {
      DivModUnique(out + i, capacity, 0, out + i);
    } else {
      DivModUnique(out + i, capacity, 1, out + i - capacity);
    }
  }

  ghost predicate RingOk(ring: seq<int>, inn: nat, out: nat, size: nat)
  {
    0 < |ring| && out < |ring| && size <= |ring| && inn == Slot(out, size, |ring|)
  }

  /** The items in the queue, oldest first. */
  function Items(ring: seq<int>, out: nat, size: nat): (r: seq<int>)
    requires out < |ring| && size <= |ring|
    ensures |r| == size && forall i :: 0 <= i < size ==> r[i] == ring[Slot(out, i, |ring|)]
  {
    seq(size, i requires 0 <= i < size => ring[Slot(out, i, |ring|)])
  }

  lemma PutItem(ring: seq<int>, inn: nat, out: nat, size: nat, val: int)
    requires RingOk(ring, inn, out, size) && size < |ring|
    ensures RingOk(ring[inn := val], Slot(inn, 1, |ring|), out, size + 1)
    ensures Items(ring[inn := val], out, size + 1) == Items(ring, out, size) + [val]
  {
  }

  lemma TakeItem(ring: seq<int>, inn: nat, out: nat, size: nat)
    requires RingOk(ring, inn, out, size) && size > 0
    ensures Items(ring, out, size) == [ring[out]] + Items(ring, Slot(out, 1, |ring|), size - 1)
    ensures RingOk(ring, inn, Slot(out, 1, |ring|), size - 1)
  {
  }

  /** The buffer itself. The methods are what the critical sections do to it. */
  class Buffer {
    var queue: array<int>
    var inn: nat
    var out: nat
    var size: nat

    ghost predicate Valid()
      reads this, queue
    {
      RingOk(queue[..], inn, out, size)
    }

    ghost function Contents(): (r: seq<int>)
      requires Valid()
      reads this, queue
    {
      Items(queue[..], out, size)
    }

    constructor (capacity: nat)
      requires capacity > 0
      ensures Valid() && fresh(queue) && queue.Length == capacity && Contents() == []
    {
      queue := new int[capacity];
      inn, out, size := 0, 0, 0;
    }

    method Put(val: int)
      requires Valid() && size < queue.Length
      modifies this`inn, this`size, queue
      ensures Valid() && queue == old(queue) && Contents() == old(Contents()) + [val]
    {
      PutItem(queue[..], inn, out, size, val);
      SlotIsModulo(inn, 1, queue.Length);
      ghost var was := queue[..];
      queue[inn] := val;
      assert queue[..] == was[inn := val];
      inn := (inn + 1) % queue.Length;
      size := size + 1;
    }

    method Take() returns (res: int)
      requires Valid() && size > 0
      modifies this`out, this`size
      ensures Valid() && old(Contents()) == [res] + Contents()
    {
      TakeItem(queue[..], inn, out, size);
      SlotIsModulo(out, 1, queue.Length);
      res := queue[out];
      out := (out + 1) % queue.Length;
      size := size - 1;
    }
  }

  // ----- The monitor -----

  /** Where a thread is. `Ready` and `Notified` threads want the mutex; `Notified`
      ones have been waiting and look at the condition again. */
  datatype Pc =
    | Outside
    | ReadyToTake | WaitingToTake | NotifiedToTake
    | ReadyToPut(val: int) | WaitingToPut(val: int) | NotifiedToPut(val: int)

  /** `put` and `taken` record everything ever inserted and removed. */
  datatype Monitor = Monitor(ring: seq<int>, inn: nat, out: nat, size: nat, open: bool, pc: map<int, Pc>,
                             put: seq<int>, taken: seq<int>)

  /** A critical section, or the unlocked look at `open`. Where it notifies one
      thread, `lucky` is the one; a condition variable may also wake spuriously. */
  datatype Event =
    | CallTake(t: int) | CallPut(t: int, val: int)
    | Take(t: int, lucky: int) | Put(t: int, lucky: int)
    | Spurious(t: int) | Close

  predicate WantsToTake(p: Pc)
  {
    p.ReadyToTake? || p.NotifiedToTake?
  }

  predicate WantsToPut(p: Pc)
  {
    p.ReadyToPut? || p.NotifiedToPut?
  }

  datatype Kind = WaitsToTake | ToldToTake | WaitsToPut | ToldToPut

  predicate IsKind(p: Pc, k: Kind)
  {
    match k
    case WaitsToTake => p.WaitingToTake?
    case ToldToTake => p.NotifiedToTake?
    case WaitsToPut => p.WaitingToPut?
    case ToldToPut => p.NotifiedToPut?
  }

  function Those(pc: map<int, Pc>, k: Kind): set<int>
  {
    set t | t in pc && IsKind(pc[t], k)
  }

  function Number(pc: map<int, Pc>, k: Kind): nat
  {
    |Those(pc, k)|
  }

  predicate CanHappen(m: Monitor, e: Event)
  {
    match e
    case CallTake(t) => t in m.pc && m.pc[t].Outside?
    case CallPut(t, _) => t in m.pc && m.pc[t].Outside?
    case Take(t, lucky) => t in m.pc && WantsToTake(m.pc[t]) && (Those(m.pc, WaitsToPut) != {} ==> lucky in Those(m.pc, WaitsToPut))
    case Put(t, lucky) => t in m.pc && WantsToPut(m.pc[t]) && (Those(m.pc, WaitsToTake) != {} ==> lucky in Those(m.pc, WaitsToTake))
    case Spurious(t) => t in m.pc && (m.pc[t].WaitingToTake? || m.pc[t].WaitingToPut?)
    case Close => true
  }

  function Awake(p: Pc): Pc
  {
    match p
    case WaitingToTake => NotifiedToTake
    case WaitingToPut(v) => NotifiedToPut(v)
    case _ => p
  }

  /** notify_one on the condition somebody in `who` waits for. */
  function Notify(pc: map<int, Pc>, who: set<int>, lucky: int): map<int, Pc>
    requires who != {} ==> lucky in pc
  {
    if who == {} then pc else pc[lucky := Awake(pc[lucky])]
  }

  function Happened(m: Monitor, e: Event): Monitor
    requires CanHappen(m, e) && 0 < |m.ring| && m.out < |m.ring| && m.inn < |m.ring|
  {
    match e
    case CallTake(t) => if m.open then m.(pc := m.pc[t := ReadyToTake]) else m
    case CallPut(t, val) => m.(pc := m.pc[t := ReadyToPut(val)])
    case Take(t, lucky) =>
      if m.open && m.size == 0 then m.(pc := m.pc[t := WaitingToTake])
      else if !m.open then m.(pc := m.pc[t := Outside])
      else m.(out := Slot(m.out, 1, |m.ring|), size := m.size - 1, taken := m.taken + [m.ring[m.out]],
              pc := Notify(m.pc, Those(m.pc, WaitsToPut), lucky)[t := Outside])
    case Put(t, lucky) =>
      if m.open && m.size == |m.ring| then m.(pc := m.pc[t := WaitingToPut(m.pc[t].val)])
      else if !m.open then m.(pc := m.pc[t := Outside])
      else m.(ring := m.ring[m.inn := m.pc[t].val], inn := Slot(m.inn, 1, |m.ring|), size := m.size + 1,
              put := m.put + [m.pc[t].val], pc := Notify(m.pc, Those(m.pc, WaitsToTake), lucky)[t := Outside])
    case Spurious(t) => m.(pc := m.pc[t := Awake(m.pc[t])])
    case Close => m.(open := false, pc := map t | t in m.pc :: Awake(m.pc[t]))
  }

  // ----- What always holds -----

  ghost predicate Fifo(m: Monitor)
  {
    RingOk(m.ring, m.inn, m.out, m.size) && m.put == m.taken + Items(m.ring, m.out, m.size)
  }

  /** While open, every item has a notified consumer coming if consumers wait, and
      every free slot a notified producer if producers wait; once closed nobody waits. */
  ghost predicate Covered(m: Monitor)
  {
    && (m.open && Number(m.pc, WaitsToTake) > 0 ==> m.size <= Number(m.pc, ToldToTake))
    && (m.open && Number(m.pc, WaitsToPut) > 0 ==> |m.ring| - m.size <= Number(m.pc, ToldToPut))
    && (!m.open ==> Number(m.pc, WaitsToTake) == 0 && Number(m.pc, WaitsToPut) == 0)
  }

  ghost predicate Inv(m: Monitor)
  {
    Fifo(m) && Covered(m)
  }

  lemma FifoKept(m: Monitor, e: Event)
    requires Fifo(m) && CanHappen(m, e)
    ensures Fifo(Happened(m, e))
  {
    match e
    case Take(t, lucky) =>
      if m.open && m.size > 0 {
        TakeItem(m.ring, m.inn, m.out, m.size);
        assert m.put == (m.taken + [m.ring[m.out]]) + Items(m.ring, Slot(m.out, 1, |m.ring|), m.size - 1);
      }
    case Put(t, lucky) =>
      if m.open && m.size < |m.ring| {
        PutItem(m.ring, m.inn, m.out, m.size, m.pc[t].val);
        assert m.put + [m.pc[t].val] == m.taken + (Items(m.ring, m.out, m.size) + [m.pc[t].val]);
      }
    case _ =>
  }

  function One(b: bool): int
  {
    if b then 1 else 0
  }

  /** The numbers of waiting and notified threads before and after one of them moved. */
  lemma OneMoves(pc: map<int, Pc>, t: int, p: Pc, k: Kind)
    requires t in pc
    ensures Number(pc[t := p], k) == Number(pc, k) - One(IsKind(pc[t], k)) + One(IsKind(p, k))
  {
    var rest := Those(pc, k) - {t};
    assert Those(pc[t := p], k) == if IsKind(p, k) then rest + {t} else rest;
    assert Those(pc, k) == if IsKind(pc[t], k) then rest + {t} else rest;
  }

  lemma AllMove(pc: map<int, Pc>, t: int, p: Pc)
    requires t in pc
    ensures forall k :: Number(pc[t := p], k) == Number(pc, k) - One(IsKind(pc[t], k)) + One(IsKind(p, k))
  {
    forall k
      ensures Number(pc[t := p], k) == Number(pc, k) - One(IsKind(pc[t], k)) + One(IsKind(p, k))
    {
      OneMoves(pc, t, p, k);
    }
  }

  lemma NoneOf(pc: map<int, Pc>, k: Kind)
    ensures Number(pc, k) == 0 <==> Those(pc, k) == {}
    ensures Number(pc, k) == 0 <==> forall t :: t in pc ==> !IsKind(pc[t], k)
  {
    if exists t :: t in Those(pc, k) {
      var t :| t in Those(pc, k);
      assert Those(pc, k) != {};
    } else {
      assert Those(pc, k) == {};
      forall t | t in pc
        ensures !IsKind(pc[t], k)
      {
        assert t !in Those(pc, k);
      }
    }
  }

  /** notify_one makes one waiting thread of that kind a notified one, if there is any. */
  lemma Notified(pc: map<int, Pc>, waits: Kind, told: Kind, lucky: int)
    requires (waits.WaitsToTake? && told.ToldToTake?) || (waits.WaitsToPut? && told.ToldToPut?)
    requires Those(pc, waits) != {} ==> lucky in Those(pc, waits)
    ensures var pc' := Notify(pc, Those(pc, waits), lucky);
            && (forall k :: k != waits && k != told ==> Number(pc', k) == Number(pc, k))
            && (Number(pc, waits) > 0 ==> Number(pc', told) == Number(pc, told) + 1 && Number(pc', waits) == Number(pc, waits) - 1)
            && (Number(pc, waits) == 0 ==> pc' == pc)
            && (forall t :: t in pc && !IsKind(pc[t], waits) ==> t in pc' && pc'[t] == pc[t])
  {
    NoneOf(pc, waits);
    if Those(pc, waits) != {} {
      AllMove(pc, lucky, Awake(pc[lucky]));
    }
  }

  lemma TakeCovered(m: Monitor, t: int, lucky: int)
    requires Inv(m) && CanHappen(m, Take(t, lucky))
    ensures Covered(Happened(m, Take(t, lucky)))
  {
    if m.open && m.size > 0 {
      Notified(m.pc, WaitsToPut, ToldToPut, lucky);
      AllMove(Notify(m.pc, Those(m.pc, WaitsToPut), lucky), t, Outside);
    } else {
      AllMove(m.pc, t, if m.open then WaitingToTake else Outside);
    }
  }

  lemma PutCovered(m: Monitor, t: int, lucky: int)
    requires Inv(m) && CanHappen(m, Put(t, lucky))
    ensures Covered(Happened(m, Put(t, lucky)))
  {
    if m.open && m.size < |m.ring| {
      Notified(m.pc, WaitsToTake, ToldToTake, lucky);
      AllMove(Notify(m.pc, Those(m.pc, WaitsToTake), lucky), t, Outside);
    } else {
      AllMove(m.pc, t, if m.open then WaitingToPut(m.pc[t].val) else Outside);
    }
  }

  lemma CoveredKept(m: Monitor, e: Event)
    requires Inv(m) && CanHappen(m, e)
    ensures Covered(Happened(m, e))
  {
    match e
    case CallTake(t) => AllMove(m.pc, t, ReadyToTake);
    case CallPut(t, val) => AllMove(m.pc, t, ReadyToPut(val));
    case Take(t, lucky) => TakeCovered(m, t, lucky);
    case Put(t, lucky) => PutCovered(m, t, lucky);
    case Spurious(t) => AllMove(m.pc, t, Awake(m.pc[t]));
    case Close =>
      NoneOf(Happened(m, Close).pc, WaitsToTake);
      NoneOf(Happened(m, Close).pc, WaitsToPut);
  }

  // ----- Runs -----

  /** A run from a new queue. What an event does is defined on sound rings; on any
      other, anything could follow. */
  ghost predicate IsRun(capacity: nat, states: seq<Monitor>, events: seq<Event>)
  {
    && capacity > 0 && |states| == |events| + 1
    && |states[0].ring| == capacity && states[0].inn == states[0].out == states[0].size == 0 && states[0].open
    && states[0].put == states[0].taken == [] && (forall t :: t in states[0].pc ==> states[0].pc[t] == Outside)
    && forall i :: 0 <= i < |events| ==>
         && CanHappen(states[i], events[i])
         && (Fifo(states[i]) ==> states[i + 1] == Happened(states[i], events[i]))
  }

  lemma {:induction false} RunIsSafe(capacity: nat, states: seq<Monitor>, events: seq<Event>, i: nat)
    requires IsRun(capacity, states, events) && i < |states|
    ensures Inv(states[i]) && |states[i].ring| == capacity
  {
    if i == 0 {
      NoneOf(states[0].pc, WaitsToTake);
      NoneOf(states[0].pc, WaitsToPut);
    } else {
      RunIsSafe(capacity, states, events, i - 1);
      FifoKept(states[i - 1], events[i - 1]);
      CoveredKept(states[i - 1], events[i - 1]);
    }
  }

  /** Items leave in the order they came, each at most once, and never more than the
      capacity are inside. */
  lemma BoundedFifo(capacity: nat, states: seq<Monitor>, events: seq<Event>, i: nat)
    requires IsRun(capacity, states, events) && i < |states|
    ensures states[i].taken <= states[i].put && |states[i].put| - |states[i].taken| == states[i].size <= capacity
  {
    RunIsSafe(capacity, states, events, i);
  }

  // ----- What the calls come to -----

  /** The value a call of put has with it. */
  function Carried(p: Pc): seq<int>
  {
    match p
    case ReadyToPut(v) => [v]
    case WaitingToPut(v) => [v]
    case NotifiedToPut(v) => [v]
    case _ => []
  }

  /** When the thread called last, or -1. */
  ghost function LastCall(events: seq<Event>, i: nat, t: int): (k: int)
    requires i <= |events|
    ensures -1 <= k < i
    ensures k >= 0 ==> events[k] == CallTake(t) || (events[k].CallPut? && events[k].t == t)
  {
    if i == 0 then -1
    else if events[i - 1] == CallTake(t) || (events[i - 1].CallPut? && events[i - 1].t == t) then i - 1
    else LastCall(events, i - 1, t)
  }

  /** For each item ever put, the call that put it. */
  ghost function PutCalls(states: seq<Monitor>, events: seq<Event>, i: nat): seq<int>
    requires i <= |events| < |states|
  {
    if i == 0 then []
    else if events[i - 1].Put? && states[i].put != states[i - 1].put then
      PutCalls(states, events, i - 1) + [LastCall(events, i - 1, events[i - 1].t)]
    else PutCalls(states, events, i - 1)
  }

  /** An item put is the value of a call of put made before, and no call puts twice. */
  ghost predicate FromCalls(put: seq<int>, calls: seq<int>, events: seq<Event>, i: nat)
    requires i <= |events|
  {
    && |calls| == |put|
    && (forall j :: 0 <= j < |calls| ==> 0 <= calls[j] < i && events[calls[j]].CallPut? && events[calls[j]].val == put[j])
    && (forall j, k :: 0 <= j < k < |calls| ==> calls[j] != calls[k])
  }

  /** A thread inside put carries the value of its latest call, which has put nothing yet. */
  ghost predicate CarriesItsCall(p: Pc, t: int, calls: seq<int>, events: seq<Event>, i: nat)
    requires i <= |events|
  {
    |Carried(p)| == 1 ==>
      var k := LastCall(events, i, t);
      k >= 0 && events[k] == CallPut(t, Carried(p)[0]) && k !in calls
  }

  ghost predicate CallsOk(m: Monitor, calls: seq<int>, events: seq<Event>, i: nat)
    requires i <= |events|
  {
    && FromCalls(m.put, calls, events, i)
    && forall t :: t in m.pc ==> CarriesItsCall(m.pc[t], t, calls, events, i)
  }

  /** How an event moves a thread: what it carries is what it carried or came with now. */
  lemma StillCarries(m: Monitor, e: Event, t: int)
    requires Fifo(m) && CanHappen(m, e) && t in Happened(m, e).pc
    ensures t in m.pc
    ensures var c := Carried(Happened(m, e).pc[t]);
            c == [] || c == Carried(m.pc[t]) || (e.CallPut? && e.t == t && c == [e.val])
    ensures e.Put? && e.t == t && Happened(m, e).put != m.put ==> Carried(Happened(m, e).pc[t]) == []
    ensures e == CallTake(t) ==> Carried(Happened(m, e).pc[t]) == []
    ensures e.CallPut? && e.t == t ==> Carried(Happened(m, e).pc[t]) == [e.val]
  {
  }

  /** Only a put puts, and it puts what its thread carries. */
  lemma OnlyPutPuts(m: Monitor, e: Event)
    requires Fifo(m) && CanHappen(m, e)
    ensures Happened(m, e).put == m.put
            || (e.Put? && e.t in m.pc && |Carried(m.pc[e.t])| == 1 && Happened(m, e).put == m.put + Carried(m.pc[e.t]))
  {
  }

  lemma CarriesOn(m: Monitor, calls: seq<int>, calls': seq<int>, events: seq<Event>, i: nat, t: int)
    requires i < |events| && Fifo(m) && CanHappen(m, events[i]) && CallsOk(m, calls, events, i)
    requires calls' == calls || (events[i].Put? && Happened(m, events[i]).put != m.put && calls' == calls + [LastCall(events, i, events[i].t)])
    requires t in Happened(m, events[i]).pc
    ensures CarriesItsCall(Happened(m, events[i]).pc[t], t, calls', events, i + 1)
  {
    var e := events[i];
    StillCarries(m, e, t);
    var c := Carried(Happened(m, e).pc[t]);
    if |c| == 1 {
      if e.CallPut? && e.t == t {
        assert LastCall(events, i + 1, t) == i && i !in calls';
      } else {
        assert CarriesItsCall(m.pc[t], t, calls, events, i);
        assert LastCall(events, i + 1, t) == LastCall(events, i, t);
      }
    }
  }

  lemma CallsKept(m: Monitor, calls: seq<int>, calls': seq<int>, events: seq<Event>, i: nat)
    requires i < |events| && Fifo(m) && CanHappen(m, events[i]) && CallsOk(m, calls, events, i)
    requires calls' == if events[i].Put? && Happened(m, events[i]).put != m.put then calls + [LastCall(events, i, events[i].t)] else calls
    ensures CallsOk(Happened(m, events[i]), calls', events, i + 1)
  {
    var e := events[i];
    OnlyPutPuts(m, e);
    forall t | t in Happened(m, e).pc
      ensures CarriesItsCall(Happened(m, e).pc[t], t, calls', events, i + 1)
    {
      CarriesOn(m, calls, calls', events, i, t);
    }
    if Happened(m, e).put != m.put {
      assert CarriesItsCall(m.pc[e.t], e.t, calls, events, i);
    }
  }

  lemma {:induction false} CallsAreOk(capacity: nat, states: seq<Monitor>, events: seq<Event>, i: nat)
    requires IsRun(capacity, states, events) && i < |states|
    ensures CallsOk(states[i], PutCalls(states, events, i), events, i)
  {
    if i > 0 {
      CallsAreOk(capacity, states, events, i - 1);
      RunIsSafe(capacity, states, events, i - 1);
      assert states[i] == Happened(states[i - 1], events[i - 1]);
      CallsKept(states[i - 1], PutCalls(states, events, i - 1), PutCalls(states, events, i), events, i - 1);
    }
  }

  /** Every item ever put is the value of a call of put, and different items are of
      different calls. */
  lemma PutsAreCalls(capacity: nat, states: seq<Monitor>, events: seq<Event>, i: nat)
    requires IsRun(capacity, states, events) && i < |states|
    ensures FromCalls(states[i].put, PutCalls(states, events, i), events, i)
  {
    CallsAreOk(capacity, states, events, i);
  }

  /** A call of put ends by having put its value and a call of take by having taken the
      oldest item, or because the queue was closed; and whoever moves, the others stay
      where they are, except that one waiting on the other side may be told. */
  lemma CallsEnd(m: Monitor, e: Event, t: int)
    requires Fifo(m) && CanHappen(m, e) && t in m.pc && !m.pc[t].Outside?
    ensures var m' := Happened(m, e);
            && t in m'.pc
            && (m'.pc[t].Outside? && |Carried(m.pc[t])| == 1 ==>
                  m'.taken == m.taken && m'.put == if m.open then m.put + Carried(m.pc[t]) else m.put)
            && (m'.pc[t].Outside? && |Carried(m.pc[t])| == 0 ==>
                  m'.put == m.put && (m.open ==> m.size > 0) &&
                  m'.taken == if m.open then m.taken + [m.put[|m.taken|]] else m.taken)
            && (!m'.pc[t].Outside? ==> m'.pc[t] == m.pc[t] || m'.pc[t] == Awake(m.pc[t]) || ((e.Take? || e.Put?) && e.t == t))
            && (!m'.pc[t].Outside? && m'.pc[t] != m.pc[t] && m'.pc[t] != Awake(m.pc[t]) ==>
                  m.open && m'.put == m.put && m'.taken == m.taken && Awake(m'.pc[t]) == if Carried(m.pc[t]) == [] then NotifiedToTake else NotifiedToPut(Carried(m.pc[t])[0]))
  {
    if e.Take? && e.t == t && m.open && m.size > 0 {
      TakeItem(m.ring, m.inn, m.out, m.size);
      assert (m.taken + Items(m.ring, m.out, m.size))[|m.taken|] == Items(m.ring, m.out, m.size)[0];
    }
  }

  /** A thread in its critical section goes through unless the open queue is empty or full,
      and then it waits; only chiudi closes the queue. */
  lemma GoesThrough(m: Monitor, e: Event)
    requires Fifo(m) && CanHappen(m, e)
    ensures Happened(m, e).open <==> m.open && e != Close
    ensures e.Take? ==> (Happened(m, e).pc[e.t] == if m.open && m.put == m.taken then WaitingToTake else Outside)
    ensures e.Put? ==> (Happened(m, e).pc[e.t] ==
                        if m.open && |m.put| == |m.taken| + |m.ring| then WaitingToPut(Carried(m.pc[e.t])[0]) else Outside)
    ensures e.CallTake? ==> (Happened(m, e).pc[e.t] == if m.open then ReadyToTake else Outside)
    ensures e.CallPut? ==> Happened(m, e).pc[e.t] == ReadyToPut(e.val)
  {
    assert m.put == m.taken ==> m.size == 0 by {
      if m.put == m.taken {
        assert |m.put| == |m.taken| + m.size;
      }
    }
  }

  /** No wakeup is lost: with no notified thread around, consumers wait only on an empty
      queue and producers only on a full one. */
  lemma NobodyWaitsInVain(capacity: nat, states: seq<Monitor>, events: seq<Event>, i: nat, t: int)
    requires IsRun(capacity, states, events) && i < |states| && t in states[i].pc
    requires forall u :: u in states[i].pc ==> !states[i].pc[u].NotifiedToTake? && !states[i].pc[u].NotifiedToPut?
    ensures states[i].pc[t].WaitingToTake? ==> states[i].open && states[i].size == 0
    ensures states[i].pc[t].WaitingToPut? ==> states[i].open && states[i].size == capacity
  {
    RunIsSafe(capacity, states, events, i);
    NoneOf(states[i].pc, WaitsToTake);
    NoneOf(states[i].pc, WaitsToPut);
    NoneOf(states[i].pc, ToldToTake);
    NoneOf(states[i].pc, ToldToPut);
  }

  /** After chiudi nobody waits, ever again. */
  lemma ClosedForGood(capacity: nat, states: seq<Monitor>, events: seq<Event>, i: nat, t: int)
    requires IsRun(capacity, states, events) && i < |states| && !states[i].open && t in states[i].pc
    ensures !states[i].pc[t].WaitingToTake? && !states[i].pc[t].WaitingToPut?
    ensures i < |events| ==> !states[i + 1].open
  {
    RunIsSafe(capacity, states, events, i);
    NoneOf(states[i].pc, WaitsToTake);
    NoneOf(states[i].pc, WaitsToPut);
  }
}
