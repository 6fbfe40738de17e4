/** Steps that move threads from one list to another. */
module ThreadLists {
  import opened ThreadSystem
  import opened ThreadSteps
  import opened ThreadSafety

  // ----- Lists and their nodes -----

  lemma RelinkOne(link: map<int, Link>, t: int, l: Link)
    requires t in link
    ensures Relink(link, [t], l) == link[t := l]
  {
  }

  /** A list that neither gives nor takes. */
  lemma ListKept(q: seq<int>, link: map<int, Link>, ts: seq<int>, l0: Link, l1: Link, l: Link)
    requires IsList(q, link, l) && l != l0 && l != l1
    requires forall k :: 0 <= k < |ts| ==> ts[k] in link && link[ts[k]] == l0
    ensures IsList(q, Relink(link, ts, l1), l)
  {
  }

  lemma ListGrown(q: seq<int>, link: map<int, Link>, ts: seq<int>, l0: Link, l: Link)
    requires IsList(q, link, l) && l != l0 && NoDup(ts)
    requires forall k :: 0 <= k < |ts| ==> ts[k] in link && link[ts[k]] == l0
    ensures IsList(q + ts, Relink(link, ts, l), l)
  {
    var link' := Relink(link, ts, l);
    assert NoDup(q + ts) by {
      forall i, j | 0 <= i < j < |q + ts|
        ensures (q + ts)[i] != (q + ts)[j]
      {
        if i < |q| <= j {
          assert link[q[i]] == l && link[ts[j - |q|]] == l0;
        }
      }
    }
    forall t | t in link' && link'[t] == l
      ensures t in q + ts
    {
      assert t in ts || t in q;
    }
  }

  /** What is left after the first threads of a list went elsewhere. */
  lemma ListCutFront(ts: seq<int>, q: seq<int>, link: map<int, Link>, l: Link, l1: Link)
    requires IsList(ts + q, link, l) && l != l1
    ensures IsList(q, Relink(link, ts, l1), l)
    ensures NoDup(ts) && forall k :: 0 <= k < |ts| ==> ts[k] in link && link[ts[k]] == l
  {
    var all := ts + q;
    assert forall k :: 0 <= k < |ts| ==> ts[k] == all[k];
    assert forall k :: 0 <= k < |q| ==> q[k] == all[|ts| + k];
    forall k | 0 <= k < |q|
      ensures q[k] !in ts
    {
    }
  }

  lemma ListCutBack(q: seq<int>, ts: seq<int>, link: map<int, Link>, l: Link, l1: Link)
    requires IsList(q + ts, link, l) && l != l1
    ensures IsList(q, Relink(link, ts, l1), l)
    ensures NoDup(ts) && forall k :: 0 <= k < |ts| ==> ts[k] in link && link[ts[k]] == l
  {
    var all := q + ts;
    assert forall k :: 0 <= k < |q| ==> q[k] == all[k];
    assert forall k :: 0 <= k < |ts| ==> ts[k] == all[|q| + k];
    forall k | 0 <= k < |q|
      ensures q[k] !in ts
    {
    }
  }

  /** The threads ts went from l0 to the end of l1. */
  ghost predicate Transfer(s: State, s': State, ts: seq<int>, l0: Link, l1: Link)
  {
    && l0 != l1 && s'.link == Relink(s.link, ts, l1) && NoDup(ts)
    && (forall k :: 0 <= k < |ts| ==> ts[k] in s.link && s.link[ts[k]] == l0)
    && (forall l :: IsPlace(s', l) <==> IsPlace(s, l))
    && (forall l :: IsPlace(s, l) && IsPlace(s', l) && l != l0 && l != l1 ==> ListAt(s', l) == ListAt(s, l))
    && (IsPlace(s, l0) && IsPlace(s', l0) ==> ListAt(s, l0) == ts + ListAt(s', l0) || ListAt(s, l0) == ListAt(s', l0) + ts)
    && (IsPlace(s, l1) && IsPlace(s', l1) ==> ListAt(s', l1) == ListAt(s, l1) + ts)
  }

  lemma TransferList(s: State, s': State, ts: seq<int>, l0: Link, l1: Link, l: Link)
    requires Lists(s) && Transfer(s, s', ts, l0, l1) && IsPlace(s, l) && IsPlace(s', l)
    ensures IsList(ListAt(s', l), s'.link, l)
  {
    if l == l0 {
      if ListAt(s, l0) == ts + ListAt(s', l0) {
        ListCutFront(ts, ListAt(s', l0), s.link, l0, l1);
      } else {
        ListCutBack(ListAt(s', l0), ts, s.link, l0, l1);
      }
    } else if l == l1 {
      ListGrown(ListAt(s, l1), s.link, ts, l0, l1);
    } else {
      ListKept(ListAt(s, l), s.link, ts, l0, l1, l);
    }
  }

  lemma TransferLists(s: State, s': State, ts: seq<int>, l0: Link, l1: Link)
    requires Lists(s) && Transfer(s, s', ts, l0, l1)
    ensures Lists(s')
  {
    forall l | IsPlace(s', l)
      ensures IsList(ListAt(s', l), s'.link, l)
    {
      assert IsPlace(s, l);
      TransferList(s, s', ts, l0, l1, l);
    }
  }

  // ----- The other parts of the invariant -----

  /** CPU c's current thread is now at cx; other threads and CPUs are where they were. */
  ghost predicate StepsTo(s: State, s': State, c: int, cx: Context)
    requires 0 <= c < |s.cpus|
  {
    && s'.cpus == s.cpus[c := s.cpus[c].(isidle := Parked(cx), irqOff := cx.count > 0)]
    && s'.ctx == s.ctx[s.cpus[c].cur := cx]
  }

  lemma StepContexts(s: State, s': State, c: int, cx: Context)
    requires Shape(s) && Shape(s') && 0 <= c < |s.cpus| && StepsTo(s, s', c, cx) && Contexts(s)
    requires forall t :: t in s.ctx ==> IsCurrent(s', t) == IsCurrent(s, t)
    requires ContextOk(cx, true)
    ensures Contexts(s')
  {
    forall t | t in s'.ctx
      ensures ContextOk(s'.ctx[t], IsCurrent(s', t))
    {
      if t == s.cpus[c].cur {
        assert IsCurrent(s', t);
      }
    }
  }

  lemma StepOthers(s: State, s': State, c: int, cx: Context)
    requires Shape(s) && Shape(s') && 0 <= c < |s.cpus| && StepsTo(s, s', c, cx) && |s'.waiters| == |s.waiters|
    ensures OthersStay(s, s', c) && TopOf(s', c) == Top(cx)
  {
  }

  /** What a transfer needs for the threads it leaves alone to stay well linked. */
  ghost predicate LinksLeft(s: State, s': State, c: int, cx: Context, ts: seq<int>, l0: Link, l1: Link)
    requires Shape(s) && Shape(s') && 0 <= c < |s.cpus|
  {
    && StepsTo(s, s', c, cx) && Transfer(s, s', ts, l0, l1)
    && (forall t :: t in s.link && t !in ts ==> s'.tcpu[t] == s.tcpu[t])
    && (l0.Unlinked? ==> forall k :: 0 <= k < |ts| ==> ts[k] == s.cpus[c].cur)
    && (s.cpus[c].cur !in ts && s.link[s.cpus[c].cur].OnZombies? ==>
          cx.state == s.ctx[s.cpus[c].cur].state && cx.hard == s.ctx[s.cpus[c].cur].hard)
    && Parked(cx) != s'.link[s.cpus[c].cur].Unlinked? && !l1.Unlinked?
  }

  lemma LinkLeft(s: State, s': State, c: int, cx: Context, ts: seq<int>, l0: Link, l1: Link, t: int)
    requires Shape(s) && Shape(s') && 0 <= c < |s.cpus| && LinksLeft(s, s', c, cx, ts, l0, l1)
    requires t in s.link && t !in ts && LinkOk(s, t)
    ensures LinkOk(s', t)
  {
    assert s'.link[t] == s.link[t];
  }

  lemma UnparkedStay(s: State, s': State, c: int, cx: Context, ts: seq<int>, l0: Link, l1: Link, d: int)
    requires Shape(s) && Shape(s') && 0 <= c < |s.cpus| && LinksLeft(s, s', c, cx, ts, l0, l1) && Links(s)
    requires 0 <= d < |s.cpus| && d != c
    ensures Parked(s.ctx[s.cpus[d].cur]) != s'.link[s.cpus[d].cur].Unlinked?
  {
    var t := s.cpus[d].cur;
    assert t != s.cpus[c].cur;
    if s.link[t].Unlinked? {
      assert t !in ts;
    }
  }

  lemma TransferLinks(s: State, s': State, c: int, cx: Context, ts: seq<int>, l0: Link, l1: Link)
    requires Shape(s) && Shape(s') && 0 <= c < |s.cpus| && LinksLeft(s, s', c, cx, ts, l0, l1) && Links(s)
    requires forall k :: 0 <= k < |ts| ==> ts[k] in s'.link && LinkOk(s', ts[k])
    ensures Links(s')
  {
    forall t | t in s'.link
      ensures LinkOk(s', t)
    {
      if t !in ts {
        LinkLeft(s, s', c, cx, ts, l0, l1, t);
      }
    }
    forall d | 0 <= d < |s'.cpus|
      ensures Parked(s'.ctx[s'.cpus[d].cur]) != s'.link[s'.cpus[d].cur].Unlinked?
    {
      if d != c {
        assert s.cpus[d].cur != s.cpus[c].cur;
        UnparkedStay(s, s', c, cx, ts, l0, l1, d);
      }
    }
  }

  /** The local variables of other CPUs stay right: their queues only grow, and the
      threads they have in hand stay on their CPUs. */
  lemma StepFrames(s: State, s': State, c: int, cx: Context)
    requires Shape(s) && Shape(s') && 0 <= c < |s.cpus| && StepsTo(s, s', c, cx)
    requires forall d :: 0 <= d < |s.cpus| ==> FrameOk(s, d)
    requires forall d :: 0 <= d < |s.cpus| && d != c ==> |s'.rq[d]| >= |s.rq[d]| && HandStays(s, s', d)
    requires FrameOk(s', c)
    ensures forall d :: 0 <= d < |s'.cpus| ==> FrameOk(s', d)
  {
    forall d | 0 <= d < |s'.cpus|
      ensures FrameOk(s', d)
    {
      if d != c {
        assert FrameOk(s, d);
        assert s.cpus[d].cur != s.cpus[c].cur;
      }
    }
  }

  ghost predicate HandStays(s: State, s': State, d: int)
    requires Shape(s) && Shape(s') && 0 <= d < |s.cpus|
  {
    var h := Hand(s.ctx[s.cpus[d].cur]);
    forall k :: 0 <= k < |h| && h[k] in s.tcpu ==> h[k] in s'.tcpu && s'.tcpu[h[k]] == s.tcpu[h[k]]
  }

  /** The same threads are current, and other CPUs keep the threads they have in hand. */
  ghost predicate SameCpus(s: State, s': State, c: int)
    requires Shape(s) && Shape(s') && 0 <= c < |s.cpus|
  {
    && (forall t :: t in s.ctx && t in s'.ctx ==> IsCurrent(s', t) == IsCurrent(s, t))
    && (forall d :: 0 <= d < |s.cpus| && d != c ==> HandStays(s, s', d))
  }

  lemma NobodyMoved(s: State, s': State, c: int, cx: Context)
    requires Shape(s) && Shape(s') && 0 <= c < |s.cpus| && StepsTo(s, s', c, cx) && s'.tcpu == s.tcpu
    ensures SameCpus(s, s', c)
  {
  }

  lemma SameLocks(s: State, s': State, c: int)
    requires Shape(s) && Shape(s') && 0 <= c < |s.cpus| && LocksOk(s) && OthersStay(s, s', c)
    requires s'.rqLock == s.rqLock && s'.wLock == s.wLock
    requires RqHeld(TopOf(s', c), c) == RqHeld(TopOf(s, c), c) && WHeld(TopOf(s', c)) == WHeld(TopOf(s, c))
    ensures LocksOk(s')
  {
    HeldsAfter(s, s', c);
    assert RqHelds(s') == RqHelds(s);
    assert WHelds(s') == WHelds(s);
  }

  // ----- Putting it together -----

  lemma TransferInv(s: State, s': State, c: int, cx: Context, ts: seq<int>, l0: Link, l1: Link)
    requires Inv(s) && Shape(s') && 0 <= c < |s.cpus| && LinksLeft(s, s', c, cx, ts, l0, l1)
    requires SameCpus(s, s', c) && |s'.waiters| == |s.waiters|
    requires ContextOk(cx, true)
    requires forall k :: 0 <= k < |ts| ==> ts[k] in s'.link && LinkOk(s', ts[k])
    requires forall d :: 0 <= d < |s.cpus| && d != c ==> |s'.rq[d]| >= |s.rq[d]|
    requires Paired(s'.rqLock, RqHelds(s)[c := RqHeld(Top(cx), c)]) && Paired(s'.wLock, WHelds(s)[c := WHeld(Top(cx))])
    requires FrameOk(s', c) && KeepsWakeups(s, s', c)
    ensures Inv(s')
  {
    Open(s);
    StepOthers(s, s', c, cx);
    StepContexts(s, s', c, cx);
    TransferLists(s, s', ts, l0, l1);
    TransferLinks(s, s', c, cx, ts, l0, l1);
    StepFrames(s, s', c, cx);
    HeldsAfter(s, s', c);
    WakeupsKept(s, s', c);
    assert Parts(s');
  }
}
