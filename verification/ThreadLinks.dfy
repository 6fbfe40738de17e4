/** threadlist.c: a doubly linked list between two sentinel nodes, seen as a sequence. */
module ThreadLinks {

  /** struct threadlistnode, one embedded in every thread. */
  class Node {
    var prev: Node?
    var next: Node?
    /** tln_self */
    const thread: int

    constructor (thread: int)
      ensures this.thread == thread && prev == null && next == null
    {
      this.thread := thread;
      prev, next := null, null;
    }
  }

  ghost predicate Distinct(c: seq<Node>)
  {
    forall i, j :: 0 <= i < j < |c| ==> c[i] != c[j]
  }

  /** Every node points to its neighbours, and the ends to nothing. */
  ghost predicate Linked(c: seq<Node>)
    requires |c| > 0
    reads c
  {
    && c[0].prev == null && c[|c| - 1].next == null
    && (forall i :: 0 <= i < |c| - 1 ==> c[i].next == c[i + 1])
    && (forall i :: 0 <= i < |c| - 1 ==> c[i + 1].prev == c[i])
  }

  /** A chain with a node put in after position k. */
  ghost function Inserted(c: seq<Node>, k: nat, n: Node): (r: seq<Node>)
    requires k < |c|
    ensures |r| == |c| + 1 && r[k + 1] == n
    ensures forall i :: 0 <= i <= k ==> r[i] == c[i]
    ensures forall i :: k + 2 <= i < |r| ==> r[i] == c[i - 1]
  {
    c[..k + 1] + [n] + c[k + 1..]
  }

  ghost function Removed(c: seq<Node>, k: nat): (r: seq<Node>)
    requires k < |c|
    ensures |r| == |c| - 1
    ensures forall i :: 0 <= i < k ==> r[i] == c[i]
    ensures forall i :: k <= i < |r| ==> r[i] == c[i + 1]
  {
    c[..k] + c[k + 1..]
  }

  ghost function Ends(head: Node, nodes: seq<Node>, tail: Node): seq<Node>
  {
    [head] + nodes + [tail]
  }

  lemma InsertedInside(head: Node, nodes: seq<Node>, tail: Node, k: nat, n: Node)
    requires k <= |nodes|
    ensures Inserted(Ends(head, nodes, tail), k, n) == Ends(head, nodes[..k] + [n] + nodes[k..], tail)
  {
    assert Ends(head, nodes, tail)[..k + 1] == [head] + nodes[..k];
    assert Ends(head, nodes, tail)[k + 1..] == nodes[k..] + [tail];
  }

  lemma RemovedInside(head: Node, nodes: seq<Node>, tail: Node, k: nat)
    requires k < |nodes|
    ensures Removed(Ends(head, nodes, tail), k + 1) == Ends(head, nodes[..k] + nodes[k + 1..], tail)
  {
    assert Ends(head, nodes, tail)[..k + 1] == [head] + nodes[..k];
    assert Ends(head, nodes, tail)[k + 2..] == nodes[k + 1..] + [tail];
  }

  // ----- Internal: link and unlink, without the count -----

  /** threadlist_insertafternode */
  method InsertAfterNode(onlist: Node, addee: Node, ghost c: seq<Node>, ghost k: nat)
    requires |c| > 0 && Linked(c) && Distinct(c) && k < |c| - 1 && c[k] == onlist
    requires addee !in c && addee.prev == null && addee.next == null
    modifies addee, onlist, c[k + 1]
    ensures Linked(Inserted(c, k, addee)) && Distinct(Inserted(c, k, addee))
  {
    addee.prev := onlist;
    addee.next := onlist.next;
    onlist.next := addee;
    addee.next.prev := addee;
  }

  /** threadlist_insertbeforenode */
  method InsertBeforeNode(addee: Node, onlist: Node, ghost c: seq<Node>, ghost k: nat)
    requires |c| > 0 && Linked(c) && Distinct(c) && k < |c| - 1 && c[k + 1] == onlist
    requires addee !in c && addee.prev == null && addee.next == null
    modifies addee, c[k], onlist
    ensures Linked(Inserted(c, k, addee)) && Distinct(Inserted(c, k, addee))
  {
    addee.prev := onlist.prev;
    addee.next := onlist;
    addee.prev.next := addee;
    onlist.prev := addee;
  }

  /** threadlist_removenode: the node is unlinked afterwards. */
  method RemoveNode(tln: Node, ghost c: seq<Node>, ghost k: nat)
    requires |c| > 0 && Linked(c) && Distinct(c) && 0 < k < |c| - 1 && c[k] == tln
    modifies tln, c[k - 1], c[k + 1]
    ensures Linked(Removed(c, k)) && Distinct(Removed(c, k))
    ensures tln !in Removed(c, k) && tln.prev == null && tln.next == null
  {
    tln.prev.next := tln.next;
    tln.next.prev := tln.prev;
    tln.prev := null;
    tln.next := null;
  }

  // ----- struct threadlist -----

  class List {
    const head: Node
    const tail: Node
    var count: nat
    ghost var nodes: seq<Node>

    ghost function Chain(): seq<Node>
      reads this
    {
      Ends(head, nodes, tail)
    }

    ghost predicate Valid()
      reads this, Chain()
    {
      Linked(Chain()) && Distinct(Chain()) && count == |nodes|
    }

    /** threadlist_init */
    constructor ()
      ensures Valid() && nodes == [] && fresh(head) && fresh(tail)
    {
      head := new Node(0);
      tail := new Node(0);
      count, nodes := 0, [];
      new;
      head.next, tail.prev := tail, head;
    }

    /** threadlist_isempty */
    method IsEmpty() returns (empty: bool)
      requires Valid()
      ensures empty <==> nodes == []
    {
      empty := count == 0;
    }

    /** threadlist_addhead */
    method AddHead(t: Node)
      requires Valid() && t !in Chain() && t.prev == null && t.next == null
      modifies this, t, Chain()
      ensures Valid() && nodes == [t] + old(nodes)
    {
      InsertAfterNode(head, t, Chain(), 0);
      InsertedInside(head, nodes, tail, 0, t);
      assert nodes[..0] + [t] + nodes[0..] == [t] + nodes;
      nodes := [t] + nodes;
      count := count + 1;
    }

    /** threadlist_addtail */
    method AddTail(t: Node)
      requires Valid() && t !in Chain() && t.prev == null && t.next == null
      modifies this, t, Chain()
      ensures Valid() && nodes == old(nodes) + [t]
    {
      ghost var k := |nodes|;
      InsertBeforeNode(t, tail, Chain(), k);
      InsertedInside(head, nodes, tail, k, t);
      assert nodes[..k] + [t] + nodes[k..] == nodes + [t];
      nodes := nodes + [t];
      count := count + 1;
    }

    /** threadlist_remhead: the first thread, unlinked, or nothing if there is none. */
    method RemHead() returns (t: Node?)
      requires Valid()
      modifies this, Chain()
      ensures Valid() && (t == null <==> old(nodes) == [])
      ensures t == null ==> nodes == []
      ensures t != null ==> old(nodes) == [t] + nodes && t !in Chain() && t.prev == null && t.next == null
    {
      assert Chain()[1] == if nodes == [] then tail else nodes[0];
      var tln := head.next;
      assert |nodes| > 0 ==> Chain()[1].next == Chain()[2];
      if tln.next == null {
        return null;
      }
      RemoveNode(tln, Chain(), 1);
      RemovedInside(head, nodes, tail, 0);
      assert nodes[..0] + nodes[1..] == nodes[1..];
      nodes := nodes[1..];
      count := count - 1;
      t := tln;
    }

    /** threadlist_remtail */
    method RemTail() returns (t: Node?)
      requires Valid()
      modifies this, Chain()
      ensures Valid() && (t == null <==> old(nodes) == [])
      ensures t == null ==> nodes == []
      ensures t != null ==> old(nodes) == nodes + [t] && t !in Chain() && t.prev == null && t.next == null
    {
      ghost var k := |nodes|;
      assert Chain()[k + 1] == tail && Chain()[k] == if k == 0 then head else nodes[k - 1];
      var tln := tail.prev;
      assert k > 0 ==> Chain()[k].prev == Chain()[k - 1];
      if tln.prev == null {
        return null;
      }
      RemoveNode(tln, Chain(), k);
      RemovedInside(head, nodes, tail, k - 1);
      assert nodes[..k - 1] + nodes[k..] == nodes[..k - 1];
      nodes := nodes[..k - 1];
      count := count - 1;
      t := tln;
    }

    /** threadlist_insertafter */
    method InsertAfter(onlist: Node, addee: Node, ghost k: nat)
      requires Valid() && k < |nodes| && nodes[k] == onlist && addee !in Chain() && addee.prev == null && addee.next == null
      modifies this, addee, Chain()
      ensures Valid() && nodes == old(nodes)[..k + 1] + [addee] + old(nodes)[k + 1..]
    {
      assert Chain()[k + 1] in Chain() && Chain()[k + 2] in Chain();
      InsertAfterNode(onlist, addee, Chain(), k + 1);
      InsertedInside(head, nodes, tail, k + 1, addee);
      nodes := nodes[..k + 1] + [addee] + nodes[k + 1..];
      count := count + 1;
    }

    /** threadlist_insertbefore */
    method InsertBefore(addee: Node, onlist: Node, ghost k: nat)
      requires Valid() && k < |nodes| && nodes[k] == onlist && addee !in Chain() && addee.prev == null && addee.next == null
      modifies this, addee, Chain()
      ensures Valid() && nodes == old(nodes)[..k] + [addee] + old(nodes)[k..]
    {
      assert Chain()[k] in Chain() && Chain()[k + 1] in Chain();
      InsertBeforeNode(addee, onlist, Chain(), k);
      InsertedInside(head, nodes, tail, k, addee);
      nodes := nodes[..k] + [addee] + nodes[k..];
      count := count + 1;
    }

    /** threadlist_remove */
    method Remove(t: Node, ghost k: nat)
      requires Valid() && k < |nodes| && nodes[k] == t
      modifies this, Chain()
      ensures Valid() && nodes == old(nodes)[..k] + old(nodes)[k + 1..]
      ensures t !in Chain() && t.prev == null && t.next == null
    {
      assert Chain()[k] in Chain() && Chain()[k + 1] in Chain() && Chain()[k + 2] in Chain();
      RemoveNode(t, Chain(), k + 1);
      RemovedInside(head, nodes, tail, k);
      nodes := nodes[..k] + nodes[k + 1..];
      count := count - 1;
    }

    /** The THREADLIST_FORALL walk meets every thread, in order. */
    method Walk() returns (met: seq<int>)
      requires Valid()
      ensures |met| == |nodes| && forall i :: 0 <= i < |met| ==> met[i] == nodes[i].thread
    {
      met := [];
      var at := head.next;
      ghost var k := 1;
      assert Chain()[0].next == Chain()[1];
      assert |nodes| > 0 ==> Chain()[1].next == Chain()[2];
      while at != null && at.next != null
        invariant 1 <= k <= |nodes| + 1 && at == Chain()[k]
        invariant k < |nodes| + 1 ==> at.next == Chain()[k + 1]
        invariant |met| == k - 1 && forall i :: 0 <= i < k - 1 ==> met[i] == nodes[i].thread
        decreases |nodes| + 1 - k
      {
        assert k < |nodes| + 1;
        met := met + [at.thread];
        at := at.next;
        k := k + 1;
        assert k < |nodes| + 1 ==> Chain()[k].next == Chain()[k + 1];
      }
    }
  }

  /** A thread moved from the head of one list to the tail of another, as in
      thread_consider_migration: both stay well formed and nothing else changes. */
  method MoveHead(from: List, to: List) returns (t: Node)
    requires from != to && from.Valid() && to.Valid() && from.nodes != []
    requires forall n :: n in from.Chain() ==> n !in to.Chain()
    modifies from, to, from.Chain(), to.Chain()
    ensures from.Valid() && to.Valid()
    ensures old(from.nodes) == [t] + from.nodes && to.nodes == old(to.nodes) + [t]
    ensures forall n :: n in from.Chain() ==> n !in to.Chain()
  {
    ghost var f, c := from.Chain(), to.Chain();
    forall i | 0 <= i < |c|
      ensures c[i] !in f
    {
      assert c[i] in c;
    }
    t := from.RemHead();
    assert forall i :: 0 <= i < |c| ==> c[i].prev == old(c[i].prev) && c[i].next == old(c[i].next);
    assert t in f;
    ghost var g := from.Chain();
    assert forall i :: 0 <= i < |g| ==> g[i] in f;
    to.AddTail(t);
    assert from.Chain() == g;
  }
}
