/** Directory operations of the file system, the table of resident vnodes, and link
    counts. Every transfer may fail. */
module SfsDirectory {
  import opened SfsSlots
  import opened Words

  datatype Err = Fine | EIO | ENOSPC | EFBIG | EEXIST | ENOENT | ENAMETOOLONG | Panic

  /** How a transfer goes: done, failed, or (writing a block of a file) failed after the
      uio had moved. */
  datatype Fault = Works | Fails | FailsLate | NoSpace

  /** A resident vnode; `links` is the count in its in-memory inode. */
  datatype Vnode = Vnode(ino: int, links: int, dirty: bool, refs: int)

  const ROOT := 1

  /** Links of an inode that no slot accounts for: mksfs gives the root directory one. */
  function Base(ino: int): int
  {
    if ino == ROOT then 1 else 0
  }

  /** `disk` gives the link counts in the allocated inode blocks. */
  datatype Dir = Dir(slots: seq<Slot>, disk: map<int, int>, vnodes: seq<Vnode>)

  // ----- The vnode table -----

  /** The table position of an inode's vnode, or -1. */
  function Find(vs: seq<Vnode>, ino: int): (i: int)
    ensures -1 <= i < |vs| && (i >= 0 ==> vs[i].ino == ino)
    ensures i == -1 ==> forall k :: 0 <= k < |vs| ==> vs[k].ino != ino
  {
    if |vs| == 0 then -1
    else if vs[|vs| - 1].ino == ino then |vs| - 1
    else Find(vs[..|vs| - 1], ino)
  }

  ghost predicate OneEach(vs: seq<Vnode>)
  {
    forall i, j :: 0 <= i < j < |vs| ==> vs[i].ino != vs[j].ino
  }

  /** The current link count of an inode: in memory if resident, else on disk. */
  function Links(d: Dir, ino: int): int
  {
    var i := Find(d.vnodes, ino);
    if i >= 0 then d.vnodes[i].links else if ino in d.disk then d.disk[ino] else 0
  }

  /** How many references the vnode of an inode has; none if it is not resident. */
  function Refs(vs: seq<Vnode>, ino: int): int
  {
    var i := Find(vs, ino);
    if i >= 0 then vs[i].refs else 0
  }

  /** The reference counts, but for `delta` more of one inode. */
  ghost predicate RefsMoved(vs: seq<Vnode>, ws: seq<Vnode>, who: int, delta: int)
  {
    forall ino :: Refs(ws, ino) == Refs(vs, ino) + if ino == who then delta else 0
  }

  /** A reference to `who` was dropped; if a transfer failed the last one may have stayed. */
  ghost predicate Released(d: Dir, d': Dir, who: int, failed: bool)
  {
    && (forall ino :: ino != who ==> Refs(d'.vnodes, ino) == Refs(d.vnodes, ino) && (ino in d'.disk <==> ino in d.disk))
    && (Refs(d'.vnodes, who) == Refs(d.vnodes, who) - 1 || (failed && Refs(d'.vnodes, who) == Refs(d.vnodes, who) == 1))
  }

  /** The reference counts are as before, but one inode that had none may be left with one
      if a transfer failed. No other inode came or went. */
  ghost predicate Balanced(d: Dir, d': Dir, who: int, failed: bool)
  {
    && (forall ino :: ino != who ==> Refs(d'.vnodes, ino) == Refs(d.vnodes, ino) && (ino in d'.disk <==> ino in d.disk))
    && (Refs(d'.vnodes, who) == Refs(d.vnodes, who) || (failed && Refs(d.vnodes, who) == 0 && Refs(d'.vnodes, who) == 1))
  }

  // ----- The invariant -----

  ghost predicate SlotsOk(d: Dir)
  {
    && |d.slots| <= MAX_SLOTS && UniqueNames(d.slots)
    && forall i :: 0 <= i < |d.slots| ==>
         && |d.slots[i].name| < NAMELEN
         && (d.slots[i].ino == 0 || d.slots[i].ino in d.disk)
  }

  ghost predicate VnodesOk(d: Dir)
  {
    && OneEach(d.vnodes)
    && forall i :: 0 <= i < |d.vnodes| ==>
         && d.vnodes[i].ino in d.disk && d.vnodes[i].refs > 0
         && (!d.vnodes[i].dirty ==> d.disk[d.vnodes[i].ino] == d.vnodes[i].links)
  }

  /** An inode's link count is the number of slots naming it, the root's one more --
      plus `extra` for one inode in the middle of an operation -- and without names it
      is resident. */
  ghost predicate LinkOk(d: Dir, ino: int, who: int, extra: int)
  {
    && ino >= ROOT
    && Links(d, ino) == Count(d.slots, ino) + Base(ino) + (if ino == who then extra else 0)
    && (Find(d.vnodes, ino) >= 0 || Count(d.slots, ino) + Base(ino) > 0)
  }

  ghost predicate LinksOk(d: Dir, who: int, extra: int)
  {
    ROOT in d.disk && forall ino :: ino in d.disk ==> LinkOk(d, ino, who, extra)
  }

  ghost predicate Partway(d: Dir, who: int, extra: int)
  {
    forall k: int {:trigger Spelled(k)} :: k == 0 ==> SlotsOk(d) && VnodesOk(d) && LinksOk(d, who, extra)
  }

  ghost predicate Ok(d: Dir)
  {
    Partway(d, 0, 0)
  }

  lemma Open(d: Dir, who: int, extra: int)
    requires Partway(d, who, extra)
    ensures SlotsOk(d) && VnodesOk(d) && LinksOk(d, who, extra)
  {
    assert Spelled(0);
  }

  lemma Close(d: Dir, who: int, extra: int)
    requires SlotsOk(d) && VnodesOk(d) && LinksOk(d, who, extra)
    ensures Partway(d, who, extra)
  {
  }

  lemma NobodyExtra(d: Dir, who: int, other: int)
    requires Partway(d, who, 0)
    ensures Partway(d, other, 0)
  {
    Open(d, who, 0);
    assert LinksOk(d, other, 0);
    Close(d, other, 0);
  }

  /** The 16-bit count on disk cannot overflow. */
  lemma LinksAreSmall(d: Dir, ino: int)
    requires Ok(d) && ino in d.disk
    ensures 0 <= Links(d, ino) <= MAX_SLOTS + Base(ino) < 0x1_0000
  {
    Open(d, 0, 0);
    CountBound(d.slots, ino);
  }

  lemma FindIs(vs: seq<Vnode>, i: nat)
    requires OneEach(vs) && i < |vs|
    ensures Find(vs, vs[i].ino) == i
  {
  }

  // ----- Steps on the table -----

  lemma FindAfterUpdate(vs: seq<Vnode>, i: nat, v: Vnode, ino: int)
    requires OneEach(vs) && i < |vs| && v.ino == vs[i].ino
    ensures OneEach(vs[i := v]) && Find(vs[i := v], ino) == Find(vs, ino)
  {
    var k := Find(vs, ino);
    if k >= 0 {
      FindIs(vs, k);
      assert vs[i := v][k].ino == ino;
      FindIs(vs[i := v], k);
    }
  }

  lemma RefsAfterUpdate(vs: seq<Vnode>, i: nat, v: Vnode)
    requires OneEach(vs) && i < |vs| && v.ino == vs[i].ino
    ensures RefsMoved(vs, vs[i := v], v.ino, v.refs - vs[i].refs)
  {
    FindIs(vs, i);
    forall ino
      ensures Find(vs[i := v], ino) == Find(vs, ino)
    {
      FindAfterUpdate(vs, i, v, ino);
    }
  }

  lemma RefsAfterAdd(vs: seq<Vnode>, v: Vnode)
    requires OneEach(vs) && Find(vs, v.ino) == -1
    ensures RefsMoved(vs, vs + [v], v.ino, v.refs)
  {
    forall ino
      ensures Find(vs + [v], ino) == if ino == v.ino then |vs| else Find(vs, ino)
    {
      FindAfterAdd(vs, v, ino);
    }
  }

  lemma RefsAfterRemove(vs: seq<Vnode>, i: nat)
    requires OneEach(vs) && i < |vs|
    ensures RefsMoved(vs, WithoutVnode(vs, i), vs[i].ino, -vs[i].refs)
  {
    FindIs(vs, i);
    forall ino
      ensures Refs(WithoutVnode(vs, i), ino) == Refs(vs, ino) + if ino == vs[i].ino then -vs[i].refs else 0
    {
      FindAfterRemove(vs, i, ino);
    }
  }

  /** Resident is having references. */
  lemma ResidentHasRefs(d: Dir, ino: int)
    requires Ok(d)
    ensures Refs(d.vnodes, ino) > 0 <==> Find(d.vnodes, ino) >= 0
    ensures Refs(d.vnodes, ino) >= 0
  {
    Open(d, 0, 0);
  }

  /** An inode without names and without a vnode is not on disk. */
  lemma NobodyNeedsIt(d: Dir, ino: int)
    requires Ok(d) && ino != ROOT && Refs(d.vnodes, ino) == 0 && forall k :: 0 <= k < |d.slots| ==> d.slots[k].ino != ino
    ensures ino !in d.disk
  {
    ResidentHasRefs(d, ino);
    CountZero(d.slots, ino);
    Open(d, 0, 0);
    assert ino in d.disk ==> LinkOk(d, ino, 0, 0);
  }

  /** A vnode of the same inode in its place: only its own count may differ. */
  lemma VnodeChanged(d: Dir, i: nat, v: Vnode, who: int, extra: int, delta: int)
    requires Partway(d, who, extra) && i < |d.vnodes| && v.ino == d.vnodes[i].ino && v.refs > 0
    requires who == v.ino || extra == 0
    requires v.links == d.vnodes[i].links + delta
    requires v.ino in d.disk && (!v.dirty ==> v.links == d.disk[v.ino])
    ensures Partway(d.(vnodes := d.vnodes[i := v]), v.ino, extra + delta)
  {
    Open(d, who, extra);
    var d' := d.(vnodes := d.vnodes[i := v]);
    forall ino | ino in d'.disk
      ensures Find(d'.vnodes, ino) == Find(d.vnodes, ino)
    {
      FindAfterUpdate(d.vnodes, i, v, ino);
    }
    FindAfterUpdate(d.vnodes, i, v, v.ino);
    FindIs(d.vnodes, i);
    assert VnodesOk(d');
    assert LinksOk(d', v.ino, extra + delta);
    Close(d', v.ino, extra + delta);
  }

  /** A resident inode written to its block. */
  lemma VnodeSynced(d: Dir, i: nat)
    requires Ok(d) && i < |d.vnodes|
    ensures Ok(Dir(d.slots, d.disk[d.vnodes[i].ino := d.vnodes[i].links], d.vnodes[i := d.vnodes[i].(dirty := false)]))
  {
    Open(d, 0, 0);
    var v := d.vnodes[i].(dirty := false);
    var d' := Dir(d.slots, d.disk[v.ino := v.links], d.vnodes[i := v]);
    FindIs(d.vnodes, i);
    forall ino | ino in d'.disk
      ensures LinkOk(d', ino, 0, 0)
    {
      assert LinkOk(d, ino, 0, 0);
      FindAfterUpdate(d.vnodes, i, v, ino);
    }
    FindAfterUpdate(d.vnodes, i, v, v.ino);
    assert SlotsOk(d');
    assert VnodesOk(d');
    assert LinksOk(d', 0, 0);
    Close(d', 0, 0);
  }

  lemma FindAfterAdd(vs: seq<Vnode>, v: Vnode, ino: int)
    requires OneEach(vs) && Find(vs, v.ino) == -1
    ensures OneEach(vs + [v]) && Find(vs + [v], ino) == if ino == v.ino then |vs| else Find(vs, ino)
  {
    var w := vs + [v];
    if ino == v.ino {
      FindIs(w, |vs|);
    } else if Find(vs, ino) >= 0 {
      assert w[Find(vs, ino)].ino == ino;
      FindIs(w, Find(vs, ino));
    }
  }

  /** A vnode loaded from its inode block. */
  lemma VnodeLoaded(d: Dir, ino: int)
    requires Ok(d) && ino in d.disk && Find(d.vnodes, ino) == -1
    ensures Ok(d.(vnodes := d.vnodes + [Vnode(ino, d.disk[ino], false, 1)]))
  {
    Open(d, 0, 0);
    var v := Vnode(ino, d.disk[ino], false, 1);
    var d' := d.(vnodes := d.vnodes + [v]);
    forall i | i in d'.disk
      ensures Find(d'.vnodes, i) == if i == ino then |d.vnodes| else Find(d.vnodes, i)
    {
      FindAfterAdd(d.vnodes, v, i);
    }
    FindAfterAdd(d.vnodes, v, ino);
    assert VnodesOk(d');
    assert LinksOk(d', 0, 0);
    Close(d', 0, 0);
  }

  /** A vnode for a new inode, without names yet. */
  lemma VnodeMade(d: Dir, ino: int)
    requires Ok(d) && ino > ROOT && ino !in d.disk
    ensures Ok(d.(vnodes := d.vnodes + [Vnode(ino, 0, true, 1)], disk := d.disk[ino := 0]))
    ensures Find(d.vnodes, ino) == -1
  {
    Open(d, 0, 0);
    var v := Vnode(ino, 0, true, 1);
    var d' := d.(vnodes := d.vnodes + [v], disk := d.disk[ino := 0]);
    assert Find(d.vnodes, ino) == -1;
    forall i
      ensures Find(d'.vnodes, i) == if i == ino then |d.vnodes| else Find(d.vnodes, i)
    {
      FindAfterAdd(d.vnodes, v, i);
    }
    FindAfterAdd(d.vnodes, v, ino);
    CountZero(d.slots, ino);
    assert SlotsOk(d');
    assert VnodesOk(d');
    assert LinksOk(d', 0, 0);
    Close(d', 0, 0);
  }

  function WithoutVnode(vs: seq<Vnode>, i: nat): seq<Vnode>
    requires i < |vs|
  {
    vs[..i] + vs[i + 1..]
  }

  lemma FindAfterRemove(vs: seq<Vnode>, i: nat, ino: int)
    requires OneEach(vs) && i < |vs|
    ensures OneEach(WithoutVnode(vs, i))
    ensures ino == vs[i].ino ==> Find(WithoutVnode(vs, i), ino) == -1
    ensures ino != vs[i].ino ==>
              (Find(WithoutVnode(vs, i), ino) >= 0 <==> Find(vs, ino) >= 0)
              && (Find(vs, ino) >= 0 ==> WithoutVnode(vs, i)[Find(WithoutVnode(vs, i), ino)] == vs[Find(vs, ino)])
  {
    var w := WithoutVnode(vs, i);
    assert forall k :: 0 <= k < |w| ==> w[k] == vs[if k < i then k else k + 1];
    var k := Find(vs, ino);
    if ino != vs[i].ino && k >= 0 {
      var k' := if k < i then k else k - 1;
      assert w[k'] == vs[k];
      FindIs(w, k');
    }
  }

  /** Reclaiming a vnode whose inode is on disk as it is in memory, or whose inode has
      no names and goes too. */
  lemma VnodeGone(d: Dir, i: nat, disk': map<int, int>)
    requires Ok(d) && i < |d.vnodes|
    requires var v := d.vnodes[i];
             if v.links == 0 then disk' == d.disk - {v.ino} else disk' == d.disk[v.ino := v.links]
    ensures Ok(Dir(d.slots, disk', WithoutVnode(d.vnodes, i)))
    ensures d.vnodes[i].links >= 0
  {
    Open(d, 0, 0);
    var v, d' := d.vnodes[i], Dir(d.slots, disk', WithoutVnode(d.vnodes, i));
    FindIs(d.vnodes, i);
    assert LinkOk(d, v.ino, 0, 0);
    GoneSlotsOk(d, v.ino, v.links, disk');
    forall ino | ino in d'.disk
      ensures LinkOk(d', ino, 0, 0)
    {
      GoneLinkOk(d, i, disk', ino);
    }
    FindAfterRemove(d.vnodes, i, v.ino);
    RemovedVnodesOk(d, i, disk');
    assert LinksOk(d', 0, 0);
    Close(d', 0, 0);
  }

  lemma GoneSlotsOk(d: Dir, ino: int, links: int, disk': map<int, int>)
    requires SlotsOk(d) && (links == 0 ==> Count(d.slots, ino) == 0)
    requires if links == 0 then disk' == d.disk - {ino} else disk' == d.disk[ino := links]
    ensures SlotsOk(d.(disk := disk'))
  {
    forall k | 0 <= k < |d.slots| && d.slots[k].ino != 0
      ensures d.slots[k].ino in disk'
    {
      CountPositive(d.slots, k);
    }
  }

  lemma GoneLinkOk(d: Dir, i: nat, disk': map<int, int>, ino: int)
    requires OneEach(d.vnodes) && i < |d.vnodes| && ino in disk' && LinkOk(d, ino, 0, 0)
    requires var v := d.vnodes[i];
             if v.links == 0 then disk' == d.disk - {v.ino} else disk' == d.disk[v.ino := v.links]
    ensures LinkOk(Dir(d.slots, disk', WithoutVnode(d.vnodes, i)), ino, 0, 0)
  {
    FindIs(d.vnodes, i);
    FindAfterRemove(d.vnodes, i, ino);
  }

  lemma RemovedVnodesOk(d: Dir, i: nat, disk': map<int, int>)
    requires VnodesOk(d) && i < |d.vnodes|
    requires forall ino :: ino in d.disk && ino != d.vnodes[i].ino ==> ino in disk' && disk'[ino] == d.disk[ino]
    ensures VnodesOk(Dir(d.slots, disk', WithoutVnode(d.vnodes, i)))
  {
    var w := WithoutVnode(d.vnodes, i);
    assert forall k :: 0 <= k < |w| ==> w[k] == d.vnodes[if k < i then k else k + 1];
  }

  // ----- Steps on the slots -----

  /** A slot naming a resident inode is filled: one more name than links. */
  lemma SlotFilled(d: Dir, i: nat, s: Slot, who: int, extra: int)
    requires Partway(d, who, extra) && (who == s.ino || extra == 0) && i <= |d.slots| && i < MAX_SLOTS && (i < |d.slots| ==> d.slots[i].ino == 0)
    requires s.ino in d.disk && |s.name| < NAMELEN && Lookup(d.slots, s.name) == 0
    ensures Partway(d.(slots := Written(d.slots, i, s)), s.ino, extra - 1)
    ensures forall n :: Lookup(Written(d.slots, i, s), n) == if n == s.name then s.ino else Lookup(d.slots, n)
  {
    Open(d, who, extra);
    var d' := d.(slots := Written(d.slots, i, s));
    forall n
      ensures UniqueNames(d'.slots) && Lookup(d'.slots, n) == if n == s.name then s.ino else Lookup(d.slots, n)
    {
      FillSlot(d.slots, i, s, n);
    }
    FillSlot(d.slots, i, s, s.name);
    FilledSlotsOk(d, i, s);
    forall ino | ino in d'.disk
      ensures LinkOk(d', ino, s.ino, extra - 1)
    {
      assert LinkOk(d, ino, who, extra);
      WrittenCount(d.slots, i, s, ino);
    }
    Close(d', s.ino, extra - 1);
  }

  lemma FilledSlotsOk(d: Dir, i: nat, s: Slot)
    requires SlotsOk(d) && i <= |d.slots| && i < MAX_SLOTS && UniqueNames(Written(d.slots, i, s)) && s.ino in d.disk && |s.name| < NAMELEN
    ensures SlotsOk(d.(slots := Written(d.slots, i, s)))
  {
    var w := Written(d.slots, i, s);
    assert forall k :: 0 <= k < |w| && k != i ==> w[k] == d.slots[k];
  }

  /** A slot naming a resident inode is cleared: one more link than names. */
  lemma SlotCleared(d: Dir, i: nat, who: int, extra: int)
    requires Partway(d, who, extra) && i < |d.slots| && d.slots[i].ino != 0 && (who == d.slots[i].ino || extra == 0)
    requires Find(d.vnodes, d.slots[i].ino) >= 0
    ensures Partway(d.(slots := Cleared(d.slots, i)), d.slots[i].ino, extra + 1)
    ensures forall n :: Lookup(Cleared(d.slots, i), n) == if n == d.slots[i].name then 0 else Lookup(d.slots, n)
  {
    Open(d, who, extra);
    var s, d' := d.slots[i], d.(slots := Cleared(d.slots, i));
    forall n
      ensures UniqueNames(d'.slots) && Lookup(d'.slots, n) == if n == s.name then 0 else Lookup(d.slots, n)
    {
      ClearSlot(d.slots, i, n);
    }
    ClearSlot(d.slots, i, "");
    forall ino | ino in d'.disk
      ensures Count(d'.slots, ino) == Count(d.slots, ino) - One(ino == s.ino)
    {
      CountUpdate(d.slots, i, EMPTY, ino);
    }
    assert LinksOk(d', s.ino, extra + 1);
    assert SlotsOk(d');
    Close(d', s.ino, extra + 1);
  }

  /** A failed append may leave an empty slot behind. */
  lemma SlotAdded(d: Dir, who: int, extra: int)
    requires Partway(d, who, extra) && |d.slots| < MAX_SLOTS
    ensures Partway(d.(slots := d.slots + [EMPTY]), who, extra)
    ensures forall n :: Lookup(d.slots + [EMPTY], n) == Lookup(d.slots, n)
  {
    Open(d, who, extra);
    var d' := d.(slots := d.slots + [EMPTY]);
    forall n
      ensures UniqueNames(d'.slots) && Lookup(d'.slots, n) == Lookup(d.slots, n)
    {
      EmptyAtEnd(d.slots, n);
    }
    EmptyAtEnd(d.slots, "");
    forall ino | ino in d'.disk
      ensures Count(d'.slots, ino) == Count(d.slots, ino)
    {
      CountAppend(d.slots, EMPTY, ino);
    }
    assert LinksOk(d', who, extra);
    assert SlotsOk(d');
    Close(d', who, extra);
  }
}
