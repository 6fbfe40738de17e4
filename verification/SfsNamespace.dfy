/** Creating, linking, removing, renaming and looking up files, with every transfer
    free to fail. */
module SfsNamespace {
  import opened SfsSlots
  import opened SfsDirectory

  ghost predicate Full(slots: seq<Slot>)
  {
    |slots| == MAX_SLOTS && forall k :: 0 <= k < |slots| ==> slots[k].ino != 0
  }

  /** Why a name could not be added, where the caller is told. */
  ghost predicate LinkError(slots: seq<Slot>, name: string, err: Err)
  {
    && err != ENOENT
    && (err == EEXIST ==> Lookup(slots, name) != 0)
    && (err == ENAMETOOLONG ==> Lookup(slots, name) == 0 && |name| >= NAMELEN)
    && (err == EFBIG ==> Full(slots))
  }

  /** A new file system: no names and no inodes but the root's. */
  lemma FormattedIsOk()
    ensures Ok(Dir([], map[ROOT := 1], []))
  {
    Close(Dir([], map[ROOT := 1], []), 0, 0);
  }

  /** The same names lead to the same inodes. */
  ghost predicate SameNames(a: seq<Slot>, b: seq<Slot>)
  {
    forall n :: Lookup(b, n) == Lookup(a, n)
  }

  /** What adding a name comes to when no transfer fails. */
  ghost function LinkAnswer(slots: seq<Slot>, name: string): Err
  {
    if Lookup(slots, name) != 0 then EEXIST
    else if |name| >= NAMELEN then ENAMETOOLONG
    else if Full(slots) then EFBIG
    else Fine
  }

  /** How many of the coming transfers will not work. */
  function Due(faults: seq<Fault>): nat
  {
    if |faults| == 0 then 0 else One(!faults[0].Works?) + Due(faults[1..])
  }

  class Namespace {
    var dir: Dir
    /** How the coming transfers will go. */
    var faults: seq<Fault>
    /** How many have failed so far. */
    var failures: nat

    ghost predicate Valid()
      reads this
    {
      Ok(dir)
    }

    /** n transfers failed, and each of them was to. */
    twostate predicate Failed(n: int)
      reads this
    {
      failures == old(failures) + n && failures + Due(faults) == old(failures + Due(faults))
    }

    /** Whether any did; each of them was to. */
    twostate predicate Counted()
      reads this
    {
      failures >= old(failures) && failures + Due(faults) == old(failures + Due(faults))
    }

    method Transfer() returns (f: Fault)
      modifies this`faults, this`failures
      ensures f == if |old(faults)| > 0 then old(faults)[0] else Works
      ensures faults == if |old(faults)| > 0 then old(faults)[1..] else []
      ensures Failed(One(!f.Works?))
    {
      f := if |faults| > 0 then faults[0] else Works;
      if !f.Works? {
        failures := failures + 1;
      }
      faults := if |faults| > 0 then faults[1..] else [];
    }

    // ----- Directory slots -----

    /** sfs_dir_findname: the slot and inode of a name, and the last empty slot. */
    method FindName(name: string) returns (err: Err, ino: int, slot: int, emptyslot: int)
      requires UniqueNames(dir.slots)
      modifies this`faults, this`failures
      ensures (err == Fine || err == ENOENT || err == EIO) && Failed(One(err == EIO))
      ensures err == Fine ==> 0 <= slot < |dir.slots| && Names(dir.slots[slot], name) && ino == dir.slots[slot].ino == Lookup(dir.slots, name)
      ensures err == ENOENT ==> Lookup(dir.slots, name) == 0
      ensures emptyslot == -1 || (0 <= emptyslot < |dir.slots| && dir.slots[emptyslot].ino == 0)
      ensures err != EIO && emptyslot == -1 ==> forall k :: 0 <= k < |dir.slots| ==> dir.slots[k].ino != 0
    {
      var found := false;
      ino, slot, emptyslot := 0, -1, -1;
      var i := 0;
      while i < |dir.slots|
        invariant 0 <= i <= |dir.slots| && Failed(0)
        invariant emptyslot == -1 || (0 <= emptyslot < i && dir.slots[emptyslot].ino == 0)
        invariant emptyslot == -1 ==> forall k :: 0 <= k < i ==> dir.slots[k].ino != 0
        invariant found ==> 0 <= slot < i && Names(dir.slots[slot], name) && ino == dir.slots[slot].ino
        invariant !found ==> forall k :: 0 <= k < i ==> !Names(dir.slots[k], name)
      {
        var f := Transfer();
        if !f.Works? {
          return EIO, ino, slot, emptyslot;
        }
        if dir.slots[i].ino == 0 {
          emptyslot := i;
        } else if dir.slots[i].name == name {
          assert !found;
          found, slot, ino := true, i, dir.slots[i].ino;
        }
        i := i + 1;
      }
      if found {
        LookupIs(dir.slots, slot);
        err := Fine;
      } else {
        LookupNothing(dir.slots, name);
        err := ENOENT;
      }
    }

    /** sfs_writedir: an entry never crosses a block, so it is written or not; a failed
        append may still have moved the end of the directory. */
    method WriteDir(i: nat, s: Slot) returns (err: Err)
      requires i <= |dir.slots|
      modifies this
      ensures dir.disk == old(dir).disk && dir.vnodes == old(dir).vnodes
      ensures err == Fine ==> i < MAX_SLOTS && dir.slots == Written(old(dir).slots, i, s)
      ensures err != Fine ==> dir.slots == old(dir).slots || (i == |old(dir).slots| < MAX_SLOTS && dir.slots == old(dir).slots + [EMPTY])
      ensures i >= MAX_SLOTS <==> err == EFBIG
      ensures (err == Fine || err == EIO || err == ENOSPC || err == EFBIG) && Failed(One(err == EIO || err == ENOSPC))
    {
      if i >= MAX_SLOTS {
        return EFBIG;
      }
      var f := Transfer();
      match f
      case Works =>
        dir := dir.(slots := Written(dir.slots, i, s));
        err := Fine;
      case FailsLate =>
        if i == |dir.slots| {
          dir := dir.(slots := dir.slots + [EMPTY]);
        }
        err := EIO;
      case Fails => err := EIO;
      case NoSpace => err := ENOSPC;
    }

    /** sfs_dir_link: a new name for an inode. Until the caller counts it, the inode has
        one link too few. */
    method DirLink(name: string, ino: int) returns (err: Err, slot: int)
      requires Valid() && ino in dir.disk
      modifies this
      ensures dir.disk == old(dir).disk && dir.vnodes == old(dir).vnodes
      ensures err == Fine ==>
                && Lookup(old(dir).slots, name) == 0 && Partway(dir, ino, -1)
                && 0 <= slot < |dir.slots| && dir.slots[slot] == Slot(ino, name)
                && forall n :: Lookup(dir.slots, n) == if n == name then ino else Lookup(old(dir).slots, n)
      ensures err != Fine ==> Valid() && SameNames(old(dir).slots, dir.slots)
      ensures LinkError(old(dir).slots, name, err) && err != Panic
      ensures Failed(One(err == EIO || err == ENOSPC)) && (failures == old(failures) ==> err == LinkAnswer(old(dir).slots, name))
      ensures err == Fine ==> |dir.slots| >= |old(dir).slots| && forall k :: 0 <= k < |old(dir).slots| && old(dir).slots[k].ino != 0 ==> dir.slots[k] == old(dir).slots[k]
      ensures err == Fine ==> (slot < |old(dir).slots| ==> old(dir).slots[slot].ino == 0)
    {
      SfsDirectory.Open(dir, 0, 0);
      var found, at, emptyslot;
      err, found, at, emptyslot := FindName(name);
      slot := -1;
      if err != Fine && err != ENOENT {
        return;
      }
      if err == Fine {
        SlotNames(dir, at);
        return EEXIST, slot;
      }
      if |name| + 1 > NAMELEN {
        return ENAMETOOLONG, slot;
      }
      if emptyslot < 0 {
        emptyslot := |dir.slots|;
      }
      slot := emptyslot;
      ghost var was := dir;
      err := WriteDir(emptyslot, Slot(ino, name));
      if err == Fine {
        SlotFilled(was, emptyslot, Slot(ino, name), 0, 0);
        assert dir == was.(slots := Written(was.slots, emptyslot, Slot(ino, name)));
      } else if dir.slots != was.slots {
        SlotAdded(was, 0, 0);
        assert dir == was.(slots := was.slots + [EMPTY]);
      } else {
        assert dir == was;
      }
    }

    /** sfs_dir_unlink: until the caller counts it, the inode has one link too many. */
    method DirUnlink(slot: nat, who: int, extra: int) returns (err: Err)
      requires Partway(dir, who, extra) && slot < |dir.slots| && dir.slots[slot].ino != 0 && (who == dir.slots[slot].ino || extra == 0)
      requires Find(dir.vnodes, dir.slots[slot].ino) >= 0
      modifies this
      ensures dir.disk == old(dir).disk && dir.vnodes == old(dir).vnodes
      ensures err == Fine ==>
                && dir.slots == Cleared(old(dir).slots, slot) && Partway(dir, old(dir).slots[slot].ino, extra + 1)
                && forall n :: Lookup(dir.slots, n) == if n == old(dir).slots[slot].name then 0 else Lookup(old(dir).slots, n)
      ensures err != Fine ==> dir == old(dir) && (err == EIO || err == ENOSPC)
      ensures Failed(One(err != Fine))
    {
      SfsDirectory.Open(dir, who, extra);
      ghost var was := dir;
      err := WriteDir(slot, EMPTY);
      if err == Fine {
        SlotCleared(was, slot, who, extra);
        assert dir.slots == Cleared(was.slots, slot);
        assert dir == was.(slots := Cleared(was.slots, slot));
      } else {
        assert dir == was;
      }
    }

    // ----- Vnodes -----

    /** The vnode table after a reference to an inode is taken. */
    static function Referenced(d: Dir, ino: int): seq<Vnode>
      requires ino in d.disk
    {
      var i := Find(d.vnodes, ino);
      if i >= 0 then d.vnodes[i := d.vnodes[i].(refs := d.vnodes[i].refs + 1)]
      else d.vnodes + [Vnode(ino, d.disk[ino], false, 1)]
    }

    /** sfs_loadvnode of an existing inode: the resident vnode gets a reference, or a
        vnode is made from the inode's block. */
    method LoadVnode(ino: int) returns (err: Err)
      requires Valid() && ino in dir.disk
      modifies this
      ensures Valid() && dir.slots == old(dir).slots && dir.disk == old(dir).disk
      ensures (err == Fine || err == EIO) && Failed(One(err == EIO))
      ensures err == Fine ==> Find(dir.vnodes, ino) >= 0 && Links(dir, ino) == Links(old(dir), ino)
      ensures err == Fine ==> RefsMoved(old(dir).vnodes, dir.vnodes, ino, 1)
      ensures err == Fine ==> dir.vnodes == Referenced(old(dir), ino)
      ensures err != Fine ==> dir == old(dir)
    {
      var i := Find(dir.vnodes, ino);
      SfsDirectory.Open(dir, 0, 0);
      if i >= 0 {
        var v := dir.vnodes[i].(refs := dir.vnodes[i].refs + 1);
        VnodeChanged(dir, i, v, 0, 0, 0);
        NobodyExtra(dir.(vnodes := dir.vnodes[i := v]), ino, 0);
        FindAfterUpdate(dir.vnodes, i, v, ino);
        RefsAfterUpdate(dir.vnodes, i, v);
        dir := dir.(vnodes := dir.vnodes[i := v]);
        return Fine;
      }
      var f := Transfer();
      if !f.Works? {
        return EIO;
      }
      VnodeLoaded(dir, ino);
      FindAfterAdd(dir.vnodes, Vnode(ino, dir.disk[ino], false, 1), ino);
      RefsAfterAdd(dir.vnodes, Vnode(ino, dir.disk[ino], false, 1));
      dir := dir.(vnodes := dir.vnodes + [Vnode(ino, dir.disk[ino], false, 1)]);
      err := Fine;
    }

    /** sfs_makeobj: `block` is the block sfs_balloc finds for the inode, 0 if none. */
    method MakeObj(block: int) returns (err: Err)
      requires Valid() && (block == 0 || (block > ROOT && block !in dir.disk))
      modifies this
      ensures Valid() && dir.slots == old(dir).slots
      ensures err == Fine ==> block != 0 && block in dir.disk && Find(dir.vnodes, block) >= 0 && Links(dir, block) == 0
      ensures err != Fine ==> dir == old(dir)
      ensures (err == ENOSPC <==> block == 0) && (err == Fine || err == ENOSPC || err == EIO) && Failed(One(err == EIO))
      ensures err == Fine ==> RefsMoved(old(dir).vnodes, dir.vnodes, block, 1)
      ensures err == Fine ==> dir.disk == old(dir).disk[block := 0]
    {
      if block == 0 {
        return ENOSPC;
      }
      var f := Transfer();
      if !f.Works? {
        return EIO;
      }
      f := Transfer();
      if !f.Works? {
        return EIO;
      }
      VnodeMade(dir, block);
      SfsDirectory.Open(dir, 0, 0);
      FindAfterAdd(dir.vnodes, Vnode(block, 0, true, 1), block);
      RefsAfterAdd(dir.vnodes, Vnode(block, 0, true, 1));
      dir := dir.(vnodes := dir.vnodes + [Vnode(block, 0, true, 1)], disk := dir.disk[block := 0]);
      err := Fine;
    }

    /** One reference less, and not the last. */
    method Unreference(i: nat)
      requires Valid() && i < |dir.vnodes| && dir.vnodes[i].refs != 1
      modifies this`dir
      ensures Valid() && dir == old(dir).(vnodes := old(dir).vnodes[i := old(dir).vnodes[i].(refs := old(dir).vnodes[i].refs - 1)])
    {
      SfsDirectory.Open(dir, 0, 0);
      var v := dir.vnodes[i].(refs := dir.vnodes[i].refs - 1);
      VnodeChanged(dir, i, v, 0, 0, 0);
      NobodyExtra(dir.(vnodes := dir.vnodes[i := v]), v.ino, 0);
      dir := dir.(vnodes := dir.vnodes[i := v]);
    }

    /** VOP_DECREF: drop a reference; the last one reclaims the vnode. A reclaim whose
        transfers fail leaves the vnode where it is. */
    method Decref(ino: int)
      requires Valid() && Find(dir.vnodes, ino) >= 0
      modifies this
      ensures Valid() && dir.slots == old(dir).slots
      ensures var i := Find(old(dir).vnodes, ino); var v := old(dir).vnodes[i];
              if v.refs > 1 then dir == old(dir).(vnodes := old(dir).vnodes[i := v.(refs := v.refs - 1)])
              else (Kept(old(dir), i, dir) && failures > old(failures)) || dir == Forgotten(old(dir), i)
      ensures Counted() && Released(old(dir), dir, ino, failures > old(failures))
    {
      var i := Find(dir.vnodes, ino);
      SfsDirectory.Open(dir, 0, 0);
      ghost var was := dir;
      if dir.vnodes[i].refs > 1 {
        Unreference(i);
        FewerIsReleased(was, i, dir, failures > old(failures));
      } else {
        Reclaim(i);
        if dir == Forgotten(was, i) {
          ForgottenIsReleased(was, i, failures > old(failures));
        } else {
          KeptIsReleased(was, i, dir);
        }
      }
    }

    /** A vnode reclaimed: written back, or freed if it has no names. */
    static function Forgotten(d: Dir, i: nat): Dir
      requires i < |d.vnodes|
    {
      var v := d.vnodes[i];
      Dir(d.slots, if v.links == 0 then d.disk - {v.ino} else d.disk[v.ino := v.links], WithoutVnode(d.vnodes, i))
    }

    /** A reclaim that failed changes no more than the vnode's dirty mark. */
    static predicate Kept(d: Dir, i: nat, d': Dir)
      requires i < |d.vnodes|
    {
      && |d'.vnodes| == |d.vnodes|
      && d' == d.(vnodes := d.vnodes[i := d.vnodes[i].(dirty := d'.vnodes[i].dirty)])
    }

    /** sfs_sync_inode: write a dirty inode to its block. */
    method SyncInode(i: nat) returns (done: bool)
      requires Valid() && i < |dir.vnodes|
      modifies this
      ensures Valid() && dir.slots == old(dir).slots
      ensures !done ==> dir == old(dir)
      ensures Failed(One(!done))
      ensures done ==>
                && dir.vnodes == old(dir).vnodes[i := old(dir).vnodes[i].(dirty := false)]
                && dir.disk == old(dir).disk[dir.vnodes[i].ino := dir.vnodes[i].links]
    {
      SfsDirectory.Open(dir, 0, 0);
      var v := dir.vnodes[i];
      if v.dirty {
        var f := Transfer();
        if !f.Works? {
          return false;
        }
      }
      VnodeSynced(dir, i);
      dir := Dir(dir.slots, dir.disk[v.ino := v.links], dir.vnodes[i := v.(dirty := false)]);
      done := true;
    }

    /** sfs_reclaim: a vnode picked up again meanwhile only loses a reference. The inode of a file without names is erased, freed and forgotten;
        any other is on disk as it was in memory. If a transfer fails the vnode stays. */
    method Reclaim(i: nat)
      requires Valid() && i < |dir.vnodes|
      modifies this
      ensures Valid() && dir.slots == old(dir).slots
      ensures var v := old(dir).vnodes[i];
              if v.refs != 1 then dir == old(dir).(vnodes := old(dir).vnodes[i := v.(refs := v.refs - 1)])
              else (Kept(old(dir), i, dir) && failures > old(failures)) || dir == Forgotten(old(dir), i)
      ensures Counted()
    {
      ghost var was := dir;
      var v := dir.vnodes[i];
      if v.refs != 1 {
        // EBUSY
        Unreference(i);
        return;
      }
      if v.links == 0 {
        var f := Transfer();
        if !f.Works? {
          assert Kept(was, i, dir);
          return;
        }
        // sfs_truncate marks the inode dirty
        SfsDirectory.Open(dir, 0, 0);
        VnodeChanged(dir, i, v.(dirty := true), 0, 0, 0);
        NobodyExtra(dir.(vnodes := dir.vnodes[i := v.(dirty := true)]), v.ino, 0);
        dir := dir.(vnodes := dir.vnodes[i := v.(dirty := true)]);
      }
      var done := SyncInode(i);
      if !done {
        assert Kept(was, i, dir);
        return;
      }
      var gone := if v.links == 0 then dir.disk - {v.ino} else dir.disk;
      assert gone == Forgotten(was, i).disk;
      assert WithoutVnode(dir.vnodes, i) == WithoutVnode(was.vnodes, i);
      assert dir.disk == dir.disk[v.ino := v.links];
      VnodeGone(dir, i, gone);
      dir := Dir(dir.slots, gone, WithoutVnode(dir.vnodes, i));
    }

    /** Count one link more or less for a resident inode. */
    method AddLinks(ino: int, extra: int, delta: int)
      requires Partway(dir, ino, extra) && Find(dir.vnodes, ino) >= 0
      modifies this`dir
      ensures Partway(dir, ino, extra + delta) && dir.slots == old(dir).slots && dir.disk == old(dir).disk
      ensures Find(dir.vnodes, ino) == Find(old(dir).vnodes, ino) && RefsMoved(old(dir).vnodes, dir.vnodes, ino, 0)
    {
      var i := Find(dir.vnodes, ino);
      SfsDirectory.Open(dir, ino, extra);
      var v := dir.vnodes[i].(links := dir.vnodes[i].links + delta, dirty := true);
      VnodeChanged(dir, i, v, ino, extra, delta);
      FindAfterUpdate(dir.vnodes, i, v, ino);
      RefsAfterUpdate(dir.vnodes, i, v);
      dir := dir.(vnodes := dir.vnodes[i := v]);
    }

    // ----- Operations on names -----

    /** sfs_lookonce: the vnode of a name, with a reference. Its link count is never 0. */
    method LookOnce(name: string) returns (err: Err, ino: int, slot: int)
      requires Valid()
      modifies this
      ensures Valid() && dir.slots == old(dir).slots && dir.disk == old(dir).disk
      ensures (err == Fine || err == ENOENT || err == EIO) && Failed(One(err == EIO))
      ensures if err == Fine then RefsMoved(old(dir).vnodes, dir.vnodes, ino, 1) else dir == old(dir)
      ensures err == Fine ==>
                && 0 <= slot < |dir.slots| && dir.slots[slot].ino == ino != 0 && dir.slots[slot].name == name
                && ino == Lookup(dir.slots, name) && ino in dir.disk && Find(dir.vnodes, ino) >= 0 && Links(dir, ino) > 0
      ensures err == ENOENT ==> Lookup(dir.slots, name) == 0
    {
      SfsDirectory.Open(dir, 0, 0);
      var emptyslot;
      err, ino, slot, emptyslot := FindName(name);
      if err != Fine {
        return;
      }
      SlotNames(dir, slot);
      err := LoadVnode(ino);
    }

    /** sfs_creat: the name leads to its old inode, or to a new one. */
    method Creat(name: string, excl: bool, block: int) returns (err: Err, ino: int)
      requires Valid() && (block == 0 || (block > ROOT && block !in dir.disk))
      modifies this
      ensures Valid()
      ensures err == Fine ==>
                && (Lookup(old(dir).slots, name) == 0 ==> ino == block != 0) && (Lookup(old(dir).slots, name) != 0 ==> ino == Lookup(old(dir).slots, name) && !excl)
                && forall n :: Lookup(dir.slots, n) == if n == name then ino else Lookup(old(dir).slots, n)
      ensures err != Fine ==> SameNames(old(dir).slots, dir.slots)
      ensures LinkError(old(dir).slots, name, err)
      ensures Counted() && (err == EIO ==> failures > old(failures)) && (err == ENOSPC ==> block == 0 || failures > old(failures))
      ensures failures == old(failures) ==>
                err == if Lookup(old(dir).slots, name) != 0 then (if excl then EEXIST else Fine)
                       else if block == 0 then ENOSPC else LinkAnswer(old(dir).slots, name)
      ensures err == Fine ==> RefsMoved(old(dir).vnodes, dir.vnodes, ino, 1) && dir.disk.Keys == old(dir).disk.Keys + {ino}
      ensures err != Fine ==> Balanced(old(dir), dir, block, failures > old(failures))
      ensures err != Fine && block != 0 && failures == old(failures) ==> block !in dir.disk
    {
      SfsDirectory.Open(dir, 0, 0);
      var slot, emptyslot;
      err, ino, slot, emptyslot := FindName(name);
      if err != Fine && err != ENOENT {
        return;
      }
      if err == Fine && excl {
        return EEXIST, ino;
      }
      if err == Fine {
        SlotNames(dir, slot);
        err := LoadVnode(ino);
        return;
      }
      err := MakeObj(block);
      if err != Fine {
        return;
      }
      ino := block;
      err := Enter(name, ino);
    }

    /** The end of sfs_creat: the new inode gets its name, or is given up. */
    method Enter(name: string, ino: int) returns (err: Err)
      requires Valid() && ino in dir.disk && ino > ROOT && Refs(dir.vnodes, ino) == 1 && Links(dir, ino) == 0
      modifies this
      ensures Valid() && err != ENOENT && err != Panic && LinkError(old(dir).slots, name, err)
      ensures err == Fine ==>
                && Lookup(old(dir).slots, name) == 0 && (forall n :: Lookup(dir.slots, n) == if n == name then ino else Lookup(old(dir).slots, n))
                && RefsMoved(old(dir).vnodes, dir.vnodes, ino, 0) && dir.disk.Keys == old(dir).disk.Keys
      ensures err != Fine ==>
                && SameNames(old(dir).slots, dir.slots) && Released(old(dir), dir, ino, failures > old(failures))
                && (failures == old(failures) ==> ino !in dir.disk)
      ensures Counted() && (err == EIO || err == ENOSPC ==> failures > old(failures))
      ensures failures == old(failures) ==> err == LinkAnswer(old(dir).slots, name)
    {
      ResidentHasRefs(dir, ino);
      var slot;
      err, slot := DirLink(name, ino);
      if err != Fine {
        Decref(ino);
        return;
      }
      AddLinks(ino, -1, 1);
      NobodyExtra(dir, ino, 0);
    }

    /** sfs_link: a new name for a file the caller has open. */
    method Link(name: string, ino: int) returns (err: Err)
      requires Valid() && Find(dir.vnodes, ino) >= 0
      modifies this
      ensures Valid()
      ensures err == Fine ==> Lookup(old(dir).slots, name) == 0 && forall n :: Lookup(dir.slots, n) == if n == name then ino else Lookup(old(dir).slots, n)
      ensures err != Fine ==> SameNames(old(dir).slots, dir.slots)
      ensures LinkError(old(dir).slots, name, err)
      ensures Failed(One(err == EIO || err == ENOSPC)) && (failures == old(failures) ==> err == LinkAnswer(old(dir).slots, name))
      ensures RefsMoved(old(dir).vnodes, dir.vnodes, ino, 0) && dir.disk == old(dir).disk
    {
      SfsDirectory.Open(dir, 0, 0);
      var slot;
      err, slot := DirLink(name, ino);
      if err != Fine {
        return;
      }
      AddLinks(ino, -1, 1);
      NobodyExtra(dir, ino, 0);
    }

    /** sfs_remove: the name is gone; the file goes with its last name and reference. */
    method Remove(name: string) returns (err: Err)
      requires Valid()
      modifies this
      ensures Valid()
      ensures err == Fine ==> Lookup(old(dir).slots, name) != 0 && forall n :: Lookup(dir.slots, n) == if n == name then 0 else Lookup(old(dir).slots, n)
      ensures err != Fine ==> SameNames(old(dir).slots, dir.slots)
      ensures err == ENOENT ==> Lookup(old(dir).slots, name) == 0
      ensures Counted() && (err == Fine || err == ENOENT || (failures > old(failures) && (err == EIO || err == ENOSPC)))
      ensures failures == old(failures) ==> err == if Lookup(old(dir).slots, name) == 0 then ENOENT else Fine
      ensures Balanced(old(dir), dir, Lookup(old(dir).slots, name), failures > old(failures))
      ensures var victim := Lookup(old(dir).slots, name);
              (&& err == Fine && failures == old(failures) && victim != ROOT && Refs(old(dir).vnodes, victim) == 0
               && forall k :: 0 <= k < |dir.slots| ==> dir.slots[k].ino != victim) ==>
                victim !in dir.disk
    {
      var victim, slot;
      ghost var was := dir;
      err, victim, slot := LookOnce(name);
      if err != Fine {
        return;
      }
      ResidentHasRefs(was, victim);
      NobodyExtra(dir, 0, victim);
      err := DirUnlink(slot, victim, 0);
      if err == Fine {
        AddLinks(victim, 1, -1);
      }
      NobodyExtra(dir, victim, 0);
      Decref(victim);
      if victim != ROOT && Refs(dir.vnodes, victim) == 0 && forall k :: 0 <= k < |dir.slots| ==> dir.slots[k].ino != victim {
        NobodyNeedsIt(dir, victim);
      }
    }

    /** sfs_rename: the file gets its new name and loses the old one; on a failure it
        keeps the old one -- unless undoing fails too, and then it has both. A name of the
        root directory fails the assertion that g1 is a file. */
    method Rename(n1: string, n2: string) returns (err: Err)
      requires Valid()
      modifies this
      ensures Valid()
      ensures err == Fine ==>
                && Lookup(old(dir).slots, n1) != 0 && Lookup(old(dir).slots, n2) == 0
                && forall n :: Lookup(dir.slots, n) == if n == n1 then 0 else if n == n2 then Lookup(old(dir).slots, n1) else Lookup(old(dir).slots, n)
      ensures err == Panic ==>
                if Lookup(old(dir).slots, n1) == ROOT then dir.slots == old(dir).slots
                else forall n :: Lookup(dir.slots, n) == if n == n2 then Lookup(old(dir).slots, n1) else Lookup(old(dir).slots, n)
      ensures Lookup(old(dir).slots, n1) == ROOT ==> err == Panic || err == EIO
      ensures err != Fine && err != Panic ==> SameNames(old(dir).slots, dir.slots)
      ensures if err == ENOENT then Lookup(old(dir).slots, n1) == 0 else LinkError(old(dir).slots, n2, err)
      ensures Counted() && (err == EIO || err == ENOSPC ==> failures > old(failures))
      ensures err == Panic && Lookup(old(dir).slots, n1) != ROOT ==> failures >= old(failures) + 2
      ensures failures == old(failures) ==>
                err == if Lookup(old(dir).slots, n1) == 0 then ENOENT
                       else if Lookup(old(dir).slots, n1) == ROOT then Panic
                       else LinkAnswer(old(dir).slots, n2)
      ensures err != Panic ==> Balanced(old(dir), dir, Lookup(old(dir).slots, n1), failures > old(failures))
    {
      var g1, slot1;
      ghost var was := dir;
      err, g1, slot1 := LookOnce(n1);
      if err != Fine {
        return;
      }
      ResidentHasRefs(was, g1);
      if g1 == ROOT {
        return Panic;
      }
      err := MoveName(n1, n2, g1, slot1);
    }

    /** sfs_rename from the new link on. */
    method MoveName(n1: string, n2: string, g1: int, slot1: nat) returns (err: Err)
      requires Valid() && g1 in dir.disk && Find(dir.vnodes, g1) >= 0
      requires slot1 < |dir.slots| && dir.slots[slot1] == Slot(g1, n1) && g1 == Lookup(dir.slots, n1) != 0
      modifies this
      ensures Valid() && err != ENOENT && LinkError(old(dir).slots, n2, err)
      ensures err == Fine ==>
                && Lookup(old(dir).slots, n2) == 0
                && forall n :: Lookup(dir.slots, n) == if n == n1 then 0 else if n == n2 then g1 else Lookup(old(dir).slots, n)
      ensures err == Panic ==> forall n :: Lookup(dir.slots, n) == if n == n2 then g1 else Lookup(old(dir).slots, n)
      ensures err != Fine && err != Panic ==> SameNames(old(dir).slots, dir.slots)
      ensures Counted() && (err == EIO || err == ENOSPC ==> failures > old(failures)) && (err == Panic ==> failures >= old(failures) + 2)
      ensures failures == old(failures) ==> err == LinkAnswer(old(dir).slots, n2)
      ensures err != Panic ==> Released(old(dir), dir, g1, failures > old(failures))
    {
      var slot2;
      err, slot2 := DirLink(n2, g1);
      if err != Fine {
        Decref(g1);
        return;
      }
      AddLinks(g1, -1, 1);
      err := DirUnlink(slot1, g1, 0);
      if err != Fine {
        err := Undo(slot2, g1, err);
        return;
      }
      AddLinks(g1, 1, -1);
      NobodyExtra(dir, g1, 0);
      Decref(g1);
    }

    /** The error recovery of sfs_rename: take the new name back, and report what went
        wrong first. */
    method Undo(slot2: nat, g1: int, result: Err) returns (err: Err)
      requires result != Panic && Partway(dir, g1, 0) && slot2 < |dir.slots| && dir.slots[slot2].ino == g1 != 0 && Find(dir.vnodes, g1) >= 0
      modifies this
      ensures Valid() && (err == result || err == Panic)
      ensures err == result ==> forall n :: Lookup(dir.slots, n) == if n == old(dir).slots[slot2].name then 0 else Lookup(old(dir).slots, n)
      ensures err == Panic ==> dir == old(dir)
      ensures Counted() && (err == Panic ==> failures > old(failures))
      ensures err != Panic ==> Released(old(dir), dir, g1, failures > old(failures))
    {
      err := DirUnlink(slot2, g1, 0);
      if err != Fine {
        NobodyExtra(dir, g1, 0);
        return Panic;
      }
      AddLinks(g1, 1, -1);
      NobodyExtra(dir, g1, 0);
      Decref(g1);
      err := result;
    }
  }

  lemma FewerIsReleased(d: Dir, i: nat, d': Dir, failed: bool)
    requires Ok(d) && i < |d.vnodes| && d' == d.(vnodes := d.vnodes[i := d.vnodes[i].(refs := d.vnodes[i].refs - 1)])
    ensures Released(d, d', d.vnodes[i].ino, failed)
  {
    SfsDirectory.Open(d, 0, 0);
    RefsAfterUpdate(d.vnodes, i, d'.vnodes[i]);
  }

  lemma ForgottenIsReleased(d: Dir, i: nat, failed: bool)
    requires Ok(d) && i < |d.vnodes| && d.vnodes[i].refs == 1
    ensures Released(d, Namespace.Forgotten(d, i), d.vnodes[i].ino, failed)
  {
    SfsDirectory.Open(d, 0, 0);
    RefsAfterRemove(d.vnodes, i);
  }

  lemma KeptIsReleased(d: Dir, i: nat, d': Dir)
    requires Ok(d) && i < |d.vnodes| && d.vnodes[i].refs == 1 && Namespace.Kept(d, i, d')
    ensures Released(d, d', d.vnodes[i].ino, true)
  {
    SfsDirectory.Open(d, 0, 0);
    FindIs(d.vnodes, i);
    RefsAfterUpdate(d.vnodes, i, d'.vnodes[i]);
  }

  /** A used slot names an allocated inode that has links. */
  lemma SlotNames(d: Dir, i: nat)
    requires Ok(d) && i < |d.slots| && d.slots[i].ino != 0
    ensures d.slots[i].ino in d.disk && d.slots[i].ino >= ROOT && Links(d, d.slots[i].ino) > 0
  {
    SfsDirectory.Open(d, 0, 0);
    CountPositive(d.slots, i);
  }
}
