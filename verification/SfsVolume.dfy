/** A mounted SFS volume: its disk blocks, its freemap, and the inodes as the file
    system currently sees them. A block is what was last written to it as a whole;
    a cleared block reads as zeros of every kind. */
module SfsVolume {
  import opened Words

  const BLOCK_SIZE := 512
  const NDIRECT := 15
  const DBPERIDB := 128
  /** File blocks an inode can map: the direct ones and those of one indirect block. */
  const MAX_BLOCKS := NDIRECT + DBPERIDB

  datatype Inode = Inode(size: int, direct: seq<int>, indirect: int)

  datatype Block = Clear | Data(bytes: seq<int>) | Pointers(ptrs: seq<int>) | InodeBlock(inode: Inode) | System

  /** What a marked block is in use for: the superblock or the freemap itself, an inode,
      an indirect block, a block of a file -- or nothing, after a failed transfer. */
  datatype Role = Reserved | OwnInode | OwnIndirect(ino: int) | OwnData(ino: int, fb: int) | Leaked

  /** `roles` is bookkeeping of the model; no operation looks at it. */
  datatype Vol = Vol(nblocks: int, nbits: int, disk: map<int, Block>, marked: set<int>, files: map<int, Inode>, roles: map<int, Role>)

  function Zeros(n: nat): (r: seq<int>)
    ensures |r| == n && forall i :: 0 <= i < n ==> r[i] == 0
  {
    seq(n, i => 0)
  }

  function AsBytes(b: Block): seq<int>
  {
    if b.Data? then b.bytes else Zeros(BLOCK_SIZE)
  }

  function AsPointers(b: Block): seq<int>
  {
    if b.Pointers? then b.ptrs else Zeros(DBPERIDB)
  }

  predicate IsBytes(b: Block)
  {
    b.Clear? || (b.Data? && |b.bytes| == BLOCK_SIZE)
  }

  predicate IsPointers(b: Block)
  {
    b.Clear? || (b.Pointers? && |b.ptrs| == DBPERIDB)
  }

  function At(v: Vol, b: int): Block
  {
    if b in v.disk then v.disk[b] else Clear
  }

  // ----- Files -----

  function File(v: Vol, ino: int): Inode
  {
    if ino in v.files then v.files[ino] else Inode(0, Zeros(NDIRECT), 0)
  }

  /** The disk block of file block fb, or 0 for none. */
  function Entry(v: Vol, ino: int, fb: int): int
  {
    var f := File(v, ino);
    if 0 <= fb < NDIRECT && fb < |f.direct| then f.direct[fb]
    else if NDIRECT <= fb < MAX_BLOCKS && f.indirect != 0 && fb - NDIRECT < |AsPointers(At(v, f.indirect))| then
      AsPointers(At(v, f.indirect))[fb - NDIRECT]
    else 0
  }

  /** The bytes of file block fb; a missing block is all zeros. */
  function BlockBytes(v: Vol, ino: int, fb: int): seq<int>
  {
    if Entry(v, ino, fb) == 0 then Zeros(BLOCK_SIZE) else AsBytes(At(v, Entry(v, ino, fb)))
  }

  /** Byte i of a file, whatever its size. */
  function Byte(v: Vol, ino: int, i: int): int
  {
    var b := BlockBytes(v, ino, i / BLOCK_SIZE);
    if i >= 0 && i % BLOCK_SIZE < |b| then b[i % BLOCK_SIZE] else 0
  }

  // ----- The invariant -----

  predicate RefOk(v: Vol, b: int, role: Role)
  {
    b == 0 || (b in v.roles && v.roles[b] == role)
  }

  ghost predicate FileOk(v: Vol, ino: int)
  {
    var f := File(v, ino);
    && ino in v.roles && v.roles[ino] == OwnInode && |f.direct| == NDIRECT
    && RefOk(v, f.indirect, OwnIndirect(ino))
    && forall fb :: 0 <= fb < MAX_BLOCKS ==> RefOk(v, Entry(v, ino, fb), OwnData(ino, fb))
  }

  /** The freemap marks exactly the blocks with a role, and everything beyond the volume. */
  ghost predicate MapOk(v: Vol)
  {
    && 0 < v.nblocks <= v.nbits
    && (forall b :: b in v.marked ==> 0 <= b < v.nbits)
    && (forall b :: v.nblocks <= b < v.nbits ==> b in v.marked)
    && (forall b :: 0 <= b < v.nblocks ==> (b in v.marked <==> b in v.roles))
    && (forall b :: b in v.roles ==> 0 <= b < v.nblocks)
    && 0 in v.roles && v.roles[0] == Reserved
  }

  /** Blocks hold what their role says. */
  ghost predicate TypesOk(v: Vol)
  {
    && (forall b :: b in v.roles && v.roles[b].OwnData? ==> IsBytes(At(v, b)))
    && (forall b :: b in v.roles && v.roles[b].OwnIndirect? ==> IsPointers(At(v, b)))
  }

  ghost predicate Parts(v: Vol)
  {
    MapOk(v) && TypesOk(v) && forall ino :: ino in v.files ==> FileOk(v, ino)
  }

  /** Every block in use is marked and has one use only. */
  ghost predicate Ok(v: Vol)
  {
    forall k: int {:trigger Spelled(k)} :: k == 0 ==> Parts(v)
  }

  lemma Open(v: Vol)
    requires Ok(v)
    ensures Parts(v)
  {
    assert Spelled(0);
  }

  /** A marked block's role is real. */
  ghost predicate InUse(v: Vol, b: int)
  {
    b in v.roles &&
    match v.roles[b]
    case Reserved => true
    case OwnInode => b in v.files
    case OwnIndirect(ino) => ino in v.files && v.files[ino].indirect == b
    case OwnData(ino, fb) => ino in v.files && 0 <= fb < MAX_BLOCKS && Entry(v, ino, fb) == b
    case Leaked => false
  }

  /** The freemap marks nothing that is not in use. */
  ghost predicate Exact(v: Vol)
  {
    forall b :: b in v.roles ==> InUse(v, b)
  }

  // ----- What the invariant means -----

  /** The uses of a block, as positions. */
  datatype Use = UseInode(i: int) | UseIndirect(i: int) | UseData(i: int, fb: int)

  ghost predicate IsUse(v: Vol, u: Use, b: int)
  {
    b != 0 &&
    match u
    case UseInode(i) => i in v.files && b == i
    case UseIndirect(i) => i in v.files && b == v.files[i].indirect
    case UseData(i, fb) => i in v.files && 0 <= fb < MAX_BLOCKS && b == Entry(v, i, fb)
  }

  /** Inodes, indirect blocks and data blocks are pairwise distinct, marked, and none of
      them is the superblock or part of the freemap. */
  lemma UsesAreDistinct(v: Vol, u: Use, w: Use, b: int)
    requires Ok(v) && IsUse(v, u, b) && IsUse(v, w, b)
    ensures u == w && b in v.marked && 0 < b < v.nblocks && b in v.roles && v.roles[b] != Reserved
  {
    Open(v);
    UseHasRole(v, u, b);
    UseHasRole(v, w, b);
  }

  lemma UseHasRole(v: Vol, u: Use, b: int)
    requires Parts(v) && IsUse(v, u, b)
    ensures b in v.roles && v.roles[b] == match u case UseInode(_) => OwnInode case UseIndirect(i) => OwnIndirect(i) case UseData(i, fb) => OwnData(i, fb)
    ensures u.UseInode? ==> u.i == b
  {
    assert FileOk(v, u.i);
  }

  /** If nothing leaked, the freemap below nblocks marks exactly the reserved blocks and
      the blocks in use. */
  lemma ExactMarks(v: Vol, b: int)
    requires Ok(v) && Exact(v) && 0 <= b < v.nblocks
    ensures b in v.marked <==> (b in v.roles && v.roles[b].Reserved?) || exists u :: IsUse(v, u, b)
  {
    Open(v);
    if b in v.marked {
      assert InUse(v, b);
      match v.roles[b]
      case Reserved =>
      case OwnInode => assert FileOk(v, b); assert b != 0; assert IsUse(v, UseInode(b), b);
      case OwnIndirect(ino) => assert IsUse(v, UseIndirect(ino), b);
      case OwnData(ino, fb) => assert IsUse(v, UseData(ino, fb), b);
    } else if exists u :: IsUse(v, u, b) {
      var u :| IsUse(v, u, b);
      UseHasRole(v, u, b);
    }
  }

  // ----- Comparing volumes -----

  /** The same files with the same bytes and sizes. */
  ghost predicate SameFiles(v: Vol, w: Vol)
  {
    && (forall ino :: ino in w.files <==> ino in v.files)
    && (forall ino :: ino in v.files ==> File(w, ino).size == File(v, ino).size)
    && (forall ino, fb :: ino in v.files && 0 <= fb < MAX_BLOCKS ==> BlockBytes(w, ino, fb) == BlockBytes(v, ino, fb))
  }

  lemma SameBytes(v: Vol, w: Vol, ino: int, i: int)
    requires SameFiles(v, w) && ino in v.files
    ensures Byte(w, ino, i) == Byte(v, ino, i)
  {
    if 0 <= i / BLOCK_SIZE < MAX_BLOCKS {
      assert BlockBytes(w, ino, i / BLOCK_SIZE) == BlockBytes(v, ino, i / BLOCK_SIZE);
    } else {
      assert Entry(w, ino, i / BLOCK_SIZE) == 0 == Entry(v, ino, i / BLOCK_SIZE);
    }
  }

  lemma SameFilesChain(u: Vol, v: Vol, w: Vol)
    requires SameFiles(u, v) && SameFiles(v, w)
    ensures SameFiles(u, w)
  {
    forall ino, fb | ino in u.files && 0 <= fb < MAX_BLOCKS
      ensures BlockBytes(w, ino, fb) == BlockBytes(u, ino, fb)
    {
      assert BlockBytes(v, ino, fb) == BlockBytes(u, ino, fb);
    }
  }

  // ----- Marking a block -----

  /** sfs_balloc: block b marked and cleared, with a role. */
  function Alloc(v: Vol, b: int, role: Role): Vol
  {
    v.(marked := v.marked + {b}, roles := v.roles[b := role], disk := v.disk[b := Clear])
  }

  /** sfs_balloc when the clearing fails: marked for nothing. */
  function Lose(v: Vol, b: int): Vol
  {
    v.(marked := v.marked + {b}, roles := v.roles[b := Leaked])
  }

  predicate IsFree(v: Vol, b: int)
  {
    0 <= b < v.nblocks && b !in v.marked
  }

  lemma FreeHasNoRole(v: Vol, b: int)
    requires Ok(v) && IsFree(v, b)
    ensures b !in v.roles && b != 0 && b !in v.files
  {
    Open(v);
    assert b in v.files ==> FileOk(v, b);
  }

  /** Blocks that are referred to are not free, so marking a free one changes no entry. */
  lemma EntryHasRole(v: Vol, ino: int, fb: int)
    requires Ok(v) && ino in v.files && 0 <= fb < MAX_BLOCKS
    ensures RefOk(v, Entry(v, ino, fb), OwnData(ino, fb)) && RefOk(v, File(v, ino).indirect, OwnIndirect(ino))
    ensures |File(v, ino).direct| == NDIRECT
    ensures Entry(v, ino, fb) != 0 ==> IsBytes(At(v, Entry(v, ino, fb))) && Entry(v, ino, fb) in v.marked && 0 < Entry(v, ino, fb) < v.nblocks
    ensures File(v, ino).indirect != 0 ==>
              IsPointers(At(v, File(v, ino).indirect)) && File(v, ino).indirect in v.marked && 0 < File(v, ino).indirect < v.nblocks
  {
    Open(v);
    assert FileOk(v, ino);
  }

  // ----- Growing -----

  /** v' is v with block b newly in use for `role`; where an indirect block was
      rewritten, its other pointers are as before. */
  ghost predicate Grows(v: Vol, v': Vol, b: int, role: Role)
  {
    && v'.nblocks == v.nblocks && v'.nbits == v.nbits && v'.marked == v.marked + {b} && v'.roles == v.roles[b := role]
    && (forall i :: i in v'.files <==> i in v.files || (role.OwnInode? && i == b))
    && (forall i :: i in v.files ==>
          && |File(v', i).direct| == |File(v, i).direct| && File(v', i).size == File(v, i).size
          && File(v', i).indirect == if role == OwnIndirect(i) then b else File(v, i).indirect)
    && (forall i, fb :: i in v.files && 0 <= fb < MAX_BLOCKS ==>
          Entry(v', i, fb) == if role == OwnData(i, fb) then b else Entry(v, i, fb))
    && (forall d :: d in v.roles && v.roles[d].OwnData? ==> At(v', d) == At(v, d))
    && (forall d :: d in v.roles && v.roles[d].OwnIndirect? ==> IsPointers(At(v', d)))
    && (At(v', b).Clear? || (!role.OwnData? && !role.OwnIndirect?))
    && (role.OwnInode? ==> File(v', b) == Inode(0, Zeros(NDIRECT), 0))
    && (role.OwnIndirect? ==> role.ino in v.files && File(v, role.ino).indirect == 0)
    && (role.OwnData? ==> role.ino in v.files && 0 <= role.fb < MAX_BLOCKS && Entry(v, role.ino, role.fb) == 0)
  }

  lemma GrownFile(v: Vol, v': Vol, b: int, role: Role, i: int)
    requires Ok(v) && IsFree(v, b) && Grows(v, v', b, role) && i in v.files
    ensures FileOk(v', i)
  {
    FreeHasNoRole(v, b);
    EntryHasRole(v, i, 0);
    Open(v);
    assert FileOk(v, i);
    forall fb | 0 <= fb < MAX_BLOCKS
      ensures RefOk(v', Entry(v', i, fb), OwnData(i, fb))
    {
      EntryHasRole(v, i, fb);
    }
  }

  lemma NewFileOk(v': Vol, b: int)
    requires b in v'.roles && v'.roles[b] == OwnInode && File(v', b) == Inode(0, Zeros(NDIRECT), 0)
    ensures FileOk(v', b) && forall fb :: Entry(v', b, fb) == 0
  {
  }

  lemma GrowsOk(v: Vol, v': Vol, b: int, role: Role)
    requires Ok(v) && IsFree(v, b) && Grows(v, v', b, role)
    ensures Ok(v')
  {
    Open(v);
    FreeHasNoRole(v, b);
    forall i | i in v'.files
      ensures FileOk(v', i)
    {
      if i in v.files {
        GrownFile(v, v', b, role, i);
      } else {
        NewFileOk(v', b);
      }
    }
    assert MapOk(v') && TypesOk(v');
    assert Parts(v');
  }

  lemma GrowsSame(v: Vol, v': Vol, b: int, role: Role)
    requires Ok(v) && IsFree(v, b) && Grows(v, v', b, role) && !role.OwnInode?
    ensures SameFiles(v, v')
  {
    forall i, fb | i in v.files && 0 <= fb < MAX_BLOCKS
      ensures BlockBytes(v', i, fb) == BlockBytes(v, i, fb)
    {
      EntryHasRole(v, i, fb);
      assert Entry(v', i, fb) == if role == OwnData(i, fb) then b else Entry(v, i, fb);
      FreeHasNoRole(v, b);
    }
  }

  lemma GrowsExact(v: Vol, v': Vol, b: int, role: Role)
    requires Ok(v) && IsFree(v, b) && Grows(v, v', b, role) && Exact(v) && !role.Leaked? && !role.Reserved?
    ensures Exact(v')
  {
    FreeHasNoRole(v, b);
    Open(v);
    forall d | d in v'.roles
      ensures InUse(v', d)
    {
      if d != b {
        assert InUse(v, d);
      } else {
        assert role.OwnData? ==> Entry(v', role.ino, role.fb) == b;
      }
    }
  }

  // The ways of growing.

  /** A direct block for file block k. */
  function MapDirect(v: Vol, ino: int, k: int, b: int): Vol
    requires ino in v.files && 0 <= k < |v.files[ino].direct|
  {
    Alloc(v, b, OwnData(ino, k)).(files := v.files[ino := v.files[ino].(direct := v.files[ino].direct[k := b])])
  }

  /** The indirect block. */
  function MapIndirect(v: Vol, ino: int, b: int): Vol
    requires ino in v.files
  {
    Alloc(v, b, OwnIndirect(ino)).(files := v.files[ino := v.files[ino].(indirect := b)])
  }

  /** A block entered at position j of the indirect block. */
  function MapEntry(v: Vol, ino: int, j: int, b: int): Vol
    requires ino in v.files && 0 <= j < |AsPointers(At(v, v.files[ino].indirect))|
  {
    var ind := v.files[ino].indirect;
    var a := Alloc(v, b, OwnData(ino, NDIRECT + j));
    a.(disk := a.disk[ind := Pointers(AsPointers(At(v, ind))[j := b])])
  }

  /** A new, empty inode. */
  function NewFile(v: Vol, b: int): Vol
  {
    Alloc(v, b, OwnInode).(files := v.files[b := Inode(0, Zeros(NDIRECT), 0)])
  }

  lemma AllocKeepsEntries(v: Vol, w: Vol, b: int, i: int, fb: int)
    requires Ok(v) && IsFree(v, b) && i in v.files && File(w, i) == File(v, i)
    requires forall d :: d != b ==> At(w, d) == At(v, d)
    requires 0 <= fb < MAX_BLOCKS
    ensures Entry(w, i, fb) == Entry(v, i, fb)
  {
    EntryHasRole(v, i, fb);
  }

  lemma MapDirectGrows(v: Vol, ino: int, k: int, b: int)
    requires Ok(v) && IsFree(v, b) && ino in v.files && 0 <= k < NDIRECT && Entry(v, ino, k) == 0
    ensures |v.files[ino].direct| == NDIRECT && Grows(v, MapDirect(v, ino, k, b), b, OwnData(ino, k))
  {
    EntryHasRole(v, ino, k);
    FreeHasNoRole(v, b);
    var v' := MapDirect(v, ino, k, b);
    assert forall d :: d != b ==> At(v', d) == At(v, d);
    forall i, fb | i in v.files && 0 <= fb < MAX_BLOCKS
      ensures Entry(v', i, fb) == if OwnData(ino, k) == OwnData(i, fb) then b else Entry(v, i, fb)
    {
      EntryHasRole(v, i, fb);
    }
    Open(v);
  }

  lemma MapIndirectGrows(v: Vol, ino: int, b: int)
    requires Ok(v) && IsFree(v, b) && ino in v.files && File(v, ino).indirect == 0
    ensures Grows(v, MapIndirect(v, ino, b), b, OwnIndirect(ino))
  {
    FreeHasNoRole(v, b);
    var v' := MapIndirect(v, ino, b);
    assert forall d :: d != b ==> At(v', d) == At(v, d);
    forall i, fb | i in v.files && 0 <= fb < MAX_BLOCKS
      ensures Entry(v', i, fb) == Entry(v, i, fb)
    {
      EntryHasRole(v, i, fb);
    }
    Open(v);
  }

  lemma MapEntryGrows(v: Vol, ino: int, j: int, b: int)
    requires Ok(v) && IsFree(v, b) && ino in v.files && File(v, ino).indirect != 0
    requires 0 <= j < DBPERIDB && Entry(v, ino, NDIRECT + j) == 0
    ensures |AsPointers(At(v, v.files[ino].indirect))| == DBPERIDB
    ensures Grows(v, MapEntry(v, ino, j, b), b, OwnData(ino, NDIRECT + j))
  {
    EntryHasRole(v, ino, NDIRECT + j);
    FreeHasNoRole(v, b);
    var v', ind := MapEntry(v, ino, j, b), v.files[ino].indirect;
    assert forall d :: d != b && d != ind ==> At(v', d) == At(v, d);
    forall i, fb | i in v.files && 0 <= fb < MAX_BLOCKS
      ensures Entry(v', i, fb) == if OwnData(ino, NDIRECT + j) == OwnData(i, fb) then b else Entry(v, i, fb)
    {
      EntryHasRole(v, i, fb);
      EntryHasRole(v, ino, NDIRECT + j);
      if File(v, i).indirect == ind {
        IndirectIsOwn(v, ino, i);
      }
    }
    Open(v);
  }

  lemma IndirectIsOwn(v: Vol, i: int, j: int)
    requires Ok(v) && i in v.files && j in v.files && File(v, i).indirect == File(v, j).indirect != 0
    ensures i == j
  {
    EntryHasRole(v, i, 0);
    EntryHasRole(v, j, 0);
  }

  lemma NewFileGrows(v: Vol, b: int)
    requires Ok(v) && IsFree(v, b)
    ensures Grows(v, NewFile(v, b), b, OwnInode)
  {
    FreeHasNoRole(v, b);
    var v' := NewFile(v, b);
    forall i, fb | i in v.files && 0 <= fb < MAX_BLOCKS
      ensures Entry(v', i, fb) == Entry(v, i, fb)
    {
      AllocKeepsEntries(v, v', b, i, fb);
    }
    Open(v);
  }

  lemma LoseGrows(v: Vol, b: int)
    requires Ok(v) && IsFree(v, b)
    ensures Grows(v, Lose(v, b), b, Leaked)
  {
    FreeHasNoRole(v, b);
    var v' := Lose(v, b);
    forall i, fb | i in v.files && 0 <= fb < MAX_BLOCKS
      ensures Entry(v', i, fb) == Entry(v, i, fb)
    {
      AllocKeepsEntries(v, v', b, i, fb);
    }
    Open(v);
  }

  // ----- Writing data blocks -----

  function Store(v: Vol, b: int, data: Block): Vol
  {
    v.(disk := v.disk[b := data])
  }

  lemma StoreOk(v: Vol, ino: int, fb: int, bytes: seq<int>)
    requires Ok(v) && ino in v.files && 0 <= fb < MAX_BLOCKS && Entry(v, ino, fb) != 0 && |bytes| == BLOCK_SIZE
    ensures var w := Store(v, Entry(v, ino, fb), Data(bytes));
            && Ok(w) && (Exact(v) ==> Exact(w)) && w.files == v.files
            && BlockBytes(w, ino, fb) == bytes
            && (forall i, k :: i in v.files && 0 <= k < MAX_BLOCKS ==> Entry(w, i, k) == Entry(v, i, k))
            && (forall i, k :: i in v.files && 0 <= k < MAX_BLOCKS && !(i == ino && k == fb) ==> BlockBytes(w, i, k) == BlockBytes(v, i, k))
  {
    var b := Entry(v, ino, fb);
    var w := Store(v, b, Data(bytes));
    EntryHasRole(v, ino, fb);
    forall i, k | i in v.files && 0 <= k < MAX_BLOCKS
      ensures Entry(w, i, k) == Entry(v, i, k) && (!(i == ino && k == fb) ==> Entry(v, i, k) == 0 || Entry(v, i, k) != b)
    {
      EntryHasRole(v, i, k);
    }
    StoreKeeps(v, w, b);
  }

  /** Rewriting a block without changing any entry keeps the invariant. */
  lemma StoreKeeps(v: Vol, w: Vol, b: int)
    requires Ok(v) && w == v.(disk := v.disk[b := At(w, b)])
    requires b in v.roles && (v.roles[b].OwnData? ==> IsBytes(At(w, b))) && !v.roles[b].OwnIndirect?
    requires forall i, k :: i in v.files && 0 <= k < MAX_BLOCKS ==> Entry(w, i, k) == Entry(v, i, k)
    ensures Ok(w) && (Exact(v) ==> Exact(w))
  {
    Open(v);
    forall i | i in w.files
      ensures FileOk(w, i)
    {
      assert FileOk(v, i);
    }
    assert Parts(w);
    if Exact(v) {
      forall d | d in w.roles
        ensures InUse(w, d)
      {
        assert InUse(v, d);
      }
    }
  }

  lemma StoreInodeOk(v: Vol, ino: int)
    requires Ok(v) && ino in v.files
    ensures var w := Store(v, ino, InodeBlock(v.files[ino])); Ok(w) && (Exact(v) ==> Exact(w)) && SameFiles(v, w) && w.files == v.files
  {
    var w := Store(v, ino, InodeBlock(v.files[ino]));
    Open(v);
    assert FileOk(v, ino);
    forall i, k | i in v.files && 0 <= k < MAX_BLOCKS
      ensures Entry(w, i, k) == Entry(v, i, k) && BlockBytes(w, i, k) == BlockBytes(v, i, k)
    {
      EntryHasRole(v, i, k);
    }
    StoreKeeps(v, w, ino);
  }

  /** Sizes live in the inode only. */
  function SetSize(v: Vol, ino: int, n: int): Vol
    requires ino in v.files
  {
    v.(files := v.files[ino := v.files[ino].(size := n)])
  }

  lemma SetSizeOk(v: Vol, ino: int, n: int)
    requires Ok(v) && ino in v.files
    ensures Ok(SetSize(v, ino, n)) && (Exact(v) ==> Exact(SetSize(v, ino, n)))
    ensures forall i, k :: BlockBytes(SetSize(v, ino, n), i, k) == BlockBytes(v, i, k)
    ensures forall i, k :: Entry(SetSize(v, ino, n), i, k) == Entry(v, i, k)
  {
    var w := SetSize(v, ino, n);
    Open(v);
    assert forall i, k :: Entry(w, i, k) == Entry(v, i, k);
    forall i | i in w.files
      ensures FileOk(w, i)
    {
      assert FileOk(v, i);
    }
    assert Parts(w);
    if Exact(v) {
      forall d | d in w.roles
        ensures InUse(w, d)
      {
        assert InUse(v, d);
      }
    }
  }

  // ----- Shrinking -----

  /** The blocks of s are no longer in use, and nothing refers to them any more. */
  ghost predicate Shrinks(v: Vol, v': Vol, s: set<int>)
  {
    && v'.nblocks == v.nblocks && v'.nbits == v.nbits && v'.marked == v.marked - s && v'.roles == v.roles - s && v'.disk == v.disk
    && (forall b :: b in s ==> b in v.roles && !v.roles[b].Reserved?)
    && (forall i :: i in v'.files <==> i in v.files && i !in s)
    && (forall i :: i in v'.files ==>
          && |File(v', i).direct| == NDIRECT
          && File(v', i).indirect == if File(v, i).indirect in s then 0 else File(v, i).indirect)
    && (forall i, fb :: i in v'.files && 0 <= fb < MAX_BLOCKS ==>
          Entry(v', i, fb) == if Entry(v, i, fb) in s then 0 else Entry(v, i, fb))
    && (forall i, fb :: i in v.files && i in s && 0 <= fb < MAX_BLOCKS ==> Entry(v, i, fb) == 0 || Entry(v, i, fb) in s)
    && (forall i :: i in v.files && i in s ==> File(v, i).indirect == 0 || File(v, i).indirect in s)
  }

  lemma ShrinksOk(v: Vol, v': Vol, s: set<int>)
    requires Ok(v) && Shrinks(v, v', s)
    ensures Ok(v')
  {
    Open(v);
    assert 0 !in s;
    forall i | i in v'.files
      ensures FileOk(v', i)
    {
      assert FileOk(v, i);
    }
    assert Parts(v');
  }

  lemma ShrinksExact(v: Vol, v': Vol, s: set<int>)
    requires Ok(v) && Shrinks(v, v', s) && Exact(v)
    ensures Exact(v')
  {
    Open(v);
    forall d | d in v'.roles
      ensures InUse(v', d)
    {
      assert InUse(v, d) && d !in s && v.roles[d] == v'.roles[d];
      if v.roles[d].OwnData? {
        KeepsData(v, v', s, v.roles[d].ino, v.roles[d].fb, d);
      } else if v.roles[d].OwnIndirect? {
        KeepsIndirect(v, v', s, v.roles[d].ino, d);
      }
    }
  }

  lemma KeepsData(v: Vol, v': Vol, s: set<int>, ino: int, fb: int, d: int)
    requires Shrinks(v, v', s) && ino in v.files && d !in s && d != 0 && 0 <= fb < MAX_BLOCKS && Entry(v, ino, fb) == d
    ensures ino in v'.files && Entry(v', ino, fb) == d
  {
  }

  lemma KeepsIndirect(v: Vol, v': Vol, s: set<int>, ino: int, d: int)
    requires Shrinks(v, v', s) && ino in v.files && d !in s && d != 0 && File(v, ino).indirect == d
    ensures ino in v'.files && File(v', ino).indirect == d
  {
  }

  /** Files lose exactly the bytes of the blocks freed. */
  lemma ShrinksBytes(v: Vol, v': Vol, s: set<int>, i: int, fb: int)
    requires Ok(v) && Shrinks(v, v', s) && i in v'.files && 0 <= fb < MAX_BLOCKS
    ensures BlockBytes(v', i, fb) == if Entry(v, i, fb) in s then Zeros(BLOCK_SIZE) else BlockBytes(v, i, fb)
  {
    EntryHasRole(v, i, fb);
  }

  // The ways of shrinking.

  /** The direct block of file block k given back. */
  function FreeDirect(v: Vol, ino: int, k: int): Vol
    requires ino in v.files && 0 <= k < |v.files[ino].direct|
  {
    var b := v.files[ino].direct[k];
    v.(marked := v.marked - {b}, roles := v.roles - {b}, files := v.files[ino := v.files[ino].(direct := v.files[ino].direct[k := 0])])
  }

  /** The nonzero pointers among the first j. */
  function NonZero(ptrs: seq<int>, j: nat): (r: set<int>)
    requires j <= |ptrs|
    ensures forall b :: b in r <==> b != 0 && b in ptrs[..j]
  {
    if j == 0 then {}
    else
      assert ptrs[..j] == ptrs[..j - 1] + [ptrs[j - 1]];
      NonZero(ptrs, j - 1) + if ptrs[j - 1] != 0 then {ptrs[j - 1]} else {}
  }

  /** The indirect block given back, with all the blocks it lists. */
  function FreeIndirect(v: Vol, ino: int): Vol
    requires ino in v.files
  {
    var ind := v.files[ino].indirect;
    var s := NonZero(AsPointers(At(v, ind)), |AsPointers(At(v, ind))|) + {ind};
    v.(marked := v.marked - s, roles := v.roles - s, files := v.files[ino := v.files[ino].(indirect := 0)])
  }

  /** An inode without blocks given back. */
  function FreeInode(v: Vol, ino: int): Vol
  {
    v.(marked := v.marked - {ino}, roles := v.roles - {ino}, files := v.files - {ino})
  }

  lemma EntryIsOwn(v: Vol, ino: int, fb: int, i: int, k: int)
    requires Ok(v) && ino in v.files && i in v.files && 0 <= fb < MAX_BLOCKS && 0 <= k < MAX_BLOCKS
    requires Entry(v, i, k) == Entry(v, ino, fb) != 0
    ensures i == ino && k == fb
  {
    EntryHasRole(v, ino, fb);
    EntryHasRole(v, i, k);
  }

  lemma FreeDirectShrinks(v: Vol, ino: int, k: int)
    requires Ok(v) && ino in v.files && 0 <= k < NDIRECT && Entry(v, ino, k) != 0
    ensures |v.files[ino].direct| == NDIRECT && Shrinks(v, FreeDirect(v, ino, k), {v.files[ino].direct[k]})
  {
    EntryHasRole(v, ino, k);
    var v', b := FreeDirect(v, ino, k), Entry(v, ino, k);
    Open(v);
    forall i, fb | i in v'.files && 0 <= fb < MAX_BLOCKS
      ensures Entry(v', i, fb) == if Entry(v, i, fb) in {b} then 0 else Entry(v, i, fb)
    {
      EntryHasRole(v, i, fb);
      if Entry(v, i, fb) == b {
        EntryIsOwn(v, ino, k, i, fb);
      }
    }
    forall i | i in v'.files
      ensures |File(v', i).direct| == NDIRECT && File(v, i).indirect !in {b} && i !in {b}
    {
      EntryHasRole(v, i, 0);
      assert FileOk(v, i);
    }
  }

  /** What the indirect block lists is its file's, and it is not one of them. */
  lemma Listed(v: Vol, ino: int, b: int)
    requires Ok(v) && ino in v.files && File(v, ino).indirect != 0
    ensures |AsPointers(At(v, File(v, ino).indirect))| == DBPERIDB
    ensures b in NonZero(AsPointers(At(v, File(v, ino).indirect)), DBPERIDB) <==>
            b != 0 && exists fb :: NDIRECT <= fb < MAX_BLOCKS && Entry(v, ino, fb) == b
  {
    EntryHasRole(v, ino, NDIRECT);
    var ptrs := AsPointers(At(v, File(v, ino).indirect));
    assert ptrs[..DBPERIDB] == ptrs;
    assert forall fb :: NDIRECT <= fb < MAX_BLOCKS ==> Entry(v, ino, fb) == ptrs[fb - NDIRECT];
    if b != 0 && b in ptrs {
      var j :| 0 <= j < |ptrs| && ptrs[j] == b;
      assert Entry(v, ino, NDIRECT + j) == b;
    }
  }

  lemma FreeIndirectEntry(v: Vol, ino: int, i: int, fb: int)
    requires Ok(v) && ino in v.files && File(v, ino).indirect != 0 && i in v.files && 0 <= fb < MAX_BLOCKS
    ensures |AsPointers(At(v, File(v, ino).indirect))| == DBPERIDB
    ensures var s := NonZero(AsPointers(At(v, File(v, ino).indirect)), DBPERIDB) + {File(v, ino).indirect};
            Entry(FreeIndirect(v, ino), i, fb) == (if Entry(v, i, fb) in s then 0 else Entry(v, i, fb))
            && (Entry(v, i, fb) in s ==> i == ino)
  {
    Listed(v, ino, Entry(v, i, fb));
    EntryHasRole(v, i, fb);
    EntryHasRole(v, ino, fb);
    if Entry(v, i, fb) != 0 && exists k :: NDIRECT <= k < MAX_BLOCKS && Entry(v, ino, k) == Entry(v, i, fb) {
      var k :| NDIRECT <= k < MAX_BLOCKS && Entry(v, ino, k) == Entry(v, i, fb);
      EntryIsOwn(v, i, fb, ino, k);
    }
  }

  lemma FreeIndirectShrinks(v: Vol, ino: int)
    requires Ok(v) && ino in v.files && File(v, ino).indirect != 0
    ensures |AsPointers(At(v, File(v, ino).indirect))| == DBPERIDB
    ensures Shrinks(v, FreeIndirect(v, ino), NonZero(AsPointers(At(v, File(v, ino).indirect)), DBPERIDB) + {File(v, ino).indirect})
  {
    EntryHasRole(v, ino, NDIRECT);
    var v', ind := FreeIndirect(v, ino), File(v, ino).indirect;
    var s := NonZero(AsPointers(At(v, ind)), DBPERIDB) + {ind};
    forall b | b in s
      ensures b in v.roles && (v.roles[b].OwnData? || v.roles[b] == OwnIndirect(ino))
    {
      if b != ind {
        Listed(v, ino, b);
        var fb :| NDIRECT <= fb < MAX_BLOCKS && Entry(v, ino, fb) == b;
        EntryHasRole(v, ino, fb);
      }
    }
    forall i, fb | i in v'.files && 0 <= fb < MAX_BLOCKS
      ensures Entry(v', i, fb) == if Entry(v, i, fb) in s then 0 else Entry(v, i, fb)
    {
      FreeIndirectEntry(v, ino, i, fb);
    }
    Open(v);
    forall i | i in v.files
      ensures i !in s && |File(v', i).direct| == NDIRECT
      ensures File(v', i).indirect == if File(v, i).indirect in s then 0 else File(v, i).indirect
    {
      EntryHasRole(v, i, 0);
      assert FileOk(v, i);
      if i != ino && File(v, i).indirect == ind {
        IndirectIsOwn(v, i, ino);
      }
    }
  }

  lemma FreeInodeShrinks(v: Vol, ino: int)
    requires Ok(v) && ino in v.files && File(v, ino).indirect == 0 && forall fb :: 0 <= fb < MAX_BLOCKS ==> Entry(v, ino, fb) == 0
    ensures Shrinks(v, FreeInode(v, ino), {ino})
  {
    var v' := FreeInode(v, ino);
    Open(v);
    assert FileOk(v, ino);
    forall i, fb | i in v'.files && 0 <= fb < MAX_BLOCKS
      ensures Entry(v', i, fb) == if Entry(v, i, fb) in {ino} then 0 else Entry(v, i, fb)
    {
      EntryHasRole(v, i, fb);
    }
    forall i | i in v'.files
      ensures |File(v', i).direct| == NDIRECT && File(v, i).indirect !in {ino}
    {
      EntryHasRole(v, i, 0);
      assert FileOk(v, i);
    }
  }
}
