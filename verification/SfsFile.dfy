/** File I/O of the file system: block allocation, block mapping, reading, writing,
    truncating to nothing, and creating and discarding inodes. */
module SfsFile {
  import opened SfsVolume
  import opened SfsBytes
  import opened Words

  datatype Err = Fine | EIO | ENOSPC | EFBIG | EFAULT

  // ----- Volumes between operations -----

  ghost predicate SizesOk(v: Vol)
  {
    forall ino :: ino in v.files ==> v.files[ino].size >= 0
  }

  /** Zeros beyond the ends of files. */
  ghost predicate Settled(v: Vol)
  {
    forall k: int {:trigger Spelled(k)} :: k == 0 ==> TailOk(v) && SizesOk(v)
  }

  /** No block is left. */
  ghost predicate Full(v: Vol)
  {
    forall b :: 0 <= b < v.nblocks ==> b in v.marked
  }

  const MAX_SIZE := MAX_BLOCKS * BLOCK_SIZE

  /** Nothing leaked. */
  ghost predicate Tidy(v: Vol)
  {
    forall k: int {:trigger Spelled(k)} :: k == 0 ==> Exact(v)
  }

  lemma SettledOpen(v: Vol)
    requires Settled(v)
    ensures TailOk(v) && SizesOk(v)
  {
    assert Spelled(0);
  }

  lemma TidyOpen(v: Vol)
    requires Tidy(v)
    ensures Exact(v)
  {
    assert Spelled(0);
  }

  /** Inodes not marked dirty are on disk as they are in memory. Folded. */
  ghost predicate Clean(v: Vol, dirty: set<int>)
  {
    forall k: int {:trigger Spelled(k)} :: k == 0 ==>
      forall ino :: ino in v.files && ino !in dirty ==> At(v, ino) == InodeBlock(v.files[ino])
  }

  lemma CleanOpen(v: Vol, dirty: set<int>, ino: int)
    requires Clean(v, dirty) && ino in v.files && ino !in dirty
    ensures At(v, ino) == InodeBlock(v.files[ino])
  {
    assert Spelled(0);
  }

  /** Changing one block, which holds no clean inode, and inodes that are dirty. */
  lemma CleanStays(v: Vol, w: Vol, dirty: set<int>, dirty': set<int>, b: int)
    requires Clean(v, dirty) && dirty <= dirty' && forall k :: k != b ==> At(w, k) == At(v, k)
    requires forall i :: i in w.files && i !in dirty' ==> i in v.files && w.files[i] == v.files[i]
    requires b in w.files ==> b in dirty'
    ensures Clean(w, dirty')
  {
    assert Spelled(0);
  }

  lemma NotAnInode(v: Vol, b: int)
    requires Ok(v) && b in v.roles && !v.roles[b].OwnInode?
    ensures b !in v.files
  {
    SfsVolume.Open(v);
    assert b in v.files ==> FileOk(v, b);
  }

  lemma DataIsNoInode(v: Vol, ino: int, fb: int)
    requires Ok(v) && ino in v.files && 0 <= fb < MAX_BLOCKS && Entry(v, ino, fb) != 0
    ensures Entry(v, ino, fb) !in v.files
  {
    EntryHasRole(v, ino, fb);
    NotAnInode(v, Entry(v, ino, fb));
  }

  lemma SettledSame(v: Vol, w: Vol)
    requires Settled(v) && SameFiles(v, w)
    ensures Settled(w)
  {
    SettledOpen(v);
    SameTail(v, w);
    assert forall ino :: ino in w.files ==> File(w, ino).size == File(v, ino).size;
    assert SizesOk(w);
  }

  lemma SameFilesRefl(v: Vol)
    ensures SameFiles(v, v)
  {
  }

  // ----- The steps of block mapping -----

  /** The state after sfs_balloc came back with err. */
  lemma AllocResult(v: Vol, w: Vol, err: Err, b: int)
    requires Ok(v) && (err != ENOSPC ==> IsFree(v, b))
    requires w == match err case Fine => Alloc(v, b, Leaked) case EIO => Lose(v, b) case _ => v
    ensures Ok(w) && SameFiles(v, w)
  {
    match err
    case Fine =>
      AllocGrows(v, b);
      GrowsOk(v, w, b, Leaked);
      GrowsSame(v, w, b, Leaked);
    case EIO =>
      LoseGrows(v, b);
      GrowsOk(v, w, b, Leaked);
      GrowsSame(v, w, b, Leaked);
    case _ => SameFilesRefl(v);
  }

  lemma AllocGrows(v: Vol, b: int)
    requires Ok(v) && IsFree(v, b)
    ensures Grows(v, Alloc(v, b, Leaked), b, Leaked)
  {
    FreeHasNoRole(v, b);
    var v' := Alloc(v, b, Leaked);
    forall i, fb | i in v.files && 0 <= fb < MAX_BLOCKS
      ensures Entry(v', i, fb) == Entry(v, i, fb)
    {
      AllocKeepsEntries(v, v', b, i, fb);
    }
    SfsVolume.Open(v);
  }

  lemma GrownKeeps(v: Vol, w: Vol, b: int, role: Role)
    requires Ok(v) && IsFree(v, b) && Grows(v, w, b, role) && (role.OwnData? || role.OwnIndirect?)
    ensures Ok(w) && SameFiles(v, w) && (Tidy(v) ==> Tidy(w))
  {
    GrowsOk(v, w, b, role);
    GrowsSame(v, w, b, role);
    if Tidy(v) {
      TidyOpen(v);
      GrowsExact(v, w, b, role);
    }
  }

  lemma MapDirectKeeps(v: Vol, ino: int, k: int, b: int)
    requires Ok(v) && IsFree(v, b) && ino in v.files && 0 <= k < NDIRECT && Entry(v, ino, k) == 0
    ensures |v.files[ino].direct| == NDIRECT
    ensures var w := MapDirect(v, ino, k, b); Ok(w) && SameFiles(v, w) && (Tidy(v) ==> Tidy(w)) && Entry(w, ino, k) == b
  {
    MapDirectGrows(v, ino, k, b);
    GrownKeeps(v, MapDirect(v, ino, k, b), b, OwnData(ino, k));
  }

  lemma MapIndirectKeeps(v: Vol, ino: int, b: int)
    requires Ok(v) && IsFree(v, b) && ino in v.files && File(v, ino).indirect == 0
    ensures var w := MapIndirect(v, ino, b); Ok(w) && SameFiles(v, w) && (Tidy(v) ==> Tidy(w)) && At(w, b) == Clear
  {
    MapIndirectGrows(v, ino, b);
    GrownKeeps(v, MapIndirect(v, ino, b), b, OwnIndirect(ino));
  }

  lemma MapEntryKeeps(v: Vol, ino: int, j: int, b: int)
    requires Ok(v) && IsFree(v, b) && ino in v.files && File(v, ino).indirect != 0
    requires 0 <= j < DBPERIDB && Entry(v, ino, NDIRECT + j) == 0
    ensures |AsPointers(At(v, v.files[ino].indirect))| == DBPERIDB
    ensures var w := MapEntry(v, ino, j, b); Ok(w) && SameFiles(v, w) && (Tidy(v) ==> Tidy(w)) && Entry(w, ino, NDIRECT + j) == b
  {
    MapEntryGrows(v, ino, j, b);
    GrownKeeps(v, MapEntry(v, ino, j, b), b, OwnData(ino, NDIRECT + j));
  }

  // ----- The steps of reading and writing -----

  /** What a write that stored the data d has done so far. */
  ghost predicate Stored(v: Vol, w: Vol, ino: int, off: int, d: seq<int>)
  {
    forall k: int {:trigger Spelled(k)} :: k == 0 ==> Overlaid(v, w, ino, off, d)
  }

  lemma StoredOpen(v: Vol, w: Vol, ino: int, off: int, d: seq<int>)
    requires Stored(v, w, ino, off, d)
    ensures Overlaid(v, w, ino, off, d)
  {
    assert Spelled(0);
  }

  lemma StoredNothing(v: Vol, w: Vol, ino: int, off: int)
    requires SameFiles(v, w) && ino in v.files
    ensures Stored(v, w, ino, off, [])
  {
    OverlaidNothing(v, w, ino, off);
  }

  lemma StoredFile(v: Vol, w: Vol, ino: int, off: int, d: seq<int>)
    requires Stored(v, w, ino, off, d) && ino in v.files
    ensures ino in w.files
  {
    StoredOpen(v, w, ino, off, d);
  }

  lemma StoredTwice(u: Vol, v: Vol, w: Vol, ino: int, off: int, d: seq<int>, e: seq<int>)
    requires ino in u.files && Stored(u, v, ino, off, d) && Stored(v, w, ino, off + |d|, e)
    ensures Stored(u, w, ino, off, d + e) && ino in w.files
  {
    StoredOpen(u, v, ino, off, d);
    StoredOpen(v, w, ino, off + |d|, e);
    OverlaidTwice(u, v, w, ino, off, d, e);
  }

  /** Mapping a block and storing the patched contents is writing the data. */
  lemma BlockStored(u: Vol, v: Vol, w: Vol, ino: int, off: int, d: seq<int>)
    requires ino in u.files && ino in v.files && SameFiles(u, v) && Ok(v) && off >= 0 && off % BLOCK_SIZE + |d| <= BLOCK_SIZE
    requires off / BLOCK_SIZE < MAX_BLOCKS && Entry(v, ino, off / BLOCK_SIZE) != 0
    requires |AsBytes(At(v, Entry(v, ino, off / BLOCK_SIZE)))| == BLOCK_SIZE
    requires w == Store(v, Entry(v, ino, off / BLOCK_SIZE), Data(Patched(AsBytes(At(v, Entry(v, ino, off / BLOCK_SIZE))), off % BLOCK_SIZE, d)))
    ensures Ok(w) && (Tidy(v) ==> Tidy(w)) && Stored(u, w, ino, off, d)
  {
    PatchStored(v, w, ino, off / BLOCK_SIZE, off % BLOCK_SIZE, d);
    assert off / BLOCK_SIZE * BLOCK_SIZE + off % BLOCK_SIZE == off;
    StoredAfterSame(u, v, w, ino, off, d);
  }

  lemma PatchStored(v: Vol, w: Vol, ino: int, fb: int, skip: nat, d: seq<int>)
    requires Ok(v) && ino in v.files && 0 <= fb < MAX_BLOCKS && Entry(v, ino, fb) != 0 && skip + |d| <= BLOCK_SIZE
    requires |AsBytes(At(v, Entry(v, ino, fb)))| == BLOCK_SIZE
    requires w == Store(v, Entry(v, ino, fb), Data(Patched(AsBytes(At(v, Entry(v, ino, fb))), skip, d)))
    ensures Ok(w) && (Tidy(v) ==> Tidy(w)) && Stored(v, w, ino, fb * BLOCK_SIZE + skip, d)
  {
    assert BlockBytes(v, ino, fb) == AsBytes(At(v, Entry(v, ino, fb)));
    StoreOverlays(v, w, ino, fb, skip, d);
    if Tidy(v) {
      TidyOpen(v);
    }
  }

  lemma StoredAfterSame(u: Vol, v: Vol, w: Vol, ino: int, off: int, d: seq<int>)
    requires ino in u.files && SameFiles(u, v) && Stored(v, w, ino, off, d)
    ensures Stored(u, w, ino, off, d)
  {
    StoredOpen(v, w, ino, off, d);
    OverlaidAfterSame(u, v, w, ino, off, d);
  }

  /** The mapped block holds the bytes of the file. */
  lemma MappedBytes(v: Vol, ino: int, fb: int)
    requires Ok(v) && ino in v.files && 0 <= fb < MAX_BLOCKS
    ensures |AsBytes(At(v, Entry(v, ino, fb)))| == BLOCK_SIZE || Entry(v, ino, fb) == 0
    ensures BlockBytes(v, ino, fb) == if Entry(v, ino, fb) == 0 then Zeros(BLOCK_SIZE) else AsBytes(At(v, Entry(v, ino, fb)))
    ensures |BlockBytes(v, ino, fb)| == BLOCK_SIZE
  {
    BlockBytesSize(v, ino, fb);
  }

  lemma ReadBlock(v: Vol, ino: int, off: int, n: nat)
    requires Ok(v) && ino in v.files && off >= 0 && off / BLOCK_SIZE < MAX_BLOCKS && off % BLOCK_SIZE + n <= BLOCK_SIZE
    ensures |BlockBytes(v, ino, off / BLOCK_SIZE)| == BLOCK_SIZE
    ensures BlockBytes(v, ino, off / BLOCK_SIZE)[off % BLOCK_SIZE..off % BLOCK_SIZE + n] == Bytes(v, ino, off, n)
  {
    var fb, skip := off / BLOCK_SIZE, off % BLOCK_SIZE;
    MappedBytes(v, ino, fb);
    var s, r := BlockBytes(v, ino, fb)[skip..skip + n], Bytes(v, ino, off, n);
    forall i | 0 <= i < n
      ensures s[i] == r[i]
    {
      ByteInBlock(v, ino, fb, skip + i);
    }
  }

  lemma ByteInBlock(v: Vol, ino: int, fb: int, k: int)
    requires fb >= 0 && 0 <= k < BLOCK_SIZE && |BlockBytes(v, ino, fb)| == BLOCK_SIZE
    ensures Byte(v, ino, fb * BLOCK_SIZE + k) == BlockBytes(v, ino, fb)[k]
  {
  }

  /** The bytes are what the file holds from off on. */
  ghost predicate IsRead(v: Vol, ino: int, off: int, bytes: seq<int>)
  {
    forall k: int {:trigger Spelled(k)} :: k == 0 ==> bytes == Bytes(v, ino, off, |bytes|)
  }

  lemma IsReadOpen(v: Vol, ino: int, off: int, bytes: seq<int>)
    requires IsRead(v, ino, off, bytes)
    ensures bytes == Bytes(v, ino, off, |bytes|)
  {
    assert Spelled(0);
  }

  lemma IsReadConcat(v: Vol, ino: int, off: int, a: seq<int>, b: seq<int>)
    requires IsRead(v, ino, off, a) && IsRead(v, ino, off + |a|, b)
    ensures IsRead(v, ino, off, a + b)
  {
    IsReadOpen(v, ino, off, a);
    IsReadOpen(v, ino, off + |a|, b);
    assert a + b == Bytes(v, ino, off, |a + b|);
  }

  lemma ReadIsContents(v: Vol, ino: int, off: nat, bytes: seq<int>)
    requires IsRead(v, ino, off, bytes) && off + |bytes| <= SizeOf(v, ino)
    ensures bytes == Contents(v, ino)[off..off + |bytes|]
  {
    IsReadOpen(v, ino, off, bytes);
    var c := Contents(v, ino)[off..off + |bytes|];
    forall i | 0 <= i < |bytes|
      ensures bytes[i] == c[i]
    {
      assert c[i] == Byte(v, ino, 0 + (off + i));
    }
  }

  lemma IsReadPrefix(v: Vol, ino: int, off: int, bytes: seq<int>, n: nat)
    requires n <= |bytes| && bytes == Bytes(v, ino, off, |bytes|)
    ensures IsRead(v, ino, off, bytes[..n])
  {
    assert bytes[..n] == Bytes(v, ino, off, n);
  }

  lemma NothingRead(v: Vol, ino: int, off: int)
    ensures IsRead(v, ino, off, [])
  {
    assert Bytes(v, ino, off, 0) == [];
  }

  lemma WriteSettles(v: Vol, w: Vol, ino: int, off: nat, d: seq<int>, m: nat, x: Vol)
    requires Settled(v) && ino in v.files && ino in w.files && Stored(v, w, ino, off, d) && |d| <= m && Ok(w)
    requires x == (if off + m > File(w, ino).size then SetSize(w, ino, off + m) else w)
    ensures Ok(x) && Settled(x) && (Tidy(w) ==> Tidy(x)) && ino in x.files
    ensures Contents(x, ino) == FlatWrite(FlatWrite(Contents(v, ino), off, d), off + m, [])
    ensures forall i :: i in v.files && i != ino ==> i in x.files && Contents(x, i) == Contents(v, i)
    ensures x.files.Keys == v.files.Keys && File(x, ino).size == Max(File(v, ino).size, off + m)
  {
    SettledOpen(v);
    StoredOpen(v, w, ino, off, d);
    assert v.files[ino].size >= 0;
    OverlaidContents(v, w, ino, off, d, m, x);
    SetSizeOk(w, ino, off + m);
    if Tidy(w) {
      TidyOpen(w);
    }
    assert forall i :: i in x.files.Keys <==> i in v.files.Keys;
    assert forall i :: i in x.files ==> File(x, i).size >= 0 by {
      assert forall i :: i in v.files ==> v.files[i].size >= 0;
    }
    assert SizesOk(x);
  }

  // ----- The steps of truncating and discarding -----

  /** Every block listed is marked, and listed once. */
  ghost predicate ListedOnce(ptrs: seq<int>, marked: set<int>)
  {
    && (forall i :: 0 <= i < |ptrs| && ptrs[i] != 0 ==> ptrs[i] in marked)
    && forall i, j :: 0 <= i < j < |ptrs| && ptrs[i] != 0 ==> ptrs[i] != ptrs[j]
  }

  lemma NotYetFreed(ptrs: seq<int>, marked: set<int>, j: nat)
    requires ListedOnce(ptrs, marked) && j < |ptrs| && ptrs[j] != 0
    ensures ptrs[j] in marked - NonZero(ptrs, j)
  {
  }

  lemma ListedAreMarked(v: Vol, ino: int)
    requires Ok(v) && ino in v.files && File(v, ino).indirect != 0
    ensures var ptrs := AsPointers(At(v, File(v, ino).indirect));
            |ptrs| == DBPERIDB && ListedOnce(ptrs, v.marked) && File(v, ino).indirect in v.marked - NonZero(ptrs, |ptrs|)
  {
    EntryHasRole(v, ino, NDIRECT);
    var ptrs := AsPointers(At(v, File(v, ino).indirect));
    forall i | 0 <= i < |ptrs|
      ensures ptrs[i] == Entry(v, ino, NDIRECT + i) && RefOk(v, ptrs[i], OwnData(ino, NDIRECT + i)) && (ptrs[i] != 0 ==> ptrs[i] in v.marked)
    {
      EntryHasRole(v, ino, NDIRECT + i);
    }
    assert RefOk(v, File(v, ino).indirect, OwnIndirect(ino));
  }

  lemma InodeIsMarked(v: Vol, ino: int)
    requires Ok(v) && ino in v.files
    ensures ino in v.marked
  {
    SfsVolume.Open(v);
    assert FileOk(v, ino);
  }

  /** Blocks of file ino may have become zeros; everything else is as it was. */
  ghost predicate Fades(v: Vol, w: Vol, ino: int)
  {
    && (forall i :: i in w.files <==> i in v.files)
    && (forall i :: i in v.files ==> File(w, i).size == File(v, i).size)
    && (forall i, fb :: i in v.files && 0 <= fb < MAX_BLOCKS ==>
          BlockBytes(w, i, fb) == BlockBytes(v, i, fb) || (i == ino && BlockBytes(w, i, fb) == Zeros(BLOCK_SIZE)))
  }

  ghost predicate Faded(v: Vol, w: Vol, ino: int)
  {
    forall k: int {:trigger Spelled(k)} :: k == 0 ==> Fades(v, w, ino)
  }

  lemma FadedOpen(v: Vol, w: Vol, ino: int)
    requires Faded(v, w, ino)
    ensures Fades(v, w, ino)
  {
    assert Spelled(0);
  }

  lemma NotFaded(v: Vol, ino: int)
    ensures Faded(v, v, ino)
  {
    assert Fades(v, v, ino);
  }

  lemma FadedMore(u: Vol, v: Vol, w: Vol, ino: int)
    requires Faded(u, v, ino) && Faded(v, w, ino)
    ensures Faded(u, w, ino)
  {
    FadedOpen(u, v, ino);
    FadedOpen(v, w, ino);
    forall i, fb | i in u.files && 0 <= fb < MAX_BLOCKS
      ensures BlockBytes(w, i, fb) == BlockBytes(u, i, fb) || (i == ino && BlockBytes(w, i, fb) == Zeros(BLOCK_SIZE))
    {
      assert BlockBytes(v, i, fb) == BlockBytes(u, i, fb) || (i == ino && BlockBytes(v, i, fb) == Zeros(BLOCK_SIZE));
      assert BlockBytes(w, i, fb) == BlockBytes(v, i, fb) || (i == ino && BlockBytes(w, i, fb) == Zeros(BLOCK_SIZE));
    }
    assert forall i :: i in u.files ==> File(v, i).size == File(u, i).size;
    assert forall i :: i in v.files ==> File(w, i).size == File(v, i).size;
    assert Fades(u, w, ino);
  }

  /** Giving back blocks of one file. */
  lemma ShrinkFades(v: Vol, w: Vol, s: set<int>, ino: int)
    requires Ok(v) && Shrinks(v, w, s) && (forall i :: i in v.files ==> i !in s && File(w, i).size == File(v, i).size)
    requires forall i, fb :: i in v.files && i != ino && 0 <= fb < MAX_BLOCKS ==> Entry(v, i, fb) !in s
    ensures Ok(w) && (Tidy(v) ==> Tidy(w)) && Faded(v, w, ino)
  {
    ShrinksOk(v, w, s);
    if Tidy(v) {
      TidyOpen(v);
      ShrinksExact(v, w, s);
    }
    forall i, fb | i in v.files && 0 <= fb < MAX_BLOCKS
      ensures BlockBytes(w, i, fb) == BlockBytes(v, i, fb) || (i == ino && BlockBytes(w, i, fb) == Zeros(BLOCK_SIZE))
    {
      ShrinksBytes(v, w, s, i, fb);
    }
    assert Fades(v, w, ino);
  }

  lemma FreeDirectFades(v: Vol, ino: int, k: int)
    requires Ok(v) && ino in v.files && 0 <= k < NDIRECT && Entry(v, ino, k) != 0
    ensures |v.files[ino].direct| == NDIRECT
    ensures var w := FreeDirect(v, ino, k);
            && Ok(w) && (Tidy(v) ==> Tidy(w)) && Faded(v, w, ino) && ino in w.files
            && w.files[ino] == v.files[ino].(direct := v.files[ino].direct[k := 0])
  {
    var w, b := FreeDirect(v, ino, k), Entry(v, ino, k);
    FreeDirectShrinks(v, ino, k);
    SfsVolume.Open(v);
    forall i | i in v.files
      ensures i !in {b} && File(w, i).size == File(v, i).size
    {
      assert FileOk(v, i);
      EntryHasRole(v, ino, k);
    }
    forall i, fb | i in v.files && i != ino && 0 <= fb < MAX_BLOCKS
      ensures Entry(v, i, fb) !in {b}
    {
      if Entry(v, i, fb) == b {
        EntryIsOwn(v, ino, k, i, fb);
      }
    }
    ShrinkFades(v, w, {b}, ino);
  }

  lemma FreeIndirectFades(v: Vol, ino: int)
    requires Ok(v) && ino in v.files && File(v, ino).indirect != 0
    ensures |AsPointers(At(v, File(v, ino).indirect))| == DBPERIDB
    ensures var w := FreeIndirect(v, ino);
            && Ok(w) && (Tidy(v) ==> Tidy(w)) && Faded(v, w, ino) && ino in w.files
            && w.files[ino] == v.files[ino].(indirect := 0)
  {
    FreeIndirectShrinks(v, ino);
    var w := FreeIndirect(v, ino);
    var s := NonZero(AsPointers(At(v, File(v, ino).indirect)), DBPERIDB) + {File(v, ino).indirect};
    forall i, fb | i in v.files && i != ino && 0 <= fb < MAX_BLOCKS
      ensures Entry(v, i, fb) !in s
    {
      FreeIndirectEntry(v, ino, i, fb);
    }
    forall i | i in v.files
      ensures i !in s
    {
      InodeNotListed(v, ino, i);
    }
    ShrinkFades(v, w, s, ino);
  }

  lemma InodeNotListed(v: Vol, ino: int, i: int)
    requires Ok(v) && ino in v.files && i in v.files && File(v, ino).indirect != 0
    ensures |AsPointers(At(v, File(v, ino).indirect))| == DBPERIDB
    ensures i !in NonZero(AsPointers(At(v, File(v, ino).indirect)), DBPERIDB) + {File(v, ino).indirect}
  {
    SfsVolume.Open(v);
    assert FileOk(v, i) && FileOk(v, ino);
    Listed(v, ino, i);
    EntryHasRole(v, ino, NDIRECT);
    forall fb | NDIRECT <= fb < MAX_BLOCKS
      ensures Entry(v, ino, fb) == 0 || Entry(v, ino, fb) != i
    {
      EntryHasRole(v, ino, fb);
    }
  }

  lemma FadedSettles(v: Vol, w: Vol, ino: int)
    requires Settled(v) && Faded(v, w, ino) && ino in v.files
    ensures Settled(w) && w.files.Keys == v.files.Keys && File(w, ino).size == File(v, ino).size
    ensures forall i :: i in v.files && i != ino ==> Contents(w, i) == Contents(v, i)
  {
    SettledOpen(v);
    FadedOpen(v, w, ino);
    forall i, a | i in v.files
      ensures Byte(w, i, a) == Byte(v, i, a) || (i == ino && Byte(w, i, a) == 0)
    {
      var fb := a / BLOCK_SIZE;
      if 0 <= fb < MAX_BLOCKS {
        assert BlockBytes(w, i, fb) == BlockBytes(v, i, fb) || (i == ino && BlockBytes(w, i, fb) == Zeros(BLOCK_SIZE));
      } else {
        assert Entry(w, i, fb) == 0 == Entry(v, i, fb);
      }
    }
    assert TailOk(w);
    assert forall i :: i in w.files ==> File(w, i).size == File(v, i).size;
    assert forall i :: i in v.files ==> v.files[i].size >= 0;
    assert SizesOk(w);
    assert forall i :: i in w.files.Keys <==> i in v.files.Keys;
    forall i | i in v.files && i != ino
      ensures Contents(w, i) == Contents(v, i)
    {
      assert forall a :: Byte(w, i, a) == Byte(v, i, a);
    }
  }

  /** A file whose direct blocks are gone. */
  function FrontZeroed(c: seq<int>): (r: seq<int>)
    ensures |r| == |c|
  {
    seq(|c|, i requires 0 <= i < |c| => if i < NDIRECT * BLOCK_SIZE then 0 else c[i])
  }

  lemma FrontIsZeroed(v: Vol, w: Vol, ino: int)
    requires ino in v.files && ino in w.files && w.disk == v.disk && w.files[ino].indirect == v.files[ino].indirect
    requires w.files[ino].size == v.files[ino].size && forall k :: 0 <= k < NDIRECT ==> Entry(w, ino, k) == 0
    ensures Contents(w, ino) == FrontZeroed(Contents(v, ino))
  {
    var c, d := Contents(v, ino), Contents(w, ino);
    forall i | 0 <= i < |c|
      ensures d[i] == if i < NDIRECT * BLOCK_SIZE then 0 else c[i]
    {
      var fb := i / BLOCK_SIZE;
      if fb < NDIRECT {
        assert Entry(w, ino, fb) == 0;
      } else {
        assert Entry(w, ino, fb) == Entry(v, ino, fb);
      }
    }
  }

  /** A file without blocks, cut to size 0, is empty. */
  lemma EmptiedFile(v: Vol, ino: int)
    requires Ok(v) && Settled(v) && ino in v.files && File(v, ino).indirect == 0 && forall k :: 0 <= k < NDIRECT ==> Entry(v, ino, k) == 0
    ensures var w := SetSize(v, ino, 0);
            && Ok(w) && Settled(w) && (Tidy(v) ==> Tidy(w)) && Contents(w, ino) == [] && w.files.Keys == v.files.Keys
            && (forall fb :: 0 <= fb < MAX_BLOCKS ==> Entry(w, ino, fb) == 0)
            && forall i :: i in v.files && i != ino ==> Contents(w, i) == Contents(v, i)
  {
    var w := SetSize(v, ino, 0);
    SetSizeOk(v, ino, 0);
    SettledOpen(v);
    if Tidy(v) {
      TidyOpen(v);
    }
    SizeKeepsBytes(v, w, ino, 0);
    forall i, a | i in w.files && a >= SizeOf(w, i)
      ensures Byte(w, i, a) == 0
    {
      assert Byte(w, i, a) == Byte(v, i, a);
      if i == ino {
        assert Entry(v, ino, a / BLOCK_SIZE) == 0;
      } else {
        assert SizeOf(v, i) == SizeOf(w, i);
      }
    }
    assert SizeOf(w, ino) == 0;
    assert TailOk(w);
    forall fb | 0 <= fb < MAX_BLOCKS
      ensures Entry(w, ino, fb) == 0
    {
      assert Entry(w, ino, fb) == Entry(v, ino, fb);
    }
    assert forall i :: i in v.files ==> v.files[i].size >= 0;
    assert SizesOk(w);
    assert w.files.Keys == v.files.Keys;
    forall i | i in v.files && i != ino
      ensures Contents(w, i) == Contents(v, i)
    {
      assert forall a :: Byte(w, i, a) == Byte(v, i, a);
    }
  }

  /** The other files after an inode came or went. */
  lemma OthersStay(v: Vol, w: Vol, ino: int)
    requires Settled(v) && (forall i :: i != ino ==> (i in w.files <==> i in v.files))
    requires forall i :: i in v.files && i != ino ==> File(w, i).size == File(v, i).size
    requires forall i, fb :: i in v.files && i != ino && 0 <= fb < MAX_BLOCKS ==> BlockBytes(w, i, fb) == BlockBytes(v, i, fb)
    requires ino in w.files ==> File(w, ino) == Inode(0, Zeros(NDIRECT), 0)
    ensures Settled(w) && (ino in w.files ==> Contents(w, ino) == [])
    ensures forall i :: i in v.files && i != ino ==> Contents(w, i) == Contents(v, i)
  {
    SettledOpen(v);
    forall i, a | i in v.files && i != ino
      ensures Byte(w, i, a) == Byte(v, i, a)
    {
      var fb := a / BLOCK_SIZE;
      if 0 <= fb < MAX_BLOCKS {
        assert BlockBytes(w, i, fb) == BlockBytes(v, i, fb);
      } else {
        assert Entry(w, i, fb) == 0 == Entry(v, i, fb);
      }
    }
    forall i, a | i in w.files && a >= SizeOf(w, i)
      ensures Byte(w, i, a) == 0
    {
      if i == ino {
        assert Entry(w, ino, a / BLOCK_SIZE) == 0;
      } else {
        assert Byte(w, i, a) == Byte(v, i, a) && SizeOf(w, i) == SizeOf(v, i);
      }
    }
    assert TailOk(w);
    assert SizesOk(w) by {
      assert forall i :: i in v.files ==> v.files[i].size >= 0;
      forall i | i in w.files
        ensures w.files[i].size >= 0
      {
        assert i != ino ==> File(w, i).size == File(v, i).size;
      }
    }
    forall i | i in v.files && i != ino
      ensures Contents(w, i) == Contents(v, i)
    {
      assert forall a :: Byte(w, i, a) == Byte(v, i, a);
    }
  }

  lemma NewFileKeeps(v: Vol, b: int)
    requires Ok(v) && Settled(v) && IsFree(v, b)
    ensures b !in v.files
    ensures var w := NewFile(v, b);
            && Ok(w) && Settled(w) && (Tidy(v) ==> Tidy(w)) && Contents(w, b) == []
            && forall i :: i in v.files ==> Contents(w, i) == Contents(v, i)
  {
    var w := NewFile(v, b);
    FreeHasNoRole(v, b);
    NewFileGrows(v, b);
    GrowsOk(v, w, b, OwnInode);
    if Tidy(v) {
      TidyOpen(v);
      GrowsExact(v, w, b, OwnInode);
    }
    forall i, fb | i in v.files && i != b && 0 <= fb < MAX_BLOCKS
      ensures BlockBytes(w, i, fb) == BlockBytes(v, i, fb)
    {
      EntryHasRole(v, i, fb);
    }
    OthersStay(v, w, b);
  }

  lemma FreeInodeKeeps(v: Vol, ino: int)
    requires Ok(v) && Settled(v) && ino in v.files && File(v, ino).indirect == 0 && forall fb :: 0 <= fb < MAX_BLOCKS ==> Entry(v, ino, fb) == 0
    ensures var w := FreeInode(v, ino);
            && Ok(w) && Settled(w) && (Tidy(v) ==> Tidy(w)) && forall i :: i in v.files && i != ino ==> Contents(w, i) == Contents(v, i)
  {
    var w := FreeInode(v, ino);
    FreeInodeShrinks(v, ino);
    ShrinksOk(v, w, {ino});
    if Tidy(v) {
      TidyOpen(v);
      ShrinksExact(v, w, {ino});
    }
    SfsVolume.Open(v);
    assert FileOk(v, ino);
    forall i, fb | i in v.files && i != ino && 0 <= fb < MAX_BLOCKS
      ensures BlockBytes(w, i, fb) == BlockBytes(v, i, fb)
    {
      ShrinksBytes(v, w, {ino}, i, fb);
      EntryHasRole(v, i, fb);
    }
    OthersStay(v, w, ino);
  }

  function One(b: bool): nat
  {
    if b then 1 else 0
  }

  /** How many of the coming device transfers will fail. */
  function Due(faults: seq<bool>): nat
  {
    if |faults| == 0 then 0 else One(faults[0]) + Due(faults[1..])
  }

  /** How many of the coming user copies end inside a block. */
  function Short(copies: seq<nat>): nat
  {
    if |copies| == 0 then 0 else One(copies[0] < BLOCK_SIZE) + Short(copies[1..])
  }

  class Sfs {
    var vol: Vol
    /** Which of the coming device transfers will fail. */
    var faults: seq<bool>
    /** How many have failed so far. */
    var failures: nat
    /** How many bytes the coming user copies get to before they fault. */
    var copies: seq<nat>
    /** How many have faulted so far. */
    var copyFaults: nat
    /** The inodes whose vnode is marked dirty. */
    var dirty: set<int>

    ghost predicate Valid()
      reads this
    {
      Ok(vol) && (failures > 0 || Tidy(vol)) && Clean(vol, dirty)
    }

    /** An error has its cause: EIO comes of a transfer that failed, EFAULT of a user copy
        that faulted, one each, and each of those was due. */
    twostate predicate Charged(err: Err)
      reads this
    {
      && failures == old(failures) + One(err == EIO) && failures + Due(faults) == old(failures + Due(faults))
      && copyFaults == old(copyFaults) + One(err == EFAULT) && copyFaults + Short(copies) <= old(copyFaults + Short(copies))
    }

    constructor (v: Vol, f: seq<bool>, c: seq<nat>)
      requires Ok(v) && Tidy(v) && Clean(v, {})
      ensures Valid() && vol == v && faults == f && failures == 0 && copies == c && copyFaults == 0 && dirty == {}
    {
      vol, faults, failures, copies, copyFaults, dirty := v, f, 0, c, 0, {};
    }

    // ----- Device transfers: done, or failed and nothing happened -----

    method Transfer() returns (err: Err)
      modifies this`faults, this`failures
      ensures err == if |old(faults)| > 0 && old(faults)[0] then EIO else Fine
      ensures faults == if |old(faults)| > 0 then old(faults)[1..] else []
      ensures Charged(err)
    {
      if |faults| > 0 && faults[0] {
        err, failures := EIO, failures + 1;
      } else {
        err := Fine;
      }
      faults := if |faults| > 0 then faults[1..] else [];
    }

    method RBlock(b: int) returns (err: Err, data: Block)
      modifies this`faults, this`failures
      ensures (err == Fine || err == EIO) && Charged(err)
      ensures data == At(vol, b)
    {
      err := Transfer();
      data := At(vol, b);
    }

    method WBlock(b: int, data: Block) returns (err: Err)
      modifies this`vol, this`faults, this`failures
      ensures (err == Fine || err == EIO) && Charged(err)
      ensures vol == if err == Fine then Store(old(vol), b, data) else old(vol)
    {
      err := Transfer();
      if err == Fine {
        vol := Store(vol, b, data);
      }
    }

    /** uiomove of n bytes: all of them, or those before a fault. */
    method UserCopy(n: nat) returns (done: nat)
      requires n <= BLOCK_SIZE
      modifies this`copies, this`copyFaults
      ensures done == if |old(copies)| > 0 && old(copies)[0] < n then old(copies)[0] else n
      ensures copies == if |old(copies)| > 0 then old(copies)[1..] else []
      ensures Charged(if done < n then EFAULT else Fine)
    {
      done := if |copies| > 0 && copies[0] < n then copies[0] else n;
      if done < n {
        copyFaults := copyFaults + 1;
      }
      copies := if |copies| > 0 then copies[1..] else [];
    }

    // ----- Blocks -----

    /** bitmap_alloc's search: the lowest clear bit, or -1. */
    method LowestClear() returns (b: int)
      ensures b == -1 ==> forall k :: 0 <= k < vol.nbits ==> k in vol.marked
      ensures b != -1 ==> 0 <= b < vol.nbits && b !in vol.marked && forall k :: 0 <= k < b ==> k in vol.marked
    {
      b := 0;
      while b < vol.nbits && b in vol.marked
        invariant 0 <= b && forall k :: 0 <= k < b ==> k in vol.marked
        decreases vol.nbits - b
      {
        b := b + 1;
      }
      if b >= vol.nbits {
        b := -1;
      }
    }

    /** sfs_balloc: a free block, marked and cleared; in use for nothing yet. Bits
        beyond the volume are all marked, so the block is on the volume. */
    method BAlloc() returns (err: Err, b: int)
      requires Ok(vol) && Clean(vol, dirty)
      modifies this`vol, this`faults, this`failures
      ensures Clean(vol, dirty) && err != EFBIG && err != EFAULT && Charged(err)
      ensures err != ENOSPC ==> IsFree(old(vol), b)
      ensures err == ENOSPC <==> Full(old(vol))
      ensures vol == match err case Fine => Alloc(old(vol), b, Leaked) case EIO => Lose(old(vol), b) case _ => old(vol)
    {
      SfsVolume.Open(vol);
      b := LowestClear();
      if b == -1 {
        return ENOSPC, b;
      }
      assert b < vol.nblocks;
      FreeHasNoRole(vol, b);
      ghost var was := vol;
      vol := Lose(vol, b);
      err := WBlock(b, Clear);
      CleanStays(was, vol, dirty, dirty, b);
    }

    /** sfs_bmap: the disk block of a file block; with doalloc a missing one is made.
        No byte of any file changes. */
    method Bmap(ino: int, fileblock: int, doalloc: bool) returns (err: Err, diskblock: int)
      requires Valid() && ino in vol.files && 0 <= fileblock
      modifies this`vol, this`faults, this`failures, this`dirty
      ensures Valid() && SameFiles(old(vol), vol)
      ensures !doalloc ==> vol == old(vol)
      ensures err == Fine ==> fileblock < MAX_BLOCKS && diskblock == Entry(vol, ino, fileblock) && (doalloc ==> diskblock != 0)
      ensures err == Fine && diskblock != 0 ==> diskblock in vol.marked
      ensures (err == EFBIG <==> fileblock >= MAX_BLOCKS) && (err == ENOSPC ==> doalloc && Full(vol))
      ensures Charged(err) && err != EFAULT
      ensures old(dirty) <= dirty <= old(dirty) + {ino} && (!doalloc ==> dirty == old(dirty))
    {
      if fileblock < NDIRECT {
        err, diskblock := BmapDirect(ino, fileblock, doalloc);
      } else if (fileblock - NDIRECT) / DBPERIDB > 0 {
        SameFilesRefl(vol);
        return EFBIG, 0;
      } else {
        err, diskblock := BmapIndirect(ino, (fileblock - NDIRECT) % DBPERIDB, doalloc);
      }
      if err == Fine {
        EntryHasRole(vol, ino, fileblock);
      }
    }

    method BmapDirect(ino: int, k: int, doalloc: bool) returns (err: Err, block: int)
      requires Valid() && ino in vol.files && 0 <= k < NDIRECT
      modifies this`vol, this`faults, this`failures, this`dirty
      ensures Valid() && SameFiles(old(vol), vol)
      ensures !doalloc ==> vol == old(vol)
      ensures err == Fine ==> block == Entry(vol, ino, k) && (doalloc ==> block != 0)
      ensures err != EFBIG && err != EFAULT && (err == ENOSPC ==> doalloc && Full(vol)) && Charged(err)
      ensures old(dirty) <= dirty <= old(dirty) + {ino} && (!doalloc ==> dirty == old(dirty))
    {
      ghost var was := vol;
      EntryHasRole(vol, ino, k);
      SameFilesRefl(vol);
      err, block := Fine, vol.files[ino].direct[k];
      if block == 0 && doalloc {
        err, block := BAlloc();
        AllocResult(was, vol, err, block);
        if err != Fine {
          return;
        }
        FreeHasNoRole(was, block);
        MapDirectKeeps(was, ino, k, block);
        ghost var mid := vol;
        vol := vol.(files := vol.files[ino := vol.files[ino].(direct := vol.files[ino].direct[k := block])],
                    roles := vol.roles[block := OwnData(ino, k)]);
        CleanStays(mid, vol, dirty, dirty + {ino}, ino);
        dirty := dirty + {ino};
        assert vol == MapDirect(was, ino, k, block);
      }
    }

    method BmapIndirect(ino: int, idoff: int, doalloc: bool) returns (err: Err, block: int)
      requires Valid() && ino in vol.files && 0 <= idoff < DBPERIDB
      modifies this`vol, this`faults, this`failures, this`dirty
      ensures Valid() && SameFiles(old(vol), vol)
      ensures !doalloc ==> vol == old(vol)
      ensures err == Fine ==> block == Entry(vol, ino, NDIRECT + idoff) && (doalloc ==> block != 0)
      ensures err != EFBIG && err != EFAULT && (err == ENOSPC ==> doalloc && Full(vol)) && Charged(err)
      ensures old(dirty) <= dirty <= old(dirty) + {ino} && (!doalloc ==> dirty == old(dirty))
    {
      ghost var was := vol;
      EntryHasRole(vol, ino, NDIRECT + idoff);
      SameFilesRefl(vol);
      var idblock := vol.files[ino].indirect;
      var idbuf := Clear;
      if idblock == 0 && !doalloc {
        return Fine, 0;
      } else if idblock == 0 {
        err, idblock := NewIndirect(ino);
        if err != Fine {
          return err, 0;
        }
      } else {
        err, idbuf := RBlock(idblock);
        if err != Fine {
          return err, 0;
        }
      }
      ghost var mid := vol;
      err, block := BmapEntry(ino, idoff, doalloc, idblock, AsPointers(idbuf));
      SameFilesChain(was, mid, vol);
    }

    /** A fresh indirect block for a file without one. */
    method NewIndirect(ino: int) returns (err: Err, idblock: int)
      requires Valid() && ino in vol.files && vol.files[ino].indirect == 0
      modifies this`vol, this`faults, this`failures, this`dirty
      ensures Valid() && SameFiles(old(vol), vol)
      ensures err == Fine ==> ino in vol.files && vol.files[ino].indirect == idblock != 0 && At(vol, idblock) == Clear
      ensures err != EFBIG && err != EFAULT && (err == ENOSPC ==> Full(vol)) && Charged(err)
      ensures old(dirty) <= dirty <= old(dirty) + {ino}
    {
      ghost var was := vol;
      err, idblock := BAlloc();
      AllocResult(was, vol, err, idblock);
      if err != Fine {
        return;
      }
      FreeHasNoRole(was, idblock);
      MapIndirectKeeps(was, ino, idblock);
      ghost var mid := vol;
      vol := vol.(files := vol.files[ino := vol.files[ino].(indirect := idblock)], roles := vol.roles[idblock := OwnIndirect(ino)]);
      CleanStays(mid, vol, dirty, dirty + {ino}, ino);
      dirty := dirty + {ino};
      assert vol == MapIndirect(was, ino, idblock);
    }

    /** The indirect block is in the buffer: look the block up in it, or make one. */
    method BmapEntry(ino: int, idoff: int, doalloc: bool, idblock: int, idbuf: seq<int>) returns (err: Err, block: int)
      requires Valid() && ino in vol.files && 0 <= idoff < DBPERIDB
      requires vol.files[ino].indirect == idblock != 0 && idbuf == AsPointers(At(vol, idblock))
      modifies this`vol, this`faults, this`failures, this`dirty
      ensures Valid() && SameFiles(old(vol), vol)
      ensures !doalloc ==> vol == old(vol)
      ensures err == Fine ==> block == Entry(vol, ino, NDIRECT + idoff) && (doalloc ==> block != 0)
      ensures err != EFBIG && err != EFAULT && (err == ENOSPC ==> doalloc && Full(vol)) && Charged(err)
      ensures old(dirty) <= dirty <= old(dirty) + {ino} && (!doalloc ==> dirty == old(dirty))
    {
      ghost var was := vol;
      EntryHasRole(vol, ino, NDIRECT + idoff);
      SameFilesRefl(vol);
      err, block := Fine, idbuf[idoff];
      if block == 0 && doalloc {
        err, block := BAlloc();
        AllocResult(was, vol, err, block);
        if err != Fine {
          return;
        }
        FreeHasNoRole(was, block);
        MapEntryKeeps(was, ino, idoff, block);
        NotAnInode(was, idblock);
        ghost var mid := vol;
        err := WBlock(idblock, Pointers(idbuf[idoff := block]));
        if err != Fine {
          return;
        }
        vol := vol.(roles := vol.roles[block := OwnData(ino, NDIRECT + idoff)]);
        CleanStays(mid, vol, dirty, dirty, idblock);
        assert vol == MapEntry(was, ino, idoff, block);
      }
    }

    // ----- Reading -----

    /** The first half of sfs_partialio, reading: the block is in the buffer. */
    method Buffered(ino: int, off: int) returns (err: Err, iobuf: seq<int>)
      requires Valid() && ino in vol.files && off >= 0
      modifies this`vol, this`faults, this`failures, this`dirty
      ensures Valid() && vol == old(vol) && dirty == old(dirty) && Charged(err) && (err == Fine || err == EIO || err == EFBIG)
      ensures err == EFBIG <==> off / BLOCK_SIZE >= MAX_BLOCKS
      ensures err == Fine ==> iobuf == BlockBytes(vol, ino, off / BLOCK_SIZE)
    {
      var diskblock;
      err, diskblock := Bmap(ino, off / BLOCK_SIZE, false);
      if err != Fine {
        return err, [];
      }
      MappedBytes(vol, ino, off / BLOCK_SIZE);
      if diskblock == 0 {
        return Fine, Zeros(BLOCK_SIZE);
      }
      var data;
      err, data := RBlock(diskblock);
      iobuf := AsBytes(data);
    }

    /** sfs_partialio, reading. */
    method PartialRead(ino: int, off: int, len: nat) returns (err: Err, bytes: seq<int>)
      requires Valid() && ino in vol.files && off >= 0 && off % BLOCK_SIZE + len <= BLOCK_SIZE
      modifies this
      ensures Valid() && vol == old(vol) && dirty == old(dirty) && Charged(err) && err != ENOSPC
      ensures (err == EFBIG <==> off / BLOCK_SIZE >= MAX_BLOCKS)
      ensures IsRead(vol, ino, off, bytes) && |bytes| <= len && (err == Fine ==> |bytes| == len) && (err == EIO || err == EFBIG ==> bytes == [])
      ensures err == EFAULT ==> |old(copies)| > 0 && |bytes| == old(copies)[0]
    {
      var skipstart := off % BLOCK_SIZE;
      var iobuf;
      NothingRead(vol, ino, off);
      err, iobuf := Buffered(ino, off);
      if err != Fine {
        return err, [];
      }
      ReadBlock(vol, ino, off, len);
      var done := UserCopy(len);
      bytes := iobuf[skipstart..skipstart + done];
      IsReadPrefix(vol, ino, off, iobuf[skipstart..skipstart + len], done);
      assert iobuf[skipstart..skipstart + len][..done] == bytes;
      err := if done < len then EFAULT else Fine;
    }

    /** sfs_blockio, reading: a missing block is read as zeros without a transfer. */
    method BlockRead(ino: int, off: int) returns (err: Err, bytes: seq<int>)
      requires Valid() && ino in vol.files && off >= 0 && off % BLOCK_SIZE == 0
      modifies this
      ensures Valid() && vol == old(vol) && dirty == old(dirty) && Charged(err) && err != ENOSPC
      ensures (err == EFBIG <==> off / BLOCK_SIZE >= MAX_BLOCKS)
      ensures IsRead(vol, ino, off, bytes) && |bytes| <= BLOCK_SIZE && (err == Fine ==> |bytes| == BLOCK_SIZE)
      ensures err == EFAULT ==> |old(copies)| > 0 && |bytes| == old(copies)[0]
    {
      var diskblock;
      NothingRead(vol, ino, off);
      err, diskblock := Bmap(ino, off / BLOCK_SIZE, false);
      if err != Fine {
        return err, [];
      }
      MappedBytes(vol, ino, off / BLOCK_SIZE);
      ReadBlock(vol, ino, off, BLOCK_SIZE);
      var b := BlockBytes(vol, ino, off / BLOCK_SIZE);
      assert b[0..BLOCK_SIZE] == b;
      if diskblock == 0 {
        var done := UserCopy(BLOCK_SIZE);
        IsReadPrefix(vol, ino, off, b, done);
        assert Zeros(BLOCK_SIZE)[..done] == Zeros(done);
        return if done < BLOCK_SIZE then EFAULT else Fine, Zeros(done);
      }
      var data;
      err, data := RBlock(diskblock);
      bytes := if err == Fine then AsBytes(data) else [];
    }

    /** The whole blocks of sfs_io, reading. */
    method ReadBlocks(ino: int, off: int, nblocks: nat) returns (err: Err, bytes: seq<int>)
      requires Valid() && ino in vol.files && off >= 0 && off % BLOCK_SIZE == 0
      modifies this
      ensures Valid() && vol == old(vol) && dirty == old(dirty) && Charged(err) && err != ENOSPC
      ensures IsRead(vol, ino, off, bytes) && |bytes| <= nblocks * BLOCK_SIZE
      ensures err == Fine ==> |bytes| == nblocks * BLOCK_SIZE
      ensures err == EFBIG ==> off + nblocks * BLOCK_SIZE > MAX_SIZE
    {
      err, bytes := Fine, [];
      NothingRead(vol, ino, off);
      var i := 0;
      while i < nblocks
        invariant 0 <= i <= nblocks && Valid() && vol == old(vol) && dirty == old(dirty) && Charged(Fine) && err == Fine
        invariant |bytes| == i * BLOCK_SIZE && IsRead(vol, ino, off, bytes)
      {
        var more;
        err, more := BlockRead(ino, off + i * BLOCK_SIZE);
        IsReadConcat(vol, ino, off, bytes, more);
        bytes := bytes + more;
        if err != Fine {
          return;
        }
        i := i + 1;
      }
    }

    /** sfs_io, reading n bytes at off: what the file holds there, up to its end. */
    method Read(ino: int, off: nat, n: nat) returns (err: Err, bytes: seq<int>)
      requires Valid() && Settled(vol) && ino in vol.files
      modifies this
      ensures Valid() && vol == old(vol) && dirty == old(dirty) && Charged(err)
      ensures |bytes| <= Max(0, Min(n, SizeOf(vol, ino) - off))
      ensures |bytes| > 0 ==> bytes == Contents(vol, ino)[off..off + |bytes|]
      ensures err == Fine ==> |bytes| == Max(0, Min(n, SizeOf(vol, ino) - off))
      ensures err != ENOSPC && (err == EFBIG ==> SizeOf(vol, ino) > MAX_SIZE)
    {
      SettledOpen(vol);
      var size := vol.files[ino].size;
      if off >= size {
        return Fine, [];
      }
      err, bytes := ReadInside(ino, off, if off + n > size then size - off else n);
      ReadIsContents(vol, ino, off, bytes);
    }

    method ReadInside(ino: int, off: nat, resid: nat) returns (err: Err, bytes: seq<int>)
      requires Valid() && ino in vol.files
      modifies this
      ensures Valid() && vol == old(vol) && dirty == old(dirty) && Charged(err)
      ensures IsRead(vol, ino, off, bytes) && |bytes| <= resid && (err == Fine ==> |bytes| == resid)
      ensures err != ENOSPC && (err == EFBIG ==> off + resid > MAX_SIZE)
    {
      var blkoff := off % BLOCK_SIZE;
      err, bytes := Fine, [];
      NothingRead(vol, ino, off);
      if blkoff != 0 {
        err, bytes := PartialRead(ino, off, Min(BLOCK_SIZE - blkoff, resid));
        if err != Fine {
          return;
        }
      }
      if |bytes| == resid {
        return;
      }
      assert (off + |bytes|) % BLOCK_SIZE == 0;
      var more;
      err, more := ReadAligned(ino, off + |bytes|, resid - |bytes|);
      IsReadConcat(vol, ino, off, bytes, more);
      bytes := bytes + more;
    }

    /** The whole blocks and the last partial block of sfs_io, reading. */
    method ReadAligned(ino: int, off: nat, resid: nat) returns (err: Err, bytes: seq<int>)
      requires Valid() && ino in vol.files && off % BLOCK_SIZE == 0
      modifies this
      ensures Valid() && vol == old(vol) && dirty == old(dirty) && Charged(err)
      ensures IsRead(vol, ino, off, bytes) && |bytes| <= resid && (err == Fine ==> |bytes| == resid)
      ensures err != ENOSPC && (err == EFBIG ==> off + resid > MAX_SIZE)
    {
      err, bytes := ReadBlocks(ino, off, resid / BLOCK_SIZE);
      if err == Fine && |bytes| < resid {
        assert (off + |bytes|) % BLOCK_SIZE == 0;
        var more;
        err, more := PartialRead(ino, off + |bytes|, resid - |bytes|);
        IsReadConcat(vol, ino, off, bytes, more);
        bytes := bytes + more;
      }
    }

    // ----- Writing -----

    /** sfs_partialio, writing. When only the last transfer fails, the uio has moved
        but nothing is stored. */
    method PartialWrite(ino: int, off: int, d: seq<int>) returns (err: Err, moved: nat)
      requires Valid() && ino in vol.files && off >= 0 && off % BLOCK_SIZE + |d| <= BLOCK_SIZE
      modifies this
      ensures Valid() && Charged(err)
      ensures (err == EFBIG <==> off / BLOCK_SIZE >= MAX_BLOCKS) && (err == Fine ==> moved == |d|) && (err == EFBIG || err == ENOSPC ==> moved == 0) && moved <= |d|
      ensures if err == Fine then Stored(old(vol), vol, ino, off, d) else SameFiles(old(vol), vol)
      ensures (err == ENOSPC ==> Full(vol)) && old(dirty) <= dirty <= old(dirty) + {ino}
      ensures err == EFAULT ==> |old(copies)| > 0 && moved == old(copies)[0]
    {
      ghost var was := vol;
      var skipstart := off % BLOCK_SIZE;
      var diskblock, data;
      moved := 0;
      err, diskblock := Bmap(ino, off / BLOCK_SIZE, true);
      if err != Fine {
        return;
      }
      MappedBytes(vol, ino, off / BLOCK_SIZE);
      err, data := RBlock(diskblock);
      if err != Fine {
        return;
      }
      moved := UserCopy(|d|);
      if moved < |d| {
        return EFAULT, moved;
      }
      var iobuf := Patched(AsBytes(data), skipstart, d);
      BlockStored(was, vol, Store(vol, diskblock, Data(iobuf)), ino, off, d);
      DataIsNoInode(vol, ino, off / BLOCK_SIZE);
      ghost var mid := vol;
      err := WBlock(diskblock, Data(iobuf));
      CleanStays(mid, vol, dirty, dirty, diskblock);
    }

    /** sfs_blockio, writing: the whole block goes straight to the device. */
    method BlockWrite(ino: int, off: int, d: seq<int>) returns (err: Err)
      requires Valid() && ino in vol.files && off >= 0 && off % BLOCK_SIZE == 0 && |d| == BLOCK_SIZE
      modifies this
      ensures Valid() && Charged(err)
      ensures (err == EFBIG <==> off / BLOCK_SIZE >= MAX_BLOCKS) && err != EFAULT
      ensures if err == Fine then Stored(old(vol), vol, ino, off, d) else SameFiles(old(vol), vol)
      ensures (err == ENOSPC ==> Full(vol)) && old(dirty) <= dirty <= old(dirty) + {ino}
    {
      ghost var was := vol;
      var diskblock;
      err, diskblock := Bmap(ino, off / BLOCK_SIZE, true);
      if err != Fine {
        return;
      }
      MappedBytes(vol, ino, off / BLOCK_SIZE);
      assert Patched(AsBytes(At(vol, diskblock)), 0, d) == d;
      BlockStored(was, vol, Store(vol, diskblock, Data(d)), ino, off, d);
      DataIsNoInode(vol, ino, off / BLOCK_SIZE);
      ghost var mid := vol;
      err := WBlock(diskblock, Data(d));
      CleanStays(mid, vol, dirty, dirty, diskblock);
    }

    /** The whole blocks of sfs_io, writing. */
    method WriteBlocks(ino: int, off: int, d: seq<int>) returns (err: Err, moved: nat)
      requires Valid() && ino in vol.files && off >= 0 && off % BLOCK_SIZE == 0
      modifies this
      ensures Valid() && Charged(err) && ino in vol.files
      ensures err != EFAULT && moved <= |d| && moved % BLOCK_SIZE == 0 && Stored(old(vol), vol, ino, off, d[..moved])
      ensures err == Fine ==> |d| - moved < BLOCK_SIZE
      ensures (err == EFBIG ==> off + |d| > MAX_SIZE) && (err == ENOSPC ==> Full(vol))
      ensures old(dirty) <= dirty <= old(dirty) + {ino}
    {
      ghost var was := vol;
      err, moved := Fine, 0;
      SameFilesRefl(vol);
      StoredNothing(was, vol, ino, off);
      assert d[..0] == [];
      while |d| - moved >= BLOCK_SIZE
        invariant moved <= |d| && moved % BLOCK_SIZE == 0 && Valid() && Charged(Fine) && err == Fine && ino in vol.files
        invariant Stored(was, vol, ino, off, d[..moved]) && old(dirty) <= dirty <= old(dirty) + {ino}
        decreases |d| - moved
      {
        ghost var mid := vol;
        var chunk := d[moved..moved + BLOCK_SIZE];
        err := BlockWrite(ino, off + moved, chunk);
        if err != Fine {
          StoredNothing(mid, vol, ino, off + moved);
          StoredTwice(was, mid, vol, ino, off, d[..moved], []);
          assert d[..moved] + [] == d[..moved];
          return;
        }
        StoredTwice(was, mid, vol, ino, off, d[..moved], chunk);
        assert d[..moved] + chunk == d[..moved + BLOCK_SIZE];
        moved := moved + BLOCK_SIZE;
      }
    }

    /** The whole blocks and the last partial block of sfs_io, writing. */
    method WriteAligned(ino: int, off: nat, d: seq<int>) returns (err: Err, moved: nat, ghost stored: nat)
      requires Valid() && ino in vol.files && off % BLOCK_SIZE == 0
      modifies this
      ensures Valid() && Charged(err) && ino in vol.files
      ensures stored <= moved <= |d| && Stored(old(vol), vol, ino, off, d[..stored])
      ensures (err == Fine ==> stored == |d|) && (err != EIO && err != EFAULT ==> stored == moved)
      ensures (err == EFBIG ==> off + |d| > MAX_SIZE) && (err == ENOSPC ==> Full(vol))
      ensures old(dirty) <= dirty <= old(dirty) + {ino}
    {
      ghost var was := vol;
      err, moved := WriteBlocks(ino, off, d);
      stored := moved;
      if err == Fine && moved < |d| {
        ghost var mid, front := vol, d[..moved];
        var more;
        err, more := PartialWrite(ino, off + moved, d[moved..]);
        ghost var back := if err == Fine then d[moved..] else [];
        if err != Fine {
          StoredNothing(mid, vol, ino, off + moved);
        }
        StoredTwice(was, mid, vol, ino, off, front, back);
        stored := moved + |back|;
        assert front + back == d[..stored];
        moved := moved + more;
      }
    }

    /** sfs_io, writing, up to the adjustment of the file length. */
    method WriteInside(ino: int, off: nat, d: seq<int>) returns (err: Err, moved: nat, ghost stored: nat)
      requires Valid() && ino in vol.files
      modifies this
      ensures Valid() && Charged(err) && ino in vol.files
      ensures stored <= moved <= |d| && Stored(old(vol), vol, ino, off, d[..stored])
      ensures (err == Fine ==> stored == |d|) && (err != EIO && err != EFAULT ==> stored == moved)
      ensures (err == EFBIG ==> off + |d| > MAX_SIZE) && (err == ENOSPC ==> Full(vol))
      ensures old(dirty) <= dirty <= old(dirty) + {ino}
    {
      var blkoff := off % BLOCK_SIZE;
      if blkoff == 0 {
        err, moved, stored := WriteAligned(ino, off, d);
        return;
      }
      ghost var was := vol;
      var len := Min(BLOCK_SIZE - blkoff, |d|);
      err, moved := PartialWrite(ino, off, d[..len]);
      stored := if err == Fine then len else 0;
      if err != Fine {
        StoredNothing(was, vol, ino, off);
        assert d[..0] == [];
        return;
      }
      StoredFile(was, vol, ino, off, d[..len]);
      if moved < |d| {
        ghost var mid := vol;
        ghost var rest;
        var more;
        err, more, rest := WriteAligned(ino, off + len, d[len..]);
        StoredTwice(was, mid, vol, ino, off, d[..len], d[len..][..rest]);
        stored := len + rest;
        assert d[..len] + d[len..][..rest] == d[..stored];
        moved := len + more;
      }
    }

    /** sfs_write: the file becomes what a flat write makes of it. A write that fails
        has stored a prefix of the data and still extends the file by what the uio moved. */
    method Write(ino: int, off: nat, d: seq<int>) returns (err: Err, moved: nat, ghost stored: nat)
      requires Valid() && Settled(vol) && ino in vol.files
      modifies this
      ensures Valid() && Settled(vol) && Charged(err)
      ensures vol.files.Keys == old(vol).files.Keys && moved <= |d| && (err == Fine ==> moved == |d|)
      ensures stored <= moved && Contents(vol, ino) == FlatWrite(FlatWrite(Contents(old(vol), ino), off, d[..stored]), off + moved, [])
      ensures err != EIO && err != EFAULT ==> stored == moved && Contents(vol, ino) == FlatWrite(Contents(old(vol), ino), off, d[..moved])
      ensures File(vol, ino).size == Max(File(old(vol), ino).size, off + moved)
      ensures forall i :: i in old(vol).files && i != ino ==> Contents(vol, i) == Contents(old(vol), i)
      ensures (err == EFBIG ==> off + |d| > MAX_SIZE) && (err == ENOSPC ==> Full(vol))
      ensures old(dirty) <= dirty <= old(dirty) + {ino}
    {
      ghost var was := vol;
      err, moved, stored := WriteInside(ino, off, d);
      NoGap(Contents(was, ino), off, d[..stored]);
      WriteSettles(was, vol, ino, off, d[..stored], moved, if off + moved > File(vol, ino).size then SetSize(vol, ino, off + moved) else vol);
      if off + moved > vol.files[ino].size {
        ghost var mid := vol;
        vol := SetSize(vol, ino, off + moved);
        CleanStays(mid, vol, dirty, dirty + {ino}, ino);
        dirty := dirty + {ino};
      }
    }

    // ----- Truncating to nothing, creating, discarding -----

    /** The loop of sfs_truncate over the direct blocks. */
    method FreeDirects(ino: int)
      requires Valid() && ino in vol.files
      modifies this`vol, this`dirty
      ensures Valid() && Faded(old(vol), vol, ino) && ino in vol.files && vol.disk == old(vol).disk
      ensures old(dirty) <= dirty <= old(dirty) + {ino}
      ensures forall k :: 0 <= k < NDIRECT ==> Entry(vol, ino, k) == 0
      ensures vol.files[ino].indirect == old(vol).files[ino].indirect
    {
      ghost var was := vol;
      NotFaded(vol, ino);
      var i := 0;
      while i < NDIRECT
        invariant 0 <= i <= NDIRECT && Valid() && Faded(was, vol, ino) && ino in vol.files && vol.disk == was.disk
        invariant old(dirty) <= dirty <= old(dirty) + {ino}
        invariant forall k :: 0 <= k < i ==> Entry(vol, ino, k) == 0
        invariant vol.files[ino].indirect == was.files[ino].indirect
      {
        EntryHasRole(vol, ino, i);
        var block := vol.files[ino].direct[i];
        if block != 0 {
          ghost var mid := vol;
          FreeDirectFades(vol, ino, i);
          FadedMore(was, mid, FreeDirect(vol, ino, i), ino);
          BFree(block);
          vol := vol.(files := vol.files[ino := vol.files[ino].(direct := vol.files[ino].direct[i := 0])]);
          CleanStays(mid, vol, dirty, dirty + {ino}, ino);
          dirty := dirty + {ino};
          assert vol == FreeDirect(mid, ino, i);
          assert forall k :: 0 <= k < i ==> Entry(vol, ino, k) == Entry(mid, ino, k);
        }
        i := i + 1;
      }
    }

    /** The loop of sfs_truncate over an indirect block whose entries are all past the
        new end: they are freed, and none is left. */
    method FreeListed(ptrs: seq<int>) returns (hasnonzero: bool)
      requires |ptrs| == DBPERIDB && ListedOnce(ptrs, vol.marked)
      modifies this`vol
      ensures vol == Unmark(old(vol), NonZero(ptrs, |ptrs|)) && !hasnonzero
    {
      ghost var was := vol;
      var idbuf := ptrs;
      var j := 0;
      hasnonzero := false;
      UnmarkNothing(vol);
      while j < DBPERIDB
        invariant 0 <= j <= DBPERIDB == |idbuf| == |ptrs| && !hasnonzero && idbuf[j..] == ptrs[j..]
        invariant vol == Unmark(was, NonZero(ptrs, j))
      {
        if ptrs[j] != 0 {
          NotYetFreed(ptrs, was.marked, j);
        }
        assert idbuf[j] == idbuf[j..][0] == ptrs[j];
        UnmarkMore(was, NonZero(ptrs, j), {ptrs[j]});
        NonZeroNext(ptrs, j);
        if idbuf[j] != 0 {
          BFree(idbuf[j]);
          idbuf := idbuf[j := 0];
        }
        if idbuf[j] != 0 {
          hasnonzero := true;
        }
        assert idbuf[j + 1..] == ptrs[j..][1..];
        j := j + 1;
      }
    }

    /** The part of sfs_truncate about the indirect block: all it lists is past the
        new end, so nothing in it stays and it goes too. */
    method FreeIndirects(ino: int) returns (err: Err)
      requires Valid() && ino in vol.files
      modifies this
      ensures Valid() && Faded(old(vol), vol, ino) && ino in vol.files && (err == Fine || err == EIO)
      ensures Charged(err)
      ensures vol.files[ino].direct == old(vol).files[ino].direct
      ensures err == Fine ==> vol.files[ino].indirect == 0
      ensures err != Fine ==> vol == old(vol)
      ensures old(dirty) <= dirty <= old(dirty) + {ino}
    {
      ghost var was := vol;
      NotFaded(vol, ino);
      var idblock := vol.files[ino].indirect;
      if idblock == 0 {
        return Fine;
      }
      var data;
      err, data := RBlock(idblock);
      if err != Fine {
        return;
      }
      var idbuf := AsPointers(data);
      ghost var ptrs := idbuf;
      FreeIndirectFades(vol, ino);
      ListedAreMarked(vol, ino);
      var hasnonzero := FreeListed(idbuf);
      assert !hasnonzero;
      UnmarkMore(was, NonZero(ptrs, |ptrs|), {idblock});
      BFree(idblock);
      assert vol == Unmark(was, NonZero(ptrs, |ptrs|) + {idblock});
      vol := vol.(files := vol.files[ino := vol.files[ino].(indirect := 0)]);
      assert vol == FreeIndirect(was, ino);
      CleanStays(was, vol, dirty, dirty + {ino}, ino);
      dirty := dirty + {ino};
    }

    /** sfs_bfree, where bitmap_unmark asserts that the block was marked. */
    method BFree(b: int)
      requires b in vol.marked
      modifies this`vol
      ensures vol == Unmark(old(vol), {b})
    {
      vol := vol.(marked := vol.marked - {b}, roles := vol.roles - {b});
    }

    /** sfs_truncate to length 0: the file is empty and its blocks are free. When the
        indirect block cannot be read the file keeps its size, and its bytes behind the
        direct blocks; those in the direct blocks read as zeros. */
    method Truncate(ino: int) returns (err: Err)
      requires Valid() && Settled(vol) && ino in vol.files
      modifies this
      ensures Valid() && Settled(vol) && Charged(err) && (err == Fine || err == EIO)
      ensures vol.files.Keys == old(vol).files.Keys
      ensures forall i :: i in old(vol).files && i != ino ==> Contents(vol, i) == Contents(old(vol), i)
      ensures err == Fine ==> Contents(vol, ino) == [] && vol.files[ino].indirect == 0 && forall fb :: 0 <= fb < MAX_BLOCKS ==> Entry(vol, ino, fb) == 0
      ensures err != Fine ==> Contents(vol, ino) == FrontZeroed(Contents(old(vol), ino))
      ensures old(dirty) <= dirty <= old(dirty) + {ino} && (err == Fine ==> ino in dirty)
    {
      ghost var was := vol;
      FreeDirects(ino);
      ghost var mid := vol;
      err := FreeIndirects(ino);
      FadedMore(was, mid, vol, ino);
      FadedSettles(was, vol, ino);
      if err != Fine {
        FrontIsZeroed(was, vol, ino);
        return;
      }
      forall k | 0 <= k < NDIRECT
        ensures Entry(vol, ino, k) == 0
      {
        assert Entry(mid, ino, k) == 0;
        EntryHasRole(mid, ino, k);
      }
      EmptiedFile(vol, ino);
      ghost var last := vol;
      vol := SetSize(vol, ino, 0);
      CleanStays(last, vol, dirty, dirty + {ino}, ino);
      dirty := dirty + {ino};
    }

    /** sfs_makeobj: a block for the inode, then its vnode is loaded from it. */
    method MakeObj() returns (err: Err, ino: int)
      requires Valid() && Settled(vol)
      modifies this
      ensures Valid() && Settled(vol) && Charged(err) && err != EFBIG && err != EFAULT
      ensures forall i :: i in old(vol).files ==> i in vol.files && Contents(vol, i) == Contents(old(vol), i)
      ensures err == Fine ==> ino !in old(vol).files && vol.files.Keys == old(vol).files.Keys + {ino} && Contents(vol, ino) == []
      ensures err != Fine ==> vol.files == old(vol).files
      ensures err == ENOSPC <==> Full(old(vol))
      ensures err == ENOSPC ==> vol == old(vol)
    {
      ghost var was := vol;
      err, ino := BAlloc();
      AllocResult(was, vol, err, ino);
      SettledSame(was, vol);
      forall i | i in was.files
        ensures Contents(vol, i) == Contents(was, i)
      {
        SameContents(was, vol, i);
      }
      if err != Fine {
        return;
      }
      var data;
      err, data := RBlock(ino);
      if err != Fine {
        return;
      }
      NewFileKeeps(was, ino);
      ghost var mid := vol;
      vol := vol.(files := vol.files[ino := Inode(0, Zeros(NDIRECT), 0)], roles := vol.roles[ino := OwnInode]);
      assert vol == NewFile(was, ino);
      CleanStays(mid, vol, dirty, dirty + {ino}, ino);
      dirty := dirty + {ino};
    }

    /** The end of sfs_reclaim for a file without names: its blocks, then the inode. */
    method Discard(ino: int) returns (err: Err)
      requires Valid() && Settled(vol) && ino in vol.files
      modifies this
      ensures Valid() && Settled(vol) && Charged(err) && (err == Fine || err == EIO)
      ensures vol.files.Keys == if err == Fine then old(vol).files.Keys - {ino} else old(vol).files.Keys
      ensures forall i :: i in old(vol).files && i != ino ==> Contents(vol, i) == Contents(old(vol), i)
    {
      err := Truncate(ino);
      if err != Fine {
        return;
      }
      ghost var was := vol;
      err := Sync(ino);
      if err != Fine {
        return;
      }
      forall fb | 0 <= fb < MAX_BLOCKS
        ensures Entry(vol, ino, fb) == 0
      {
        assert Entry(was, ino, fb) == 0;
      }
      FreeInodeKeeps(vol, ino);
      InodeIsMarked(vol, ino);
      ghost var last := vol;
      BFree(ino);
      vol := vol.(files := vol.files - {ino});
      CleanStays(last, vol, dirty, dirty, ino);
    }

    /** sfs_sync_inode: a dirty inode goes to its block. */
    method Sync(ino: int) returns (err: Err)
      requires Valid() && Settled(vol) && ino in vol.files
      modifies this
      ensures Valid() && Settled(vol) && Charged(err) && (err == Fine || err == EIO)
      ensures SameFiles(old(vol), vol) && vol.files == old(vol).files
      ensures forall i :: i in vol.files ==> Contents(vol, i) == Contents(old(vol), i)
      ensures dirty == if err == Fine then old(dirty) - {ino} else old(dirty)
      ensures ino !in old(dirty) ==> err == Fine && vol == old(vol)
    {
      ghost var was := vol;
      SameFilesRefl(vol);
      if ino !in dirty {
        return Fine;
      }
      StoreInodeOk(vol, ino);
      if Tidy(vol) {
        TidyOpen(vol);
      }
      err := WBlock(ino, InodeBlock(vol.files[ino]));
      SettledSame(was, vol);
      forall i | i in was.files
        ensures Contents(vol, i) == Contents(was, i)
      {
        SameContents(was, vol, i);
      }
      CleanStays(was, vol, dirty, dirty, ino);
      if err == Fine {
        Cleaned(vol, dirty, ino);
        dirty := dirty - {ino};
      }
    }

    /** A file reclaimed and loaded again: what sfs_loadvnode reads back from the block
        is the inode there was. */
    method Reload(ino: int) returns (err: Err)
      requires Valid() && Settled(vol) && ino in vol.files
      modifies this
      ensures Valid() && Settled(vol) && Charged(err) && (err == Fine || err == EIO)
      ensures SameFiles(old(vol), vol) && vol.files == old(vol).files
      ensures forall i :: i in vol.files ==> Contents(vol, i) == Contents(old(vol), i)
      ensures err == Fine ==> dirty == old(dirty) - {ino}
    {
      err := Sync(ino);
      if err != Fine {
        return;
      }
      var data;
      err, data := RBlock(ino);
      if err != Fine {
        return;
      }
      var inode := if data.InodeBlock? then data.inode else Inode(0, Zeros(NDIRECT), 0);
      CleanOpen(vol, dirty, ino);
      assert inode == vol.files[ino];
      assert vol.files[ino := inode] == vol.files;
      vol := vol.(files := vol.files[ino := inode]);
    }
  }

  lemma Cleaned(v: Vol, dirty: set<int>, ino: int)
    requires Clean(v, dirty) && ino in v.files && At(v, ino) == InodeBlock(v.files[ino])
    ensures Clean(v, dirty - {ino})
  {
    assert Spelled(0);
  }

  /** Blocks no longer marked, and without a role. */
  function Unmark(v: Vol, s: set<int>): Vol
  {
    v.(marked := v.marked - s, roles := v.roles - s)
  }

  lemma UnmarkNothing(v: Vol)
    ensures Unmark(v, {}) == v
  {
    assert v.marked - {} == v.marked && v.roles - {} == v.roles;
  }

  lemma UnmarkMore(v: Vol, s: set<int>, t: set<int>)
    ensures Unmark(Unmark(v, s), t) == Unmark(v, s + t)
  {
    assert v.marked - s - t == v.marked - (s + t);
    assert v.roles - s - t == v.roles - (s + t);
  }

  lemma NonZeroNext(ptrs: seq<int>, j: nat)
    requires j < |ptrs|
    ensures NonZero(ptrs, j + 1) == NonZero(ptrs, j) + if ptrs[j] != 0 then {ptrs[j]} else {}
  {
  }

  function Min(a: int, b: int): int
  {
    if a < b then a else b
  }
}
