/** File contents of a volume as flat sequences of bytes. */
module SfsBytes {
  import opened SfsVolume
  import opened Words

  /** n bytes of a file from off on, whatever its size. */
  function Bytes(v: Vol, ino: int, off: int, n: nat): (r: seq<int>)
    ensures |r| == n && forall i :: 0 <= i < n ==> r[i] == Byte(v, ino, off + i)
  {
    seq(n, i requires 0 <= i < n => Byte(v, ino, off + i))
  }

  function SizeOf(v: Vol, ino: int): (n: nat)
  {
    if File(v, ino).size > 0 then File(v, ino).size else 0
  }

  /** The file as its users see it. */
  function Contents(v: Vol, ino: int): seq<int>
  {
    Bytes(v, ino, 0, SizeOf(v, ino))
  }

  function Max(a: int, b: int): int
  {
    if a > b then a else b
  }

  /** Writing to a flat file: the data lands at off, a gap before it reads as zeros. */
  function FlatWrite(c: seq<int>, off: nat, d: seq<int>): (r: seq<int>)
    ensures |r| == Max(|c|, off + |d|)
  {
    seq(Max(|c|, off + |d|), i requires 0 <= i => if off <= i < off + |d| then d[i - off] else if i < |c| then c[i] else 0)
  }

  /** Bytes mapped beyond the end of a file are zero. */
  ghost predicate TailOk(v: Vol)
  {
    forall ino, i :: ino in v.files && i >= SizeOf(v, ino) ==> Byte(v, ino, i) == 0
  }

  /** The other files and all sizes stay, and in file ino the data lands at off. */
  ghost predicate Overlaid(v: Vol, w: Vol, ino: int, off: int, d: seq<int>)
  {
    && (forall i :: i in w.files <==> i in v.files)
    && (forall i :: i in v.files ==> File(w, i).size == File(v, i).size)
    && (forall i, a :: i in v.files && i != ino ==> Byte(w, i, a) == Byte(v, i, a))
    && (forall a :: Byte(w, ino, a) == if off <= a < off + |d| then d[a - off] else Byte(v, ino, a))
  }

  lemma OverlaidNothing(v: Vol, w: Vol, ino: int, off: int)
    requires SameFiles(v, w) && ino in v.files
    ensures Overlaid(v, w, ino, off, [])
  {
    forall i, a | i in v.files
      ensures Byte(w, i, a) == Byte(v, i, a)
    {
      SameBytes(v, w, i, a);
    }
  }

  lemma OverlaidTwice(u: Vol, v: Vol, w: Vol, ino: int, off: int, d: seq<int>, e: seq<int>)
    requires ino in u.files && Overlaid(u, v, ino, off, d) && Overlaid(v, w, ino, off + |d|, e)
    ensures Overlaid(u, w, ino, off, d + e)
  {
    forall i, a | i in u.files && i != ino
      ensures Byte(w, i, a) == Byte(u, i, a)
    {
      assert Byte(v, i, a) == Byte(u, i, a);
    }
    forall a
      ensures Byte(w, ino, a) == if off <= a < off + |d + e| then (d + e)[a - off] else Byte(u, ino, a)
    {
      assert Byte(v, ino, a) == if off <= a < off + |d| then d[a - off] else Byte(u, ino, a);
    }
  }

  lemma OverlaidAfterSame(u: Vol, v: Vol, w: Vol, ino: int, off: int, d: seq<int>)
    requires ino in u.files && SameFiles(u, v) && Overlaid(v, w, ino, off, d)
    ensures Overlaid(u, w, ino, off, d)
  {
    forall i, a | i in u.files
      ensures Byte(v, i, a) == Byte(u, i, a)
    {
      SameBytes(u, v, i, a);
    }
  }

  /** One block of the file replaced, from skip on, by the data. */
  function Patched(old': seq<int>, skip: nat, d: seq<int>): (r: seq<int>)
    requires skip + |d| <= |old'|
    ensures |r| == |old'|
  {
    old'[..skip] + d + old'[skip + |d|..]
  }

  /** Storing a patched block is writing its bytes. */
  lemma StoreOverlays(v: Vol, w: Vol, ino: int, fb: int, skip: nat, d: seq<int>)
    requires Ok(v) && ino in v.files && 0 <= fb < MAX_BLOCKS && Entry(v, ino, fb) != 0 && skip + |d| <= BLOCK_SIZE
    requires |BlockBytes(v, ino, fb)| == BLOCK_SIZE
    requires w == Store(v, Entry(v, ino, fb), Data(Patched(BlockBytes(v, ino, fb), skip, d)))
    ensures Overlaid(v, w, ino, fb * BLOCK_SIZE + skip, d) && Ok(w) && (Exact(v) ==> Exact(w))
  {
    var bytes := Patched(BlockBytes(v, ino, fb), skip, d);
    StoreOk(v, ino, fb, bytes);
    forall i, a | i in v.files
      ensures Byte(w, i, a) == if i == ino && fb * BLOCK_SIZE + skip <= a < fb * BLOCK_SIZE + skip + |d| then d[a - (fb * BLOCK_SIZE + skip)] else Byte(v, i, a)
    {
      PatchedByte(v, w, ino, fb, skip, d, i, a);
    }
  }

  lemma PatchedByte(v: Vol, w: Vol, ino: int, fb: int, skip: nat, d: seq<int>, i: int, a: int)
    requires i in v.files && w.files == v.files && 0 <= fb < MAX_BLOCKS && skip + |d| <= BLOCK_SIZE && |BlockBytes(v, ino, fb)| == BLOCK_SIZE
    requires BlockBytes(w, ino, fb) == Patched(BlockBytes(v, ino, fb), skip, d)
    requires forall j, k :: j in v.files && 0 <= k < MAX_BLOCKS && !(j == ino && k == fb) ==> BlockBytes(w, j, k) == BlockBytes(v, j, k)
    ensures Byte(w, i, a) == if i == ino && fb * BLOCK_SIZE + skip <= a < fb * BLOCK_SIZE + skip + |d| then d[a - (fb * BLOCK_SIZE + skip)] else Byte(v, i, a)
  {
    var k := a / BLOCK_SIZE;
    if 0 <= k < MAX_BLOCKS {
      assert !(i == ino && k == fb) ==> BlockBytes(w, i, k) == BlockBytes(v, i, k);
    } else {
      assert Entry(w, i, k) == 0 && Entry(v, i, k) == 0;
    }
  }

  lemma BlockBytesSize(v: Vol, ino: int, fb: int)
    requires Ok(v) && ino in v.files && 0 <= fb < MAX_BLOCKS
    ensures |BlockBytes(v, ino, fb)| == BLOCK_SIZE
    ensures forall i :: 0 <= i < BLOCK_SIZE ==> BlockBytes(v, ino, fb)[i] == Byte(v, ino, fb * BLOCK_SIZE + i)
  {
    EntryHasRole(v, ino, fb);
  }

  // ----- From overlays to flat files -----

  /** Once the size covers the data, the file is what a flat write makes of it. */
  lemma OverlaidContents(v: Vol, w: Vol, ino: int, off: nat, d: seq<int>, m: nat, x: Vol)
    requires ino in v.files && TailOk(v) && Overlaid(v, w, ino, off, d) && SizeOf(v, ino) == File(v, ino).size && |d| <= m
    requires x == (if off + m > File(w, ino).size then SetSize(w, ino, off + m) else w)
    ensures TailOk(x) && Contents(x, ino) == FlatWrite(FlatWrite(Contents(v, ino), off, d), off + m, [])
    ensures forall i :: i in v.files && i != ino ==> i in x.files && Contents(x, i) == Contents(v, i)
    ensures forall i :: i in x.files <==> i in v.files
    ensures forall i :: i in v.files ==> File(x, i).size == if i == ino then Max(File(v, ino).size, off + m) else File(v, i).size
  {
    SizeKeepsBytes(w, x, ino, off + m);
    forall i, a | i in x.files && a >= SizeOf(x, i)
      ensures Byte(x, i, a) == 0
    {
      assert Byte(x, i, a) == Byte(w, i, a);
      assert Byte(v, i, a) == 0;
    }
    OverlaidFlat(v, x, ino, off, d, m);
    forall i | i in v.files && i != ino
      ensures Contents(x, i) == Contents(v, i)
    {
      assert forall a :: Byte(x, i, a) == Byte(w, i, a) == Byte(v, i, a);
    }
  }

  lemma OverlaidFlat(v: Vol, x: Vol, ino: int, off: nat, d: seq<int>, m: nat)
    requires ino in v.files && TailOk(v) && |d| <= m && SizeOf(x, ino) == Max(SizeOf(v, ino), off + m)
    requires forall a :: Byte(x, ino, a) == if off <= a < off + |d| then d[a - off] else Byte(v, ino, a)
    ensures Contents(x, ino) == FlatWrite(FlatWrite(Contents(v, ino), off, d), off + m, [])
  {
    var c, f := Contents(x, ino), FlatWrite(Contents(v, ino), off, d);
    var n := FlatWrite(f, off + m, []);
    forall a | 0 <= a < |c|
      ensures c[a] == n[a]
    {
      assert c[a] == Byte(x, ino, a);
      assert n[a] == if a < |f| then f[a] else 0;
      assert a < SizeOf(v, ino) ==> Contents(v, ino)[a] == Byte(v, ino, a);
      assert a >= SizeOf(v, ino) ==> Byte(v, ino, a) == 0;
    }
  }

  /** Writing nothing at the end of what was written changes nothing. */
  lemma NoGap(c: seq<int>, off: nat, d: seq<int>)
    ensures FlatWrite(FlatWrite(c, off, d), off + |d|, []) == FlatWrite(c, off, d)
  {
  }

  lemma SizeKeepsBytes(w: Vol, x: Vol, ino: int, n: int)
    requires ino in w.files && (x == w || x == SetSize(w, ino, n))
    ensures forall i, a :: Byte(x, i, a) == Byte(w, i, a)
  {
    forall i, a
      ensures Byte(x, i, a) == Byte(w, i, a)
    {
      assert Entry(x, i, a / BLOCK_SIZE) == Entry(w, i, a / BLOCK_SIZE);
    }
  }

  lemma SameContents(v: Vol, w: Vol, ino: int)
    requires SameFiles(v, w) && ino in v.files
    ensures Contents(w, ino) == Contents(v, ino) && SizeOf(w, ino) == SizeOf(v, ino)
  {
    forall a | 0 <= a < SizeOf(v, ino)
      ensures Byte(w, ino, a) == Byte(v, ino, a)
    {
      SameBytes(v, w, ino, a);
    }
  }

  lemma SameTail(v: Vol, w: Vol)
    requires SameFiles(v, w) && TailOk(v)
    ensures TailOk(w)
  {
    forall ino, i | ino in w.files && i >= SizeOf(w, ino)
      ensures Byte(w, ino, i) == 0
    {
      SameBytes(v, w, ino, i);
      assert Byte(v, ino, i) == 0;
    }
  }
}
