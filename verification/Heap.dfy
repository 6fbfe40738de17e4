/** The lab1 heap: allocation under three policies, freeing with coalescing,
    compaction, and translation of pointers from before a compaction. */
module Heap {
  import opened HeapBlocks
  import opened Words

  /** The bytes of block b in the memory of a heap at `base`. */
  function Bytes(mem: seq<int>, base: int, b: Block): seq<int>
    requires base <= b.start <= b.End() <= base + |mem|
  {
    mem[b.start - base..b.End() - base]
  }

  /** Blocks that lie in the heap. */
  ghost predicate Inside(bs: seq<Block>, base: int, size: int)
  {
    forall i :: 0 <= i < |bs| ==> base <= bs[i].start <= bs[i].End() <= base + size
  }

  /** Each of the blocks bs holds in mem what the block at its place in cs held in old. */
  ghost predicate SameBytes(mem: seq<int>, bs: seq<Block>, was: seq<int>, cs: seq<Block>, base: int)
    requires |mem| == |was| && |bs| == |cs| && Inside(bs, base, |mem|) && Inside(cs, base, |mem|)
  {
    forall i :: 0 <= i < |bs| ==> Bytes(mem, base, bs[i]) == Bytes(was, base, cs[i])
  }

  /** memmove of n bytes within the heap: as if through a copy. */
  function Memmove(mem: seq<int>, dst: nat, src: nat, n: nat): (r: seq<int>)
    requires dst + n <= |mem| && src + n <= |mem|
    ensures |r| == |mem|
  {
    mem[..dst] + mem[src..src + n] + mem[dst + n..]
  }

  lemma MemmoveBytes(mem: seq<int>, base: int, b: Block, dst: int, x: Block)
    requires base <= b.start <= b.End() <= base + |mem| && base <= dst <= b.start && base <= x.start <= x.End() <= base + |mem|
    requires x.End() <= dst || dst + b.size <= x.start
    ensures var r := Memmove(mem, dst - base, b.start - base, b.size);
            Bytes(r, base, x) == Bytes(mem, base, x) && Bytes(r, base, Block(dst, b.size)) == Bytes(mem, base, b)
  {
  }

  lemma MemmoveMoved(mem: seq<int>, base: int, b: Block, dst: int)
    requires base <= b.start <= b.End() <= base + |mem| && base <= dst <= b.start
    ensures var r := Memmove(mem, dst - base, b.start - base, b.size);
            Bytes(r, base, Block(dst, b.size)) == Bytes(mem, base, b)
  {
  }

  /** The compaction after its first i blocks. */
  function PackedTo(used: seq<Block>, base: int, i: nat): (r: seq<Block>)
    requires i <= |used|
    ensures |r| == |used| && forall j :: 0 <= j < |used| ==> r[j] == if j < i then Packed(used, base)[j] else used[j]
  {
    Packed(used, base)[..i] + used[i..]
  }

  /** Packed blocks never pass the blocks they come from. */
  lemma {:induction false} PackedBelow(used: seq<Block>, lo: int, hi: int, i: nat)
    requires Ordered(used, lo, hi) && i <= |used| && lo <= hi
    ensures lo + Sum(used[..i]) <= if i < |used| then used[i].start else hi
  {
    if i > 0 {
      PackedBelow(used, lo, hi, i - 1);
      SumPrefix(used, i - 1);
      if i < |used| {
        assert used[i - 1].End() <= used[i].start;
      }
    }
  }

  lemma PackedEnd(used: seq<Block>, base: int, j: nat, i: nat)
    requires (forall k :: 0 <= k < |used| ==> used[k].size > 0) && j < i <= |used|
    ensures base <= Packed(used, base)[j].start && Packed(used, base)[j].End() <= base + Sum(used[..i])
  {
    SumMonotone(used, 0, j);
    SumPrefix(used, j);
    SumMonotone(used, j + 1, i);
  }

  /** Block i of cur can move down to dst without running into the others. */
  ghost predicate Room(cur: seq<Block>, i: nat, dst: int)
    requires i < |cur|
  {
    dst <= cur[i].start && forall j :: 0 <= j < |cur| && j != i ==> cur[j].End() <= dst || dst + cur[i].size <= cur[j].start
  }

  lemma PackOneAt(mem: seq<int>, cur: seq<Block>, base: int, i: nat, dst: int, j: nat)
    requires i < |cur| && Inside(cur, base, |mem|) && base <= dst && Room(cur, i, dst) && j < |cur|
    ensures var cur' := cur[i := Block(dst, cur[i].size)];
            && base <= cur'[j].start <= cur'[j].End() <= base + |mem|
            && Bytes(Memmove(mem, dst - base, cur[i].start - base, cur[i].size), base, cur'[j]) == Bytes(mem, base, cur[j])
  {
    if j == i {
      MemmoveMoved(mem, base, cur[i], dst);
    } else {
      MemmoveBytes(mem, base, cur[i], dst, cur[j]);
    }
  }

  /** Moving a block down into room of its own keeps every block's bytes, even when
      the old and the new place overlap. */
  lemma PackOne(mem: seq<int>, was: seq<int>, used: seq<Block>, cur: seq<Block>, base: int, i: nat, dst: int)
    requires |mem| == |was| && |cur| == |used| && i < |cur| && Inside(cur, base, |mem|) && Inside(used, base, |mem|)
    requires SameBytes(mem, cur, was, used, base) && base <= dst && Room(cur, i, dst)
    ensures var cur' := cur[i := Block(dst, cur[i].size)];
            && Inside(cur', base, |mem|)
            && SameBytes(Memmove(mem, dst - base, cur[i].start - base, cur[i].size), cur', was, used, base)
  {
    forall j | 0 <= j < |used|
      ensures var b := cur[i := Block(dst, cur[i].size)][j];
              && base <= b.start <= b.End() <= base + |mem|
              && Bytes(Memmove(mem, dst - base, cur[i].start - base, cur[i].size), base, b) == Bytes(was, base, used[j])
    {
      PackOneAt(mem, cur, base, i, dst, j);
      assert Bytes(mem, base, cur[j]) == Bytes(was, base, used[j]);
    }
  }

  /** The room block i moves into. */
  lemma PackRoom(used: seq<Block>, base: int, size: int, i: nat)
    requires Ordered(used, base, base + size) && size >= 0 && i < |used|
    ensures var cur, dst := PackedTo(used, base, i), base + Sum(used[..i]);
            && base <= dst && cur[i] == used[i] && Room(cur, i, dst)
            && cur[i := Block(dst, cur[i].size)] == PackedTo(used, base, i + 1)
            && cur[i].size > 0 && cur[i].End() <= base + size
  {
    var cur, dst := PackedTo(used, base, i), base + Sum(used[..i]);
    PackedBelow(used, base, base + size, i);
    SumMonotone(used, 0, i);
    forall j | 0 <= j < |cur| && j != i
      ensures cur[j].End() <= dst || dst + cur[i].size <= cur[j].start
    {
      if j < i {
        PackedEnd(used, base, j, i);
      } else {
        assert used[i].End() <= used[j].start;
      }
    }
  }

  /** The compaction after its first i blocks: where the blocks are, and that each
      still holds its bytes. */
  ghost predicate PackedSoFar(mem: seq<int>, cur: seq<Block>, was: seq<int>, used: seq<Block>, base: int, size: int, i: nat)
  {
    && |mem| == |was| == size && i <= |used|
    && forall k: int {:trigger Spelled(k)} :: k == 0 ==>
         && cur == PackedTo(used, base, i)
         && Inside(cur, base, size) && Inside(used, base, size) && SameBytes(mem, cur, was, used, base)
  }

  lemma PackStart(mem: seq<int>, free: seq<Block>, used: seq<Block>, base: int, size: int)
    requires Tiled(base, size, free, used) && |mem| == size
    ensures PackedSoFar(mem, used, mem, used, base, size, 0)
  {
    TiledOpen(base, size, free, used);
    assert PackedTo(used, base, 0) == used;
    assert Inside(used, base, size);
    assert SameBytes(mem, used, mem, used, base);
  }

  /** One turn of the loop, whether the block has to move or not. */
  lemma PackStep(mem: seq<int>, cur: seq<Block>, was: seq<int>, free: seq<Block>, used: seq<Block>, base: int, size: int, i: nat, prev: int)
    requires Tiled(base, size, free, used) && i < |used| && size > 0
    requires PackedSoFar(mem, cur, was, used, base, size, i) && prev == base + Sum(used[..i])
    ensures |cur| == |used| && cur[i] == used[i] && base <= prev <= cur[i].start && cur[i].End() <= base + size && cur[i].size > 0
    ensures PackedSoFar(Memmove(mem, prev - base, cur[i].start - base, cur[i].size), cur[i := Block(prev, cur[i].size)],
                        was, used, base, size, i + 1)
    ensures prev + cur[i].size == base + Sum(used[..i + 1])
  {
    SoFarIs(mem, cur, was, used, base, size, i);
    RoomNow(base, size, free, used, i);
    SumPrefix(used, i);
    PackMoves(mem, cur, was, used, base, size, i, prev);
  }

  lemma SoFarIs(mem: seq<int>, cur: seq<Block>, was: seq<int>, used: seq<Block>, base: int, size: int, i: nat)
    requires PackedSoFar(mem, cur, was, used, base, size, i)
    ensures cur == PackedTo(used, base, i)
  {
    SoFarOpen(mem, cur, was, used, base, size, i);
  }

  lemma PackMoves(mem: seq<int>, cur: seq<Block>, was: seq<int>, used: seq<Block>, base: int, size: int, i: nat, prev: int)
    requires PackedSoFar(mem, cur, was, used, base, size, i) && |cur| == |used| && i < |used|
    requires base <= prev && Room(cur, i, prev) && cur[i].size > 0 && cur[i].End() <= base + size
    requires cur[i := Block(prev, cur[i].size)] == PackedTo(used, base, i + 1)
    ensures PackedSoFar(Memmove(mem, prev - base, cur[i].start - base, cur[i].size), cur[i := Block(prev, cur[i].size)],
                        was, used, base, size, i + 1)
  {
    SoFarOpen(mem, cur, was, used, base, size, i);
    PackOne(mem, was, used, cur, base, i, prev);
    SoFarClose(Memmove(mem, prev - base, cur[i].start - base, cur[i].size), cur[i := Block(prev, cur[i].size)], was, used, base, size, i + 1);
  }

  lemma RoomNow(base: int, size: int, free: seq<Block>, used: seq<Block>, i: nat)
    requires Tiled(base, size, free, used) && i < |used| && size > 0
    ensures var cur, dst := PackedTo(used, base, i), base + Sum(used[..i]);
            && base <= dst && cur[i] == used[i] && Room(cur, i, dst)
            && cur[i := Block(dst, cur[i].size)] == PackedTo(used, base, i + 1)
            && cur[i].size > 0 && cur[i].End() <= base + size
  {
    TiledOpen(base, size, free, used);
    PackRoom(used, base, size, i);
  }

  lemma SoFarOpen(mem: seq<int>, cur: seq<Block>, was: seq<int>, used: seq<Block>, base: int, size: int, i: nat)
    requires PackedSoFar(mem, cur, was, used, base, size, i)
    ensures cur == PackedTo(used, base, i) && Inside(cur, base, size) && Inside(used, base, size) && SameBytes(mem, cur, was, used, base)
  {
    assert Spelled(0);
  }

  lemma SoFarClose(mem: seq<int>, cur: seq<Block>, was: seq<int>, used: seq<Block>, base: int, size: int, i: nat)
    requires |mem| == |was| == size && i <= |used| && cur == PackedTo(used, base, i)
    requires Inside(cur, base, size) && Inside(used, base, size) && SameBytes(mem, cur, was, used, base)
    ensures PackedSoFar(mem, cur, was, used, base, size, i)
  {
  }

  lemma PackEnd(mem: seq<int>, cur: seq<Block>, was: seq<int>, used: seq<Block>, base: int, size: int)
    requires PackedSoFar(mem, cur, was, used, base, size, |used|)
    ensures cur == Packed(used, base) && Inside(cur, base, size) && Inside(used, base, size) && SameBytes(mem, cur, was, used, base)
  {
    assert Spelled(0);
    assert PackedTo(used, base, |used|) == Packed(used, base);
  }

  // ----- What compacting, allocating and freeing leave behind -----

  /** The used blocks were packed at the start with their bytes, and the rest is one
      free block; with nothing used nothing changed. */
  ghost predicate DefragResult(base: int, mem: seq<int>, free: seq<Block>, used: seq<Block>, mem': seq<int>, free': seq<Block>, used': seq<Block>)
  {
    if used == [] then mem' == mem && free' == free && used' == used
    else
      && used' == Packed(used, base)
      && free' == (if free == [] then [] else [Block(base + |mem| - Sum(free), Sum(free))])
      && |mem'| == |mem| && Inside(used', base, |mem|) && Inside(used, base, |mem|) && SameBytes(mem', used', mem, used, base)
  }

  lemma DefragDone(base: int, size: int, free: seq<Block>, used: seq<Block>, was: seq<int>, mem: seq<int>, cur: seq<Block>)
    requires Tiled(base, size, free, used) && size > 0 && used != [] && PackedSoFar(mem, cur, was, used, base, size, |used|)
    ensures var free' := if free == [] then [] else [Block(base + size - Sum(free), Sum(free))];
            DefragResult(base, was, free, used, mem, free', cur) && Tiled(base, size, free', cur) && Sum(free') == Sum(free)
  {
    PackEnd(mem, cur, was, used, base, size);
    DefragTiles(base, size, free, used, Sum(free));
    SumOne(Block(base + size - Sum(free), Sum(free)));
  }

  /** n bytes were cut from the front of the block the policy chooses. */
  ghost predicate AllocResult(free: seq<Block>, used: seq<Block>, policy: Policy, n: int, p: int, free': seq<Block>, used': seq<Block>)
  {
    exists k, i :: && Chosen(free, n, policy, k) && p == free[k].start && free' == CutFree(free, k, n)
                   && IsPosition(used, p, i) && used' == Insert(used, i, Block(p, n))
  }

  lemma AllocDone(base: int, size: int, free: seq<Block>, used: seq<Block>, policy: Policy, n: int, k: int, i: int)
    requires Tiled(base, size, free, used) && base > 0 && 0 < n && n % 8 == 0
    requires Chosen(free, n, policy, k) && IsPosition(used, free[k].start, i)
    ensures var p, free', used' := free[k].start, CutFree(free, k, n), Insert(used, i, Block(free[k].start, n));
            && Tiled(base, size, free', used') && Sum(free') == Sum(free) - n
            && AllocResult(free, used, policy, n, p, free', used')
            && p > 0 && (p - base) % 8 == 0 && Block(p, n) in used'
  {
    AllocTiles(base, size, free, used, k, n, i);
    TiledOpen(base, size, free, used);
    CutKeeps(free, k, n, base, base + size);
    assert Insert(used, i, Block(free[k].start, n))[i] == Block(free[k].start, n);
  }

  lemma NoRoom(base: int, size: int, free: seq<Block>, used: seq<Block>, n: int)
    requires Tiled(base, size, free, used) && (Sum(free) < n || free == [])
    ensures !Fits(free, n)
  {
    TiledOpen(base, size, free, used);
    forall i | 0 <= i < |free|
      ensures free[i].size < n
    {
      SumBounds(free, i);
    }
  }

  ghost predicate AllBelow(free: seq<Block>, limit: int)
  {
    forall i :: 0 <= i < |free| ==> free[i].size < limit
  }

  lemma SizesBelow(base: int, size: int, free: seq<Block>, used: seq<Block>, limit: int)
    requires Tiled(base, size, free, used) && size < limit
    ensures AllBelow(free, limit)
  {
    TiledOpen(base, size, free, used);
  }

  /** The used block starting at p went to the free list, joined to its neighbours;
      if there is no such block nothing changed. */
  ghost predicate FreeResult(free: seq<Block>, used: seq<Block>, p: int, free': seq<Block>, used': seq<Block>)
  {
    if exists u :: 0 <= u < |used| && used[u].start == p then
      exists u, i :: && 0 <= u < |used| && used[u].start == p && IsPosition(free, p, i)
                     && free' == Joined(free, i, used[u]) && used' == Remove(used, u)
    else free' == free && used' == used
  }

  lemma FreeDone(base: int, size: int, free: seq<Block>, used: seq<Block>, u: int, i: int)
    requires Tiled(base, size, free, used) && 0 <= u < |used| && IsPosition(free, used[u].start, i)
    ensures var free', used' := Joined(free, i, used[u]), Remove(used, u);
            && Tiled(base, size, free', used') && Sum(free') == Sum(free) + used[u].size
            && FreeResult(free, used, used[u].start, free', used')
  {
    FreeTiles(base, size, free, used, u, i);
    JoinedSum(free, i, used[u]);
  }

  lemma MemmoveInPlace(mem: seq<int>, dst: nat, n: nat)
    requires dst + n <= |mem|
    ensures Memmove(mem, dst, dst, n) == mem
  {
  }

  // ----- The search loops of heapAlloc: the chosen block's place, or -1 -----

  method FirstFitSearch(free: seq<Block>, n: int) returns (k: int)
    ensures k == -1 <==> !Fits(free, n)
    ensures k != -1 ==> Chosen(free, n, FirstFit, k)
  {
    var i := 0;
    while i < |free|
      invariant 0 <= i <= |free| && forall j :: 0 <= j < i ==> free[j].size < n
    {
      if free[i].size >= n {
        return i;
      }
      i := i + 1;
    }
    k := -1;
  }

  method BestFitSearch(free: seq<Block>, n: int) returns (k: int)
    requires AllBelow(free, SIZE_MAX)
    ensures k == -1 <==> !Fits(free, n)
    ensures k != -1 ==> Chosen(free, n, BestFit, k)
  {
    k := -1;
    var i, selectedSize := 0, SIZE_MAX;
    while i < |free|
      invariant 0 <= i <= |free| && -1 <= k < i
      invariant k == -1 ==> selectedSize == SIZE_MAX && forall j :: 0 <= j < i ==> free[j].size < n
      invariant k >= 0 ==> free[k].size == selectedSize >= n
      invariant forall j :: 0 <= j < i && free[j].size >= n ==> selectedSize <= free[j].size
      invariant forall j :: 0 <= j < k && free[j].size >= n ==> selectedSize < free[j].size
    {
      if free[i].size >= n && free[i].size < selectedSize {
        k, selectedSize := i, free[i].size;
      }
      i := i + 1;
    }
  }

  method WorstFitSearch(free: seq<Block>, n: int) returns (k: int)
    requires 0 < n
    ensures k == -1 <==> !Fits(free, n)
    ensures k != -1 ==> Chosen(free, n, WorstFit, k)
  {
    k := -1;
    var i, selectedSize := 0, 0;
    while i < |free|
      invariant 0 <= i <= |free| && -1 <= k < i
      invariant k == -1 ==> selectedSize == 0 && forall j :: 0 <= j < i ==> free[j].size < n
      invariant k >= 0 ==> free[k].size == selectedSize >= n
      invariant forall j :: 0 <= j < i && free[j].size >= n ==> selectedSize >= free[j].size
      invariant forall j :: 0 <= j < k && free[j].size >= n ==> selectedSize > free[j].size
    {
      if free[i].size >= n && free[i].size > selectedSize {
        k, selectedSize := i, free[i].size;
      }
      i := i + 1;
    }
  }

  method Select(free: seq<Block>, policy: Policy, n: int) returns (k: int)
    requires 0 < n && AllBelow(free, SIZE_MAX)
    ensures k == -1 <==> !Fits(free, n)
    ensures k != -1 ==> Chosen(free, n, policy, k)
  {
    match policy
    case FirstFit => k := FirstFitSearch(free, n);
    case BestFit => k := BestFitSearch(free, n);
    case WorstFit => k := WorstFitSearch(free, n);
  }

  /** Where `at` goes in an address-ordered list. */
  method Position(bs: seq<Block>, at: int) returns (p: int)
    ensures IsPosition(bs, at, p)
  {
    p := 0;
    while p < |bs| && bs[p].start < at
      invariant 0 <= p <= |bs| && forall i :: 0 <= i < p ==> bs[i].start < at
    {
      p := p + 1;
    }
  }

  class LabHeap {
    var start: int
    var size: int
    var freeSize: int
    var freeBlks: seq<Block>
    var usedBlks: seq<Block>
    var dfrgBlks: seq<Block>
    var policy: Policy
    var mem: seq<int>

    ghost predicate Valid()
      reads this
    {
      && 0 < start && 0 < size < SIZE_MAX && |mem| == size
      && Tiled(start, size, freeBlks, usedBlks) && freeSize == Sum(freeBlks)
    }

    /** heapCreate, once its mallocs have succeeded and given `where`. */
    constructor (where: int, heapSize: int, contents: seq<int>)
      requires where > 0 && 0 < heapSize < SIZE_MAX && |contents| == heapSize
      ensures Valid() && freeBlks == [Block(where, heapSize)] && usedBlks == dfrgBlks == [] && policy == FirstFit
      ensures start == where && size == heapSize && mem == contents
    {
      start, size, freeSize := where, heapSize, heapSize;
      freeBlks, usedBlks, dfrgBlks := [Block(where, heapSize)], [], [];
      policy, mem := FirstFit, contents;
      new;
      SumOne(Block(where, heapSize));
      assert TiledParts(start, size, freeBlks, usedBlks);
    }

    method HeapSetPolicy(p: Policy)
      requires Valid()
      modifies this`policy
      ensures Valid() && policy == p
    {
      policy := p;
    }

    /** Succeeds exactly when some free block fits the aligned request, and takes it
        from the front of the one the policy chooses. */
    method HeapAlloc(n: int) returns (p: int)
      requires Valid() && 0 <= n <= SIZE_MAX - 7
      modifies this`freeBlks, this`usedBlks, this`freeSize
      ensures Valid()
      ensures p != 0 <==> n > 0 && Fits(old(freeBlks), Align(n))
      ensures p == 0 ==> freeBlks == old(freeBlks) && usedBlks == old(usedBlks) && freeSize == old(freeSize)
      ensures p != 0 ==> AllocResult(old(freeBlks), old(usedBlks), policy, Align(n), p, freeBlks, usedBlks)
      ensures p != 0 ==> (p - start) % 8 == 0 && Block(p, Align(n)) in usedBlks && freeSize == old(freeSize) - Align(n)
    {
      if n == 0 {
        return 0;
      }
      AlignIsExact(n);
      var a := Align(n);
      if freeSize < a || freeBlks == [] {
        NoRoom(start, size, freeBlks, usedBlks, a);
        return 0;
      }
      SizesBelow(start, size, freeBlks, usedBlks, SIZE_MAX);
      var k := Select(freeBlks, policy, a);
      if k == -1 {
        return 0;
      }
      p := freeBlks[k].start;
      var i := Position(usedBlks, p);
      AllocDone(start, size, freeBlks, usedBlks, policy, a, k, i);
      freeBlks, usedBlks, freeSize := CutFree(freeBlks, k, a), Insert(usedBlks, i, Block(p, a)), freeSize - a;
    }

    /** Frees the used block that starts at p, joining it to the free blocks it touches;
        does nothing for any other p. */
    method HeapFree(p: int)
      requires Valid()
      modifies this`freeBlks, this`usedBlks, this`freeSize
      ensures Valid()
      ensures FreeResult(old(freeBlks), old(usedBlks), p, freeBlks, usedBlks)
    {
      if p == 0 {
        NullIsNoBlock(start, size, freeBlks, usedBlks);
        return;
      }
      var u := 0;
      while u < |usedBlks| && usedBlks[u].start != p
        invariant 0 <= u <= |usedBlks| && forall i :: 0 <= i < u ==> usedBlks[i].start != p
      {
        u := u + 1;
      }
      if u == |usedBlks| {
        return;
      }
      var b := usedBlks[u];
      var i := Position(freeBlks, p);
      FreeDone(start, size, freeBlks, usedBlks, u, i);
      freeBlks, usedBlks, freeSize := Joined(freeBlks, i, b), Remove(usedBlks, u), freeSize + b.size;
    }

    /** The moving loop of heapDefrag. */
    method PackBlocks()
      requires Valid()
      modifies this`usedBlks, this`mem
      ensures PackedSoFar(mem, usedBlks, old(mem), old(usedBlks), start, size, |old(usedBlks)|)
    {
      ghost var was, used := mem, usedBlks;
      var i, prev := 0, start;
      PackStart(mem, freeBlks, used, start, size);
      while i < |usedBlks|
        invariant 0 <= i <= |used| == |usedBlks| && prev == start + Sum(used[..i])
        invariant PackedSoFar(mem, usedBlks, was, used, start, size, i)
      {
        PackStep(mem, usedBlks, was, freeBlks, used, start, size, i, prev);
        var node := usedBlks[i];
        if prev != node.start {
          mem := Memmove(mem, prev - start, node.start - start, node.size);
        } else {
          MemmoveInPlace(mem, prev - start, node.size);
        }
        usedBlks := usedBlks[i := Block(prev, node.size)];
        prev := prev + node.size;
        i := i + 1;
      }
    }

    /** Packs the used blocks at the start of the heap, in order and with their bytes,
        and leaves one free block after them. */
    method HeapDefrag()
      requires Valid()
      modifies this`freeBlks, this`usedBlks, this`dfrgBlks, this`mem
      ensures Valid()
      ensures DefragResult(start, old(mem), old(freeBlks), old(usedBlks), mem, freeBlks, usedBlks)
      ensures dfrgBlks == if old(usedBlks) == [] then old(dfrgBlks) else old(usedBlks)
    {
      if usedBlks == [] {
        return;
      }
      dfrgBlks := usedBlks;
      ghost var was, used := mem, usedBlks;
      PackBlocks();
      DefragDone(start, size, freeBlks, used, was, mem, usedBlks);
      if freeBlks != [] {
        freeBlks := [Block(start + size - freeSize, freeSize)];
      }
    }

    /** The new place of the block that started at p before the last compaction. The
        caller has not freed anything since. */
    method HeapNewPointer(p: int) returns (q: int)
      requires Valid() && |dfrgBlks| <= |usedBlks|
      ensures q == NewPointer(dfrgBlks, usedBlks, p)
      ensures q == 0 <==> forall i :: 0 <= i < |dfrgBlks| ==> dfrgBlks[i].start != p
    {
      NullIsNoBlock(start, size, freeBlks, usedBlks);
      var i := 0;
      while i < |dfrgBlks|
        invariant 0 <= i <= |dfrgBlks|
        invariant forall k :: 0 <= k < i ==> dfrgBlks[k].start != p
        invariant NewPointer(dfrgBlks, usedBlks, p) == NewPointer(dfrgBlks[i..], usedBlks[i..], p)
      {
        if dfrgBlks[i].start == p {
          return usedBlks[i].start;
        }
        i := i + 1;
      }
      q := 0;
    }

    method HeapDefragClose()
      requires Valid()
      modifies this`dfrgBlks
      ensures Valid() && dfrgBlks == []
    {
      dfrgBlks := [];
    }
  }

  /** What heapNewPointer computes: the first match, or NULL. */
  function NewPointer(old': seq<Block>, now: seq<Block>, p: int): int
    requires |old'| <= |now|
  {
    if old' == [] then 0
    else if old'[0].start == p then now[0].start
    else NewPointer(old'[1..], now[1..], p)
  }

  lemma NullIsNoBlock(base: int, size: int, free: seq<Block>, used: seq<Block>)
    requires Tiled(base, size, free, used) && base > 0
    ensures forall u :: 0 <= u < |used| ==> used[u].start != 0
  {
    TiledOpen(base, size, free, used);
  }

  /** Right after a compaction the pointer of every block translates to its new place. */
  lemma {:induction false} NewPointerFinds(old': seq<Block>, now: seq<Block>, lo: int, hi: int, i: nat)
    requires Ordered(old', lo, hi) && |old'| <= |now| && i < |old'|
    ensures NewPointer(old', now, old'[i].start) == now[i].start
  {
    if i > 0 {
      assert old'[0].End() <= old'[i].start;
      var tail := old'[1..];
      assert forall j :: 0 <= j < |tail| ==> tail[j] == old'[j + 1];
      NewPointerFinds(tail, now[1..], lo, hi, i - 1);
    }
  }

  /** After a compaction heapNewPointer maps the old block starts one-to-one onto the
      new ones, where the same bytes are. */
  lemma PointersTranslate(base: int, used: seq<Block>, was: seq<int>, mem: seq<int>, i: nat, j: nat)
    requires |mem| == |was| && Ordered(used, base, base + |mem|) && i < |used| && j < |used|
    requires Inside(used, base, |mem|) && Inside(Packed(used, base), base, |mem|)
    requires SameBytes(mem, Packed(used, base), was, used, base)
    ensures var q := NewPointer(used, Packed(used, base), used[i].start);
            && q == Packed(used, base)[i].start == base + Sum(used[..i]) <= used[i].start
            && (i != j ==> q != NewPointer(used, Packed(used, base), used[j].start))
            && base <= q && q + used[i].size <= base + |mem|
            && Bytes(mem, base, Block(q, used[i].size)) == Bytes(was, base, used[i])
  {
    NewPointerFinds(used, Packed(used, base), base, base + |mem|, i);
    NewPointerFinds(used, Packed(used, base), base, base + |mem|, j);
    PackedIsPacked(used, base);
    PackedBelow(used, base, base + |mem|, i);
    assert Bytes(mem, base, Packed(used, base)[i]) == Bytes(was, base, used[i]);
  }

  /** Right after a compaction a request fits exactly when it is no bigger than the
      total of the free space. */
  lemma DefraggedFits(base: int, size: int, free: seq<Block>, used: seq<Block>, n: int)
    requires Tiled(base, size, free, used) && 0 < n && size > 0
    requires used == [] || |free| <= 1
    ensures Fits(free, n) <==> n <= Sum(free)
  {
    if used == [] {
      NothingUsed(base, size, free);
    }
    if free != [] {
      SumOne(free[0]);
      assert free == [free[0]];
      if n <= Sum(free) {
        assert free[0].size >= n;
      }
    }
  }

  // ----- A heap in use -----

  /** Freeing everything gives back one block that covers the heap, in whatever order. */
  method FreeAll(h: LabHeap)
    requires h.Valid()
    modifies h
    ensures h.Valid() && h.usedBlks == [] && h.freeBlks == [Block(h.start, h.size)] && h.freeSize == h.size
    ensures h.start == old(h.start) && h.size == old(h.size)
  {
    while h.usedBlks != []
      invariant h.Valid() && h.start == old(h.start) && h.size == old(h.size)
      decreases |h.usedBlks|
    {
      var u := |h.usedBlks| / 2;
      ghost var used := h.usedBlks;
      h.HeapFree(h.usedBlks[u].start);
      assert |h.usedBlks| < |used|;
    }
    NothingUsed(h.start, h.size, h.freeBlks);
    SumOne(h.freeBlks[0]);
  }

  /** After a compaction the next request succeeds exactly when it is nonzero and its
      aligned size is at most the free space. */
  method DefragThenAlloc(h: LabHeap, n: int) returns (p: int)
    requires h.Valid() && 0 <= n <= SIZE_MAX - 7
    modifies h
    ensures h.Valid() && (p != 0 <==> n > 0 && Align(n) <= old(h.freeSize))
  {
    h.HeapDefrag();
    AlignIsExact(n);
    if n > 0 {
      DefraggedFits(h.start, h.size, h.freeBlks, h.usedBlks, Align(n));
    }
    p := h.HeapAlloc(n);
  }

  /** A pointer to a used block, translated right after a compaction, leads to a block
      of the same size with the same bytes. */
  method DefragThenTranslate(h: LabHeap, i: int) returns (q: int)
    requires h.Valid() && 0 <= i < |h.usedBlks|
    modifies h
    ensures h.Valid() && |h.mem| == old(|h.mem|) && h.start == old(h.start)
    ensures old(h.start <= h.usedBlks[i].start <= h.usedBlks[i].End() <= h.start + |h.mem|)
    ensures Block(q, old(h.usedBlks[i].size)) in h.usedBlks
    ensures h.start <= q <= q + old(h.usedBlks[i].size) <= h.start + |h.mem|
    ensures Bytes(h.mem, h.start, Block(q, old(h.usedBlks[i].size))) == old(Bytes(h.mem, h.start, h.usedBlks[i]))
  {
    var p := h.usedBlks[i].start;
    ghost var was, used, free := h.mem, h.usedBlks, h.freeBlks;
    h.HeapDefrag();
    TiledOpen(h.start, h.size, free, used);
    PointersTranslate(h.start, used, was, h.mem, i, i);
    q := h.HeapNewPointer(p);
    assert h.usedBlks[i] == Block(q, used[i].size);
  }
}
