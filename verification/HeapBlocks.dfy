/** Block lists of the lab1 heap: what they look like, and what allocating, freeing
    and compacting do to them. Addresses are byte numbers; 0 is NULL. */
module HeapBlocks {
  import opened Words

  datatype Block = Block(start: int, size: int)
  {
    function End(): int
    {
      start + size
    }
  }

  datatype Policy = FirstFit | BestFit | WorstFit

  // ----- size_t and alignment -----

  const SIZE_MAX := 0xffff_ffff_ffff_ffff

  /** The ALIGN macro, on a wrapping size_t. */
  function Align(x: int): int
    requires 0 <= x <= SIZE_MAX
  {
    (x + 7) % (SIZE_MAX + 1) / 8 * 8
  }

  /** The rounding is up to the next multiple of 8 exactly for the requests that leave
      room for it; the others wrap to 0. */
  lemma AlignIsExact(x: int)
    requires 0 <= x <= SIZE_MAX
    ensures Align(x) % 8 == 0
    ensures x <= SIZE_MAX - 7 <==> x <= Align(x)
    ensures x <= SIZE_MAX - 7 ==> Align(x) < x + 8
    ensures x > SIZE_MAX - 7 ==> Align(x) == 0
  {
    if x <= SIZE_MAX - 7 {
      assert (x + 7) % (SIZE_MAX + 1) == x + 7;
    } else {
      assert (x + 7) % (SIZE_MAX + 1) == x + 7 - (SIZE_MAX + 1);
    }
  }

  // ----- Lists of blocks -----

  function Sum(bs: seq<Block>): int
  {
    if bs == [] then 0 else bs[0].size + Sum(bs[1..])
  }

  lemma {:induction false} SumConcat(a: seq<Block>, b: seq<Block>)
    ensures Sum(a + b) == Sum(a) + Sum(b)
  {
    if a == [] {
      assert a + b == b;
    } else {
      assert (a + b)[1..] == a[1..] + b;
      SumConcat(a[1..], b);
    }
  }

  /** The sum with the block at k singled out. */
  lemma SumAt(bs: seq<Block>, k: nat)
    requires k < |bs|
    ensures Sum(bs) == Sum(bs[..k]) + bs[k].size + Sum(bs[k + 1..])
  {
    assert bs == bs[..k] + ([bs[k]] + bs[k + 1..]);
    SumConcat(bs[..k], [bs[k]] + bs[k + 1..]);
    SumConcat([bs[k]], bs[k + 1..]);
    assert Sum([bs[k]]) == bs[k].size + Sum([]);
  }

  function Insert(bs: seq<Block>, k: nat, b: Block): seq<Block>
    requires k <= |bs|
  {
    bs[..k] + [b] + bs[k..]
  }

  function Remove(bs: seq<Block>, k: nat): seq<Block>
    requires k < |bs|
  {
    bs[..k] + bs[k + 1..]
  }

  lemma SumInsert(bs: seq<Block>, k: nat, b: Block)
    requires k <= |bs|
    ensures Sum(Insert(bs, k, b)) == Sum(bs) + b.size
  {
    SumAt(Insert(bs, k, b), k);
    assert Insert(bs, k, b)[..k] == bs[..k] && Insert(bs, k, b)[k + 1..] == bs[k..];
    assert bs == bs[..k] + bs[k..];
    SumConcat(bs[..k], bs[k..]);
  }

  lemma SumRemove(bs: seq<Block>, k: nat)
    requires k < |bs|
    ensures Sum(Remove(bs, k)) == Sum(bs) - bs[k].size
  {
    SumAt(bs, k);
    SumConcat(bs[..k], bs[k + 1..]);
  }

  lemma SumUpdate(bs: seq<Block>, k: nat, b: Block)
    requires k < |bs|
    ensures Sum(bs[k := b]) == Sum(bs) - bs[k].size + b.size
  {
    SumAt(bs, k);
    SumAt(bs[k := b], k);
    assert bs[k := b][..k] == bs[..k] && bs[k := b][k + 1..] == bs[k + 1..];
  }

  /** Nonempty blocks in address order inside [lo, hi). */
  ghost predicate Ordered(bs: seq<Block>, lo: int, hi: int)
  {
    && (forall i :: 0 <= i < |bs| ==> bs[i].size > 0 && lo <= bs[i].start && bs[i].End() <= hi)
    && (forall i, j :: 0 <= i < j < |bs| ==> bs[i].End() <= bs[j].start)
  }

  /** No two blocks of the list touch. */
  ghost predicate Apart(bs: seq<Block>)
  {
    forall i, j :: 0 <= i < j < |bs| ==> bs[i].End() < bs[j].start
  }

  predicate Clear(a: Block, b: Block)
  {
    a.End() <= b.start || b.End() <= a.start
  }

  ghost predicate AllClear(xs: seq<Block>, ys: seq<Block>)
  {
    forall i, j :: 0 <= i < |xs| && 0 <= j < |ys| ==> Clear(xs[i], ys[j])
  }

  ghost predicate ClearOf(b: Block, ys: seq<Block>)
  {
    forall j :: 0 <= j < |ys| ==> Clear(b, ys[j])
  }

  ghost predicate Aligned(bs: seq<Block>, base: int)
  {
    forall i :: 0 <= i < |bs| ==> (bs[i].start - base) % 8 == 0
  }

  ghost predicate WholeSizes(bs: seq<Block>)
  {
    forall i :: 0 <= i < |bs| ==> bs[i].size % 8 == 0
  }

  /** The two lists of a heap of `size` bytes at `base`. */
  ghost predicate Tiled(base: int, size: int, free: seq<Block>, used: seq<Block>)
  {
    forall k: int {:trigger Spelled(k)} :: k == 0 ==> TiledParts(base, size, free, used)
  }

  ghost predicate TiledParts(base: int, size: int, free: seq<Block>, used: seq<Block>)
  {
    && Ordered(free, base, base + size) && Apart(free) && Ordered(used, base, base + size) && AllClear(free, used)
    && Sum(free) + Sum(used) == size
    && Aligned(free, base) && Aligned(used, base) && WholeSizes(used)
  }

  lemma TiledOpen(base: int, size: int, free: seq<Block>, used: seq<Block>)
    requires Tiled(base, size, free, used)
    ensures TiledParts(base, size, free, used)
  {
    assert Spelled(0);
  }

  // ----- The lists cover every byte exactly once -----

  predicate Holds(b: Block, a: int)
  {
    b.start <= a < b.End()
  }

  /** Bytes of the blocks below address x. */
  function Below(bs: seq<Block>, x: int): int
  {
    if bs == [] then 0
    else (if x <= bs[0].start then 0 else if x >= bs[0].End() then bs[0].size else x - bs[0].start) + Below(bs[1..], x)
  }

  function Hits(bs: seq<Block>, a: int): int
  {
    if bs == [] then 0 else (if Holds(bs[0], a) then 1 else 0) + Hits(bs[1..], a)
  }

  lemma {:induction false} BelowGrows(bs: seq<Block>, a: int)
    requires forall i :: 0 <= i < |bs| ==> bs[i].size > 0
    ensures Below(bs, a + 1) == Below(bs, a) + Hits(bs, a)
  {
    if bs != [] {
      BelowGrows(bs[1..], a);
    }
  }

  lemma {:induction false} BelowEnds(bs: seq<Block>, lo: int, hi: int)
    requires forall i :: 0 <= i < |bs| ==> bs[i].size > 0 && lo <= bs[i].start && bs[i].End() <= hi
    ensures Below(bs, lo) == 0 && Below(bs, hi) == Sum(bs)
  {
    if bs != [] {
      BelowEnds(bs[1..], lo, hi);
    }
  }

  /** A byte is hit as often as there are blocks holding it: at most once in an ordered list. */
  lemma {:induction false} HitsAtMostOnce(bs: seq<Block>, lo: int, hi: int, a: int)
    requires Ordered(bs, lo, hi)
    ensures 0 <= Hits(bs, a) <= 1
    ensures Hits(bs, a) == 1 <==> exists i :: 0 <= i < |bs| && Holds(bs[i], a)
  {
    if bs != [] {
      HitsAtMostOnce(bs[1..], lo, hi, a);
      assert forall i :: 0 <= i < |bs[1..]| ==> bs[1..][i] == bs[i + 1];
      if exists i :: 0 <= i < |bs| && Holds(bs[i], a) {
        var i :| 0 <= i < |bs| && Holds(bs[i], a);
        assert i > 0 ==> Holds(bs[1..][i - 1], a);
      }
      if Hits(bs[1..], a) == 1 {
        var i :| 0 <= i < |bs[1..]| && Holds(bs[1..][i], a);
        assert Holds(bs[i + 1], a);
      }
    }
  }

  lemma OneHit(base: int, size: int, free: seq<Block>, used: seq<Block>, a: int)
    requires Tiled(base, size, free, used)
    ensures 0 <= Hits(free, a) && 0 <= Hits(used, a) && Hits(free, a) + Hits(used, a) <= 1
  {
    TiledOpen(base, size, free, used);
    HitsAtMostOnce(free, base, base + size, a);
    HitsAtMostOnce(used, base, base + size, a);
    if Hits(free, a) == 1 {
      var i :| 0 <= i < |free| && Holds(free[i], a);
      assert forall j :: 0 <= j < |used| ==> Clear(free[i], used[j]) && !Holds(used[j], a);
    }
  }

  lemma {:induction false} FilledBetween(base: int, size: int, free: seq<Block>, used: seq<Block>, x: int, y: int)
    requires Tiled(base, size, free, used) && x <= y
    ensures Below(free, y) + Below(used, y) - Below(free, x) - Below(used, x) <= y - x
    decreases y - x
  {
    TiledOpen(base, size, free, used);
    if x < y {
      FilledBetween(base, size, free, used, x + 1, y);
      BelowGrows(free, x);
      BelowGrows(used, x);
      OneHit(base, size, free, used, x);
    }
  }

  /** The two lists tile the heap: every byte of it lies in exactly one block. */
  lemma EveryByteOnce(base: int, size: int, free: seq<Block>, used: seq<Block>, a: int)
    requires Tiled(base, size, free, used) && base <= a < base + size
    ensures (exists i :: 0 <= i < |free| && Holds(free[i], a)) != (exists j :: 0 <= j < |used| && Holds(used[j], a))
    ensures forall i, j :: 0 <= i < |free| && 0 <= j < |free| && Holds(free[i], a) && Holds(free[j], a) ==> i == j
    ensures forall i, j :: 0 <= i < |used| && 0 <= j < |used| && Holds(used[i], a) && Holds(used[j], a) ==> i == j
  {
    TiledOpen(base, size, free, used);
    FilledBetween(base, size, free, used, base, a);
    FilledBetween(base, size, free, used, a + 1, base + size);
    BelowEnds(free, base, base + size);
    BelowEnds(used, base, base + size);
    BelowGrows(free, a);
    BelowGrows(used, a);
    OneHit(base, size, free, used, a);
    HitsAtMostOnce(free, base, base + size, a);
    HitsAtMostOnce(used, base, base + size, a);
  }

  /** Gaps between free blocks are bytes lost to the sum. */
  lemma {:induction false} SumApart(free: seq<Block>, lo: int, hi: int)
    requires Ordered(free, lo, hi) && Apart(free) && lo <= hi + 1
    ensures Sum(free) <= hi - lo - |free| + 1
  {
    if free != [] {
      var rest := free[1..];
      assert forall i :: 0 <= i < |rest| ==> rest[i] == free[i + 1];
      SumApart(rest, free[0].End() + 1, hi);
    }
  }

  /** With nothing allocated there is a single free block, the whole heap. */
  lemma NothingUsed(base: int, size: int, free: seq<Block>)
    requires Tiled(base, size, free, []) && size > 0
    ensures free == [Block(base, size)]
  {
    TiledOpen(base, size, free, []);
    SumApart(free, base, base + size);
    assert free != [];
    SumAt(free, 0);
    assert free[1..] == [];
  }

  // ----- Choosing a block -----

  /** The free block a policy picks for `size` bytes: the first that fits, or the
      first among the smallest or largest that do. */
  ghost predicate Chosen(free: seq<Block>, size: int, policy: Policy, k: int)
  {
    && 0 <= k < |free| && free[k].size >= size
    && match policy
       case FirstFit => forall i :: 0 <= i < k ==> free[i].size < size
       case BestFit =>
         && (forall i :: 0 <= i < |free| && free[i].size >= size ==> free[k].size <= free[i].size)
         && (forall i :: 0 <= i < k && free[i].size >= size ==> free[k].size < free[i].size)
       case WorstFit =>
         && (forall i :: 0 <= i < |free| && free[i].size >= size ==> free[k].size >= free[i].size)
         && (forall i :: 0 <= i < k && free[i].size >= size ==> free[k].size > free[i].size)
  }

  ghost predicate Fits(free: seq<Block>, size: int)
  {
    exists i :: 0 <= i < |free| && free[i].size >= size
  }

  // ----- Allocating -----

  /** The free list after `size` bytes were cut from the front of block k. */
  function CutFree(free: seq<Block>, k: nat, size: int): seq<Block>
    requires k < |free|
  {
    if free[k].size == size then Remove(free, k) else free[k := Block(free[k].start + size, free[k].size - size)]
  }

  /** Where a block goes in an address-ordered list. */
  ghost predicate IsPosition(bs: seq<Block>, start: int, p: int)
  {
    && 0 <= p <= |bs|
    && (forall i :: 0 <= i < p ==> bs[i].start < start)
    && (p < |bs| ==> start <= bs[p].start)
  }

  lemma RemoveKeeps(bs: seq<Block>, k: nat, lo: int, hi: int)
    requires Ordered(bs, lo, hi) && k < |bs|
    ensures Ordered(Remove(bs, k), lo, hi)
    ensures Apart(bs) ==> Apart(Remove(bs, k))
  {
    assert forall i :: 0 <= i < |bs| - 1 ==> Remove(bs, k)[i] == bs[if i < k then i else i + 1];
  }

  lemma InsertKeeps(bs: seq<Block>, p: nat, b: Block, lo: int, hi: int)
    requires Ordered(bs, lo, hi) && IsPosition(bs, b.start, p) && b.size > 0 && lo <= b.start && b.End() <= hi
    requires ClearOf(b, bs)
    ensures Ordered(Insert(bs, p, b), lo, hi)
  {
    var r := Insert(bs, p, b);
    assert forall i :: 0 <= i < p ==> r[i] == bs[i];
    assert r[p] == b;
    assert forall i :: p < i < |r| ==> r[i] == bs[i - 1];
    forall i | 0 <= i < |bs|
      ensures i < p ==> bs[i].End() <= b.start
      ensures p <= i ==> b.End() <= bs[i].start
    {
      assert Clear(b, bs[i]);
      assert p < i ==> bs[p].End() <= bs[i].start;
    }
  }

  lemma CutKeeps(free: seq<Block>, k: nat, size: int, lo: int, hi: int)
    requires Ordered(free, lo, hi) && Apart(free) && k < |free| && 0 < size <= free[k].size
    ensures Ordered(CutFree(free, k, size), lo, hi) && Apart(CutFree(free, k, size))
    ensures Sum(CutFree(free, k, size)) == Sum(free) - size
  {
    if free[k].size == size {
      RemoveKeeps(free, k, lo, hi);
      SumRemove(free, k);
    } else {
      ShrinkKeeps(free, k, size, lo, hi);
      SumUpdate(free, k, Block(free[k].start + size, free[k].size - size));
    }
  }

  lemma ShrinkKeeps(free: seq<Block>, k: nat, size: int, lo: int, hi: int)
    requires Ordered(free, lo, hi) && Apart(free) && k < |free| && 0 < size < free[k].size
    ensures var r := free[k := Block(free[k].start + size, free[k].size - size)]; Ordered(r, lo, hi) && Apart(r)
  {
    var r := free[k := Block(free[k].start + size, free[k].size - size)];
    assert forall i :: 0 <= i < |r| ==> r[i].End() == free[i].End() && free[i].start <= r[i].start && r[i].size > 0;
    forall i, j | 0 <= i < j < |r|
      ensures r[i].End() < r[j].start
    {
      assert free[i].End() < free[j].start;
    }
  }

  /** The piece cut off is clear of everything else. */
  lemma CutClears(free: seq<Block>, used: seq<Block>, k: nat, size: int, lo: int, hi: int)
    requires Ordered(free, lo, hi) && AllClear(free, used) && k < |free| && 0 < size <= free[k].size
    ensures AllClear(CutFree(free, k, size), used)
    ensures ClearOf(Block(free[k].start, size), used) && ClearOf(Block(free[k].start, size), CutFree(free, k, size))
  {
    var b, cut := Block(free[k].start, size), CutFree(free, k, size);
    forall j | 0 <= j < |used|
      ensures Clear(b, used[j])
    {
      assert Clear(free[k], used[j]);
    }
    forall i | 0 <= i < |cut|
      ensures Clear(b, cut[i])
      ensures forall j :: 0 <= j < |used| ==> Clear(cut[i], used[j])
    {
      var o := if free[k].size == size && i >= k then i + 1 else i;
      assert free[o] == cut[i] || (o == k && cut[i] == Block(free[k].start + size, free[k].size - size));
      forall j | 0 <= j < |used|
        ensures Clear(cut[i], used[j])
      {
        assert Clear(free[o], used[j]);
      }
      if o < k {
        assert free[o].End() <= free[k].start;
      } else if o > k {
        assert free[k].End() <= free[o].start;
      }
    }
  }

  lemma CutAligned(free: seq<Block>, k: nat, size: int, base: int)
    requires Aligned(free, base) && k < |free| && size % 8 == 0
    ensures Aligned(CutFree(free, k, size), base)
  {
    var cut := CutFree(free, k, size);
    forall i | 0 <= i < |cut|
      ensures (cut[i].start - base) % 8 == 0
    {
      var o := if free[k].size == size && i >= k then i + 1 else i;
      assert (free[o].start - base) % 8 == 0;
    }
  }

  lemma InsertClear(xs: seq<Block>, ys: seq<Block>, p: nat, b: Block)
    requires AllClear(xs, ys) && p <= |ys| && ClearOf(b, xs)
    ensures AllClear(xs, Insert(ys, p, b))
  {
    var r := Insert(ys, p, b);
    forall i, j | 0 <= i < |xs| && 0 <= j < |r|
      ensures Clear(xs[i], r[j])
    {
      assert r[j] == if j < p then ys[j] else if j == p then b else ys[j - 1];
      assert Clear(b, xs[i]);
    }
  }

  lemma InsertAligned(bs: seq<Block>, p: nat, b: Block, base: int)
    requires p <= |bs| && Aligned(bs, base) && (b.start - base) % 8 == 0
    ensures Aligned(Insert(bs, p, b), base)
    ensures WholeSizes(bs) && b.size % 8 == 0 ==> WholeSizes(Insert(bs, p, b))
  {
    var r := Insert(bs, p, b);
    assert forall j :: 0 <= j < |r| ==> r[j] == if j < p then bs[j] else if j == p then b else bs[j - 1];
  }

  /** Allocating keeps the tiling. */
  lemma AllocTiles(base: int, size: int, free: seq<Block>, used: seq<Block>, k: nat, n: int, p: nat)
    requires Tiled(base, size, free, used) && k < |free| && 0 < n <= free[k].size && n % 8 == 0
    requires IsPosition(used, free[k].start, p)
    ensures Tiled(base, size, CutFree(free, k, n), Insert(used, p, Block(free[k].start, n)))
  {
    TiledOpen(base, size, free, used);
    var b := Block(free[k].start, n);
    CutKeeps(free, k, n, base, base + size);
    CutClears(free, used, k, n, base, base + size);
    CutAligned(free, k, n, base);
    InsertKeeps(used, p, b, base, base + size);
    InsertClear(CutFree(free, k, n), used, p, b);
    InsertAligned(used, p, b, base);
    SumInsert(used, p, b);
    assert TiledParts(base, size, CutFree(free, k, n), Insert(used, p, b));
  }

  // ----- Freeing -----

  /** Blocks k and k + 1 made one. */
  function Merge(bs: seq<Block>, k: nat): seq<Block>
    requires k + 1 < |bs|
  {
    bs[..k] + [Block(bs[k].start, bs[k].size + bs[k + 1].size)] + bs[k + 2..]
  }

  predicate Touches(bs: seq<Block>, k: int)
  {
    0 <= k && k + 1 < |bs| && bs[k].End() == bs[k + 1].start
  }

  /** Blocks k and k + 1 joined if there are two and they touch. */
  function JoinAt(bs: seq<Block>, k: int): seq<Block>
  {
    if Touches(bs, k) then Merge(bs, k) else bs
  }

  /** The free list with block b put at position p, joined first to the block before
      it and then to the one after, if they touch. */
  function Joined(free: seq<Block>, p: nat, b: Block): seq<Block>
    requires p <= |free|
  {
    var r := Insert(free, p, b);
    JoinAt(JoinAt(r, p - 1), if Touches(r, p - 1) then p - 1 else p)
  }

  lemma MergeIndex(bs: seq<Block>, k: nat)
    requires k + 1 < |bs|
    ensures |Merge(bs, k)| == |bs| - 1 && Merge(bs, k)[k] == Block(bs[k].start, bs[k].size + bs[k + 1].size)
    ensures forall i :: 0 <= i < |bs| - 1 && i != k ==> Merge(bs, k)[i] == bs[if i < k then i else i + 1]
  {
  }

  lemma MergeSum(bs: seq<Block>, k: nat)
    requires k + 1 < |bs|
    ensures Sum(Merge(bs, k)) == Sum(bs)
  {
    var big := Block(bs[k].start, bs[k].size + bs[k + 1].size);
    assert Merge(bs, k) == Remove(bs[k := big], k + 1);
    SumUpdate(bs, k, big);
    SumRemove(bs[k := big], k + 1);
  }

  lemma MergeKeeps(bs: seq<Block>, k: nat, lo: int, hi: int)
    requires Ordered(bs, lo, hi) && Touches(bs, k)
    ensures Ordered(Merge(bs, k), lo, hi)
  {
    MergeIndex(bs, k);
    var r := Merge(bs, k);
    forall i, j | 0 <= i < j < |r|
      ensures r[i].End() <= r[j].start
    {
      var x, y := if i < k then i else i + 1, if j <= k then j else j + 1;
      assert bs[x].End() <= bs[y].start;
    }
  }

  lemma MergeClear(bs: seq<Block>, used: seq<Block>, k: nat)
    requires AllClear(bs, used) && Touches(bs, k) && bs[k].size > 0 && bs[k + 1].size > 0
    requires forall j :: 0 <= j < |used| ==> used[j].size > 0
    ensures AllClear(Merge(bs, k), used)
  {
    MergeIndex(bs, k);
    var r := Merge(bs, k);
    forall i, j | 0 <= i < |r| && 0 <= j < |used|
      ensures Clear(r[i], used[j])
    {
      assert Clear(bs[if i <= k then i else i + 1], used[j]);
      assert Clear(bs[k + 1], used[j]);
    }
  }

  lemma MergeAligned(bs: seq<Block>, k: nat, base: int)
    requires k + 1 < |bs| && Aligned(bs, base)
    ensures Aligned(Merge(bs, k), base)
  {
    MergeIndex(bs, k);
    var r := Merge(bs, k);
    forall i | 0 <= i < |r|
      ensures (r[i].start - base) % 8 == 0
    {
      assert (bs[if i <= k then i else i + 1].start - base) % 8 == 0;
    }
  }

  /** Only neighbours among blocks m and m + 1, or m + 1 and m + 2, may touch. */
  ghost predicate ApartBut(bs: seq<Block>, m: int)
  {
    forall i, j :: 0 <= i < j < |bs| && !(j == i + 1 && (i == m || i == m + 1)) ==> bs[i].End() < bs[j].start
  }

  lemma InsertApart(free: seq<Block>, p: nat, b: Block, lo: int, hi: int)
    requires Apart(free) && p <= |free| && b.size > 0 && Ordered(Insert(free, p, b), lo, hi)
    requires forall i :: 0 <= i < |free| ==> free[i].size > 0
    ensures ApartBut(Insert(free, p, b), p - 1)
  {
    var r := Insert(free, p, b);
    assert forall i :: 0 <= i < |r| ==> r[i] == if i < p then free[i] else if i == p then b else free[i - 1];
    forall i, j | 0 <= i < j < |r| && !(j == i + 1 && (i == p - 1 || i == p))
      ensures r[i].End() < r[j].start
    {
      if i == p {
        assert r[p].End() <= r[p + 1].start && r[p + 1] == free[p];
        assert free[p].End() < free[j - 1].start;
      } else if j == p {
        assert r[p - 1].End() <= r[p].start && r[p - 1] == free[p - 1];
        assert free[i].End() < free[p - 1].start;
      } else {
        assert free[if i < p then i else i - 1].End() < free[if j < p then j else j - 1].start;
      }
    }
  }

  /** Merging the pair at m leaves only the next pair to touch. */
  lemma MergeApart(bs: seq<Block>, m: nat, lo: int, hi: int)
    requires ApartBut(bs, m) && Touches(bs, m) && Ordered(bs, lo, hi)
    ensures ApartBut(Merge(bs, m), m - 1) && !Touches(Merge(bs, m), m - 1)
  {
    MergeIndex(bs, m);
    var r := Merge(bs, m);
    forall i, j | 0 <= i < j < |r| && !(j == i + 1 && i == m)
      ensures r[i].End() < r[j].start
    {
      var x, y := if i < m then i else i + 1, if j <= m then j else j + 1;
      assert bs[x].End() < bs[y].start;
    }
  }

  lemma NoMoreTouching(bs: seq<Block>, m: int, lo: int, hi: int)
    requires ApartBut(bs, m) && Ordered(bs, lo, hi) && !Touches(bs, m) && !Touches(bs, m + 1)
    ensures Apart(bs)
  {
  }

  lemma MergeLastApart(bs: seq<Block>, m: int, lo: int, hi: int)
    requires ApartBut(bs, m) && Ordered(bs, lo, hi) && !Touches(bs, m) && Touches(bs, m + 1) && m >= -1
    ensures Apart(Merge(bs, m + 1))
  {
    MergeIndex(bs, m + 1);
    var r := Merge(bs, m + 1);
    forall i, j | 0 <= i < j < |r|
      ensures r[i].End() < r[j].start
    {
      var x, y := if i < m + 1 then i else i + 1, if j <= m + 1 then j else j + 1;
      assert bs[x].End() < bs[y].start;
    }
  }

  lemma JoinedApart(free: seq<Block>, p: nat, b: Block, lo: int, hi: int)
    requires Apart(free) && p <= |free| && b.size > 0 && Ordered(Insert(free, p, b), lo, hi)
    requires forall i :: 0 <= i < |free| ==> free[i].size > 0
    ensures Apart(Joined(free, p, b))
  {
    var r := Insert(free, p, b);
    InsertApart(free, p, b, lo, hi);
    if Touches(r, p - 1) {
      MergeApart(r, p - 1, lo, hi);
      MergeKeeps(r, p - 1, lo, hi);
      LastJoin(Merge(r, p - 1), p - 2, lo, hi);
    } else {
      LastJoin(r, p - 1, lo, hi);
    }
  }

  lemma LastJoin(bs: seq<Block>, m: int, lo: int, hi: int)
    requires ApartBut(bs, m) && Ordered(bs, lo, hi) && !Touches(bs, m) && m >= -1
    ensures Apart(JoinAt(bs, m + 1))
  {
    if Touches(bs, m + 1) {
      MergeLastApart(bs, m, lo, hi);
    } else {
      NoMoreTouching(bs, m, lo, hi);
    }
  }

  /** A list as it must be beside the used blocks, except that neighbours may touch. */
  ghost predicate FreeList(free: seq<Block>, used: seq<Block>, base: int, size: int, total: int)
  {
    Ordered(free, base, base + size) && AllClear(free, used) && Aligned(free, base) && Sum(free) == total
  }

  lemma MergeFree(free: seq<Block>, used: seq<Block>, k: nat, base: int, size: int, total: int)
    requires FreeList(free, used, base, size, total) && Touches(free, k)
    requires forall j :: 0 <= j < |used| ==> used[j].size > 0
    ensures FreeList(Merge(free, k), used, base, size, total)
  {
    MergeKeeps(free, k, base, base + size);
    MergeClear(free, used, k);
    MergeAligned(free, k, base);
    MergeSum(free, k);
  }

  lemma JoinAtFree(free: seq<Block>, used: seq<Block>, k: int, base: int, size: int, total: int)
    requires FreeList(free, used, base, size, total)
    requires forall j :: 0 <= j < |used| ==> used[j].size > 0
    ensures FreeList(JoinAt(free, k), used, base, size, total)
  {
    if Touches(free, k) {
      MergeFree(free, used, k, base, size, total);
    }
  }

  lemma JoinedFree(free: seq<Block>, used: seq<Block>, p: nat, b: Block, base: int, size: int, total: int)
    requires p <= |free| && FreeList(Insert(free, p, b), used, base, size, total)
    requires forall j :: 0 <= j < |used| ==> used[j].size > 0
    ensures FreeList(Joined(free, p, b), used, base, size, total)
  {
    var r := Insert(free, p, b);
    JoinAtFree(r, used, p - 1, base, size, total);
    JoinAtFree(JoinAt(r, p - 1), used, if Touches(r, p - 1) then p - 1 else p, base, size, total);
  }

  lemma JoinedSum(free: seq<Block>, p: nat, b: Block)
    requires p <= |free|
    ensures Sum(Joined(free, p, b)) == Sum(free) + b.size
  {
    var r := Insert(free, p, b);
    SumInsert(free, p, b);
    JoinAtSum(r, p - 1);
    JoinAtSum(JoinAt(r, p - 1), if Touches(r, p - 1) then p - 1 else p);
  }

  lemma JoinAtSum(bs: seq<Block>, k: int)
    ensures Sum(JoinAt(bs, k)) == Sum(bs)
  {
    if Touches(bs, k) {
      MergeSum(bs, k);
    }
  }

  lemma ClearBothWays(xs: seq<Block>, ys: seq<Block>)
    requires AllClear(xs, ys)
    ensures AllClear(ys, xs)
  {
    forall i, j | 0 <= i < |ys| && 0 <= j < |xs|
      ensures Clear(ys[i], xs[j])
    {
      assert Clear(xs[j], ys[i]);
    }
  }

  lemma RemoveRest(used: seq<Block>, u: nat, base: int)
    requires u < |used| && Aligned(used, base) && WholeSizes(used)
    ensures Aligned(Remove(used, u), base) && WholeSizes(Remove(used, u))
  {
    var rest := Remove(used, u);
    assert forall i :: 0 <= i < |rest| ==> rest[i] == used[if i < u then i else i + 1];
  }

  lemma RemoveClear(free: seq<Block>, used: seq<Block>, u: nat, lo: int, hi: int)
    requires u < |used| && AllClear(free, used) && Ordered(used, lo, hi)
    ensures AllClear(Remove(used, u), free) && ClearOf(used[u], Remove(used, u)) && ClearOf(used[u], free)
  {
    var rest := Remove(used, u);
    forall i | 0 <= i < |rest|
      ensures Clear(used[u], rest[i])
      ensures forall j :: 0 <= j < |free| ==> Clear(rest[i], free[j])
    {
      var o := if i < u then i else i + 1;
      assert rest[i] == used[o];
      assert forall j :: 0 <= j < |free| ==> Clear(free[j], used[o]);
    }
    assert forall j :: 0 <= j < |free| ==> Clear(free[j], used[u]);
  }

  /** The used list without its block u, and that block beside both lists. */
  lemma Released(base: int, size: int, free: seq<Block>, used: seq<Block>, u: nat)
    requires Tiled(base, size, free, used) && u < |used|
    ensures var rest := Remove(used, u);
            && Ordered(rest, base, base + size) && Aligned(rest, base) && WholeSizes(rest) && Sum(rest) == Sum(used) - used[u].size
            && AllClear(rest, free) && ClearOf(used[u], rest) && ClearOf(used[u], free)
  {
    TiledOpen(base, size, free, used);
    RemoveKeeps(used, u, base, base + size);
    SumRemove(used, u);
    RemoveRest(used, u, base);
    RemoveClear(free, used, u, base, base + size);
  }

  /** Freeing keeps the tiling: what is freed is given back, joined to its neighbours. */
  lemma FreeTiles(base: int, size: int, free: seq<Block>, used: seq<Block>, u: nat, p: nat)
    requires Tiled(base, size, free, used) && u < |used| && IsPosition(free, used[u].start, p)
    ensures Tiled(base, size, Joined(free, p, used[u]), Remove(used, u))
  {
    TiledOpen(base, size, free, used);
    var b, rest := used[u], Remove(used, u);
    Released(base, size, free, used, u);
    InsertKeeps(free, p, b, base, base + size);
    InsertClear(rest, free, p, b);
    ClearBothWays(rest, Insert(free, p, b));
    InsertAligned(free, p, b, base);
    SumInsert(free, p, b);
    JoinedFree(free, rest, p, b, base, size, Sum(free) + b.size);
    JoinedApart(free, p, b, base, base + size);
    assert TiledParts(base, size, Joined(free, p, b), rest);
  }

  // ----- Compacting -----

  /** The used blocks moved down to start at `at`, in order, without gaps. */
  function Packed(used: seq<Block>, at: int): (r: seq<Block>)
    ensures |r| == |used| && forall i :: 0 <= i < |used| ==> r[i] == Block(at + Sum(used[..i]), used[i].size)
  {
    seq(|used|, i requires 0 <= i < |used| => Block(at + Sum(used[..i]), used[i].size))
  }

  lemma SumPrefix(bs: seq<Block>, i: nat)
    requires i < |bs|
    ensures Sum(bs[..i + 1]) == Sum(bs[..i]) + bs[i].size
  {
    assert bs[..i + 1] == bs[..i] + [bs[i]];
    SumConcat(bs[..i], [bs[i]]);
    SumOne(bs[i]);
  }

  lemma SumOne(b: Block)
    ensures Sum([b]) == b.size
  {
    assert Sum([]) == 0;
  }

  lemma SumMonotone(bs: seq<Block>, i: nat, j: nat)
    requires i <= j <= |bs| && forall k :: 0 <= k < |bs| ==> bs[k].size > 0
    ensures Sum(bs[..i]) <= Sum(bs[..j])
  {
    assert bs[..j] == bs[..i] + bs[i..j];
    SumConcat(bs[..i], bs[i..j]);
    SumPositive(bs[i..j]);
  }

  lemma PackedIsPacked(used: seq<Block>, at: int)
    requires forall i :: 0 <= i < |used| ==> used[i].size > 0
    ensures Ordered(Packed(used, at), at, at + Sum(used))
  {
    var r := Packed(used, at);
    forall i | 0 <= i < |r|
      ensures at <= r[i].start && r[i].End() <= at + Sum(used)
      ensures forall j :: i < j < |r| ==> r[i].End() <= r[j].start
    {
      SumPrefix(used, i);
      SumMonotone(used, 0, i);
      assert used[..|used|] == used;
      forall j | i < j <= |used|
        ensures r[i].End() <= at + Sum(used[..j])
      {
        SumMonotone(used, i + 1, j);
      }
    }
  }

  lemma {:induction false} SameSizes(a: seq<Block>, b: seq<Block>)
    requires |a| == |b| && forall i :: 0 <= i < |a| ==> a[i].size == b[i].size
    ensures Sum(a) == Sum(b)
  {
    if a != [] {
      SameSizes(a[1..], b[1..]);
    }
  }

  lemma {:induction false} WholeSum(bs: seq<Block>)
    requires WholeSizes(bs)
    ensures Sum(bs) % 8 == 0
  {
    if bs != [] {
      assert bs[0].size % 8 == 0;
      WholeSum(bs[1..]);
    }
  }

  lemma WholePrefix(used: seq<Block>, i: nat)
    requires WholeSizes(used) && i < |used|
    ensures Sum(used[..i]) % 8 == 0 && used[i].size % 8 == 0
  {
    WholeSum(used[..i]);
  }

  lemma ShiftedMultiple(base: int, x: int)
    requires x % 8 == 0
    ensures (base + x - base) % 8 == 0
  {
  }

  lemma PackedAlignedAt(used: seq<Block>, base: int, i: nat)
    requires WholeSizes(used) && i < |used|
    ensures (Packed(used, base)[i].start - base) % 8 == 0 && Packed(used, base)[i].size % 8 == 0
  {
    WholePrefix(used, i);
    ShiftedMultiple(base, Sum(used[..i]));
  }

  lemma PackedAligned(used: seq<Block>, base: int)
    requires WholeSizes(used)
    ensures Aligned(Packed(used, base), base) && WholeSizes(Packed(used, base))
  {
    forall i | 0 <= i < |used|
      ensures (Packed(used, base)[i].start - base) % 8 == 0 && Packed(used, base)[i].size % 8 == 0
    {
      PackedAlignedAt(used, base, i);
    }
  }

  /** The heap after compaction: the used blocks from the start, one free block after. */
  lemma DefragTiles(base: int, size: int, free: seq<Block>, used: seq<Block>, freeSize: int)
    requires Tiled(base, size, free, used) && freeSize == Sum(free)
    ensures Tiled(base, size, if free == [] then [] else [Block(base + size - freeSize, freeSize)], Packed(used, base))
  {
    TiledOpen(base, size, free, used);
    PackedIsPacked(used, base);
    PackedAligned(used, base);
    WholeSum(used);
    SameSizes(used, Packed(used, base));
    SumPositive(used);
    if free != [] {
      SumPositive(free);
      assert Sum([Block(base + size - freeSize, freeSize)]) == freeSize + Sum([]);
    }
    assert TiledParts(base, size, if free == [] then [] else [Block(base + size - freeSize, freeSize)], Packed(used, base));
  }

  lemma {:induction false} SumPositive(bs: seq<Block>)
    requires forall i :: 0 <= i < |bs| ==> bs[i].size > 0
    ensures Sum(bs) >= 0 && (bs != [] ==> Sum(bs) > 0)
  {
    if bs != [] {
      SumPositive(bs[1..]);
    }
  }

  lemma SumBounds(bs: seq<Block>, k: nat)
    requires k < |bs| && forall i :: 0 <= i < |bs| ==> bs[i].size > 0
    ensures bs[k].size <= Sum(bs)
  {
    SumAt(bs, k);
    SumPositive(bs[..k]);
    SumPositive(bs[k + 1..]);
  }
}
