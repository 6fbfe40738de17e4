/** Pages of the kernel's subpage allocator: each page is cut into blocks of one size,
    and the free ones are threaded through their first words. */
module SubpagePages {
  import opened Words

  const PAGE_SIZE := 4096
  const NSIZES := 8
  const INVALID_OFFSET := 0xffff
  const DEADBEEF := 0xdead_beef

  /** The block sizes, smallest first. */
  function SizeOf(blk: int): (r: int)
    ensures 16 <= r <= 2048
  {
    if blk <= 0 then 16 else if blk == 1 then 32 else if blk == 2 then 64 else if blk == 3 then 128
    else if blk == 4 then 256 else if blk == 5 then 512 else if blk == 6 then 1024 else 2048
  }

  /** Blocks on a page. */
  function Count(blk: int): (r: int)
    ensures r >= 2
  {
    PAGE_SIZE / SizeOf(blk)
  }

  lemma CountFits(blk: int)
    ensures Count(blk) * SizeOf(blk) == PAGE_SIZE
  {
  }

  /** The smallest size class that is big enough. */
  method BlockType(sz: int) returns (blk: int)
    requires 0 <= sz <= 2048
    ensures 0 <= blk < NSIZES && sz <= SizeOf(blk) && forall b :: 0 <= b < blk ==> SizeOf(b) < sz
    ensures blk == ClassFor(sz)
  {
    blk := 0;
    while SizeOf(blk) < sz
      invariant 0 <= blk < NSIZES && forall b :: 0 <= b < blk ==> SizeOf(b) < sz
      decreases NSIZES - blk
    {
      blk := blk + 1;
    }
  }

  function ClassFor(sz: int): (blk: int)
    requires 0 <= sz <= 2048
    ensures 0 <= blk < NSIZES && sz <= SizeOf(blk) && forall b :: 0 <= b < blk ==> SizeOf(b) < sz
  {
    if sz <= 16 then 0 else if sz <= 32 then 1 else if sz <= 64 then 2 else if sz <= 128 then 3
    else if sz <= 256 then 4 else if sz <= 512 then 5 else if sz <= 1024 then 6 else 7
  }

  // ----- Memory words -----

  function Word(mem: map<int, int>, a: int): int
  {
    if a in mem then mem[a] else 0
  }

  /** The first n words at ptr overwritten. */
  function Filled(mem: map<int, int>, ptr: int, n: int): map<int, int>
    requires n >= 0
    decreases n
  {
    if n == 0 then mem else Filled(mem, ptr, n - 1)[ptr + 4 * (n - 1) := DEADBEEF]
  }

  lemma {:induction false} FilledOutside(mem: map<int, int>, ptr: int, n: int, a: int)
    requires n >= 0 && (a < ptr || ptr + 4 * n <= a)
    ensures Word(Filled(mem, ptr, n), a) == Word(mem, a)
    decreases n
  {
    if n > 0 {
      FilledOutside(mem, ptr, n - 1, a);
    }
  }

  // ----- One page -----

  datatype Ref = Ref(page: int, blk: int, offset: int, nfree: int)

  predicate IsSlot(blk: int, o: int)
  {
    0 <= o < PAGE_SIZE && o % SizeOf(blk) == 0
  }

  predicate InPage(page: int, a: int)
  {
    page <= a < page + PAGE_SIZE
  }

  ghost predicate Distinct(s: seq<int>)
  {
    forall i, j :: 0 <= i < j < |s| ==> s[i] != s[j]
  }

  /** The chain of free offsets, as it is threaded through memory. */
  ghost predicate Threaded(mem: map<int, int>, page: int, chain: seq<int>)
  {
    forall k :: 0 <= k < |chain| ==> Word(mem, page + chain[k]) == if k + 1 < |chain| then page + chain[k + 1] else 0
  }

  function Head(chain: seq<int>): int
  {
    if chain == [] then INVALID_OFFSET else chain[0]
  }

  ghost predicate AreSlots(blk: int, chain: seq<int>)
  {
    forall k :: 0 <= k < |chain| ==> IsSlot(blk, chain[k])
  }

  /** Each block of the page is live or in the chain, not both. */
  ghost predicate Shared(page: int, blk: int, chain: seq<int>, live: set<int>)
  {
    && (forall o :: IsSlot(blk, o) ==> (page + o in live <==> o !in chain))
    && (forall a :: a in live && InPage(page, a) ==> IsSlot(blk, a - page))
  }

  /** The freelist found in memory is the chain, which has nfree distinct blocks, and
      the other blocks of the page are live. */
  ghost predicate PageOk(ref: Ref, chain: seq<int>, mem: map<int, int>, live: set<int>)
  {
    && 0 <= ref.blk < NSIZES && ref.page > 0 && ref.page % PAGE_SIZE == 0 && |chain| == ref.nfree
    && forall k: int {:trigger Spelled(k)} :: k == 0 ==> PageParts(ref, chain, mem, live)
  }

  ghost predicate PageParts(ref: Ref, chain: seq<int>, mem: map<int, int>, live: set<int>)
  {
    && ref.offset == Head(chain) && Distinct(chain) && AreSlots(ref.blk, chain)
    && Threaded(mem, ref.page, chain)
    && Shared(ref.page, ref.blk, chain, live)
  }

  lemma PageOpen(ref: Ref, chain: seq<int>, mem: map<int, int>, live: set<int>)
    requires PageOk(ref, chain, mem, live)
    ensures PageParts(ref, chain, mem, live)
  {
    assert Spelled(0);
  }

  /** Nothing on the page changed. */
  lemma PageStays(ref: Ref, chain: seq<int>, mem: map<int, int>, live: set<int>, mem': map<int, int>, live': set<int>)
    requires PageOk(ref, chain, mem, live)
    requires forall a :: InPage(ref.page, a) ==> Word(mem', a) == Word(mem, a) && (a in live' <==> a in live)
    ensures PageOk(ref, chain, mem', live')
  {
    PageOpen(ref, chain, mem, live);
    forall k | 0 <= k < |chain|
      ensures Word(mem', ref.page + chain[k]) == Word(mem, ref.page + chain[k])
    {
      assert IsSlot(ref.blk, chain[k]) && InPage(ref.page, ref.page + chain[k]);
    }
    forall o | IsSlot(ref.blk, o)
      ensures ref.page + o in live' <==> o !in chain
    {
      assert InPage(ref.page, ref.page + o);
    }
    assert PageParts(ref, chain, mem', live');
  }

  // ----- Taking a block off the freelist -----

  /** The page ref after its first free block was taken, as the code computes it from
      the word in that block. */
  function Popped(ref: Ref, mem: map<int, int>): Ref
  {
    var next := Word(mem, ref.page + ref.offset);
    ref.(nfree := ref.nfree - 1, offset := if next != 0 then next - ref.page else INVALID_OFFSET)
  }

  /** The assertions of subpage_kmalloc hold, and the block taken was free. */
  lemma PopKeeps(ref: Ref, chain: seq<int>, mem: map<int, int>, live: set<int>)
    requires PageOk(ref, chain, mem, live) && ref.nfree > 0
    ensures var ptr, next, ref' := ref.page + ref.offset, Word(mem, ref.page + ref.offset), Popped(ref, mem);
            && ref.offset < PAGE_SIZE && IsSlot(ref.blk, ref.offset) && ptr !in live
            && (if next != 0 then ref'.nfree > 0 && 0 <= next - ref.page < PAGE_SIZE else ref'.nfree == 0)
            && PageOk(ref', chain[1..], mem, live + {ptr})
  {
    PageOpen(ref, chain, mem, live);
    PopChain(ref.blk, chain);
    PopThreaded(ref, chain, mem);
    PopShared(ref.page, ref.blk, chain, live);
    PopHead(ref, chain, mem);
    assert PageParts(Popped(ref, mem), chain[1..], mem, live + {ref.page + ref.offset});
  }

  lemma LinkAt(mem: map<int, int>, page: int, chain: seq<int>, k: int)
    requires Threaded(mem, page, chain) && 0 <= k < |chain|
    ensures Word(mem, page + chain[k]) == if k + 1 < |chain| then page + chain[k + 1] else 0
  {
  }

  lemma PopHead(ref: Ref, chain: seq<int>, mem: map<int, int>)
    requires |chain| > 0 && ref.offset == chain[0] && Threaded(mem, ref.page, chain) && ref.page > 0
    requires |chain| > 1 ==> chain[1] >= 0
    ensures Popped(ref, mem).offset == Head(chain[1..])
    ensures Word(mem, ref.page + ref.offset) == if |chain| > 1 then ref.page + chain[1] else 0
  {
    LinkAt(mem, ref.page, chain, 0);
    assert |chain| == 1 ==> chain[1..] == [];
    assert |chain| > 1 ==> chain[1..][0] == chain[1];
  }

  lemma PopChain(blk: int, chain: seq<int>)
    requires Distinct(chain) && AreSlots(blk, chain) && chain != []
    ensures Distinct(chain[1..]) && AreSlots(blk, chain[1..]) && IsSlot(blk, chain[0])
    ensures |chain| > 1 ==> IsSlot(blk, chain[1])
  {
    assert forall k :: 0 <= k < |chain[1..]| ==> chain[1..][k] == chain[k + 1];
  }

  lemma PopShared(page: int, blk: int, chain: seq<int>, live: set<int>)
    requires Shared(page, blk, chain, live) && Distinct(chain) && chain != [] && IsSlot(blk, chain[0])
    ensures Shared(page, blk, chain[1..], live + {page + chain[0]}) && page + chain[0] !in live
  {
    var tail := chain[1..];
    assert chain == [chain[0]] + tail;
    assert forall k :: 0 <= k < |tail| ==> tail[k] == chain[k + 1];
    assert chain[0] in chain && chain[0] !in tail;
    forall o | IsSlot(blk, o)
      ensures page + o in live + {page + chain[0]} <==> o !in tail
    {
      assert o in chain <==> o == chain[0] || o in tail;
    }
  }

  lemma PopThreaded(ref: Ref, chain: seq<int>, mem: map<int, int>)
    requires Threaded(mem, ref.page, chain) && chain != []
    ensures Threaded(mem, ref.page, chain[1..])
  {
    var tail := chain[1..];
    forall k | 0 <= k < |tail|
      ensures Word(mem, ref.page + tail[k]) == if k + 1 < |tail| then ref.page + tail[k + 1] else 0
    {
      assert tail[k] == chain[k + 1];
    }
  }

  // ----- Putting a block back -----

  /** Memory and page ref after the block at `offset` was freed. */
  function PushedMem(ref: Ref, mem: map<int, int>, offset: int): map<int, int>
  {
    var ptr := ref.page + offset;
    Filled(mem, ptr, SizeOf(ref.blk) / 4)[ptr := if ref.offset == INVALID_OFFSET then 0 else ref.page + ref.offset]
  }

  function Pushed(ref: Ref, offset: int): Ref
  {
    ref.(offset := offset, nfree := ref.nfree + 1)
  }

  /** Distinct blocks of a page do not overlap. */
  lemma SlotsApart(blk: int, o: int, o': int)
    requires IsSlot(blk, o) && IsSlot(blk, o') && o < o'
    ensures o + SizeOf(blk) <= o'
  {
    var size := SizeOf(blk);
    MulLt(o / size, o' / size, size);
    MulLe(o / size + 1, o' / size, size);
    MulDistr(o / size, 1, size);
  }

  lemma SlotEnds(blk: int, o: int)
    requires IsSlot(blk, o)
    ensures o + SizeOf(blk) <= PAGE_SIZE
  {
    CountFits(blk);
    MulLt(o / SizeOf(blk), Count(blk), SizeOf(blk));
    MulLe(o / SizeOf(blk) + 1, Count(blk), SizeOf(blk));
    MulDistr(o / SizeOf(blk), 1, SizeOf(blk));
  }

  lemma PushedWord(ref: Ref, mem: map<int, int>, offset: int, o: int)
    requires IsSlot(ref.blk, offset) && IsSlot(ref.blk, o) && o != offset
    ensures Word(PushedMem(ref, mem, offset), ref.page + o) == Word(mem, ref.page + o)
  {
    if o < offset {
      SlotsApart(ref.blk, o, offset);
    } else {
      SlotsApart(ref.blk, offset, o);
    }
    FilledOutside(mem, ref.page + offset, SizeOf(ref.blk) / 4, ref.page + o);
  }

  lemma PushThreaded(ref: Ref, chain: seq<int>, mem: map<int, int>, offset: int)
    requires Threaded(mem, ref.page, chain) && ref.offset == Head(chain) && IsSlot(ref.blk, offset) && offset !in chain
    requires AreSlots(ref.blk, chain)
    ensures Threaded(PushedMem(ref, mem, offset), ref.page, [offset] + chain)
  {
    var r, mem' := [offset] + chain, PushedMem(ref, mem, offset);
    forall k | 0 <= k < |r|
      ensures Word(mem', ref.page + r[k]) == if k + 1 < |r| then ref.page + r[k + 1] else 0
    {
      if k > 0 {
        assert r[k] == chain[k - 1] && (k + 1 < |r| ==> r[k + 1] == chain[k]);
        PushedWord(ref, mem, offset, chain[k - 1]);
      } else if chain != [] {
        assert r[1] == chain[0] && IsSlot(ref.blk, chain[0]);
      }
    }
  }

  lemma PushShared(page: int, blk: int, chain: seq<int>, live: set<int>, offset: int)
    requires Shared(page, blk, chain, live) && IsSlot(blk, offset) && page + offset in live
    ensures Shared(page, blk, [offset] + chain, live - {page + offset})
  {
    forall o | IsSlot(blk, o)
      ensures page + o in live - {page + offset} <==> o !in [offset] + chain
    {
      assert o in [offset] + chain <==> o == offset || o in chain;
    }
  }

  lemma PushChain(blk: int, chain: seq<int>, offset: int)
    requires Distinct(chain) && AreSlots(blk, chain) && IsSlot(blk, offset) && offset !in chain
    ensures Distinct([offset] + chain) && AreSlots(blk, [offset] + chain)
  {
  }

  lemma PushKeeps(ref: Ref, chain: seq<int>, mem: map<int, int>, live: set<int>, ptr: int)
    requires PageOk(ref, chain, mem, live) && ptr in live && InPage(ref.page, ptr)
    ensures IsSlot(ref.blk, ptr - ref.page)
    ensures PageOk(Pushed(ref, ptr - ref.page), [ptr - ref.page] + chain, PushedMem(ref, mem, ptr - ref.page), live - {ptr})
  {
    PageOpen(ref, chain, mem, live);
    var offset := ptr - ref.page;
    assert IsSlot(ref.blk, offset) && ref.page + offset == ptr;
    assert offset !in chain;
    PushThreaded(ref, chain, mem, offset);
    PushShared(ref.page, ref.blk, chain, live, offset);
    PushChain(ref.blk, chain, offset);
    assert PageParts(Pushed(ref, ptr - ref.page), [ptr - ref.page] + chain, PushedMem(ref, mem, ptr - ref.page), live - {ptr});
  }

  /** Freeing a block writes only inside it. */
  lemma PushWritesInside(ref: Ref, mem: map<int, int>, offset: int, a: int)
    requires a < ref.page + offset || ref.page + offset + SizeOf(ref.blk) <= a
    ensures Word(PushedMem(ref, mem, offset), a) == Word(mem, a)
  {
    FilledOutside(mem, ref.page + offset, SizeOf(ref.blk) / 4, a);
  }

  // ----- A fresh page -----

  /** Memory after the first n blocks of a page were threaded, each to the one before. */
  function ThreadedMem(mem: map<int, int>, page: int, size: int, n: int): map<int, int>
    requires n >= 1
    decreases n
  {
    if n == 1 then mem[page := 0]
    else ThreadedMem(mem, page, size, n - 1)[page + (n - 1) * size := page + (n - 2) * size]
  }

  /** The freelist of a fresh page runs through its blocks from the last to the first. */
  function FullChain(size: int, n: int): (r: seq<int>)
    requires n >= 0
    ensures |r| == n && forall k :: 0 <= k < n ==> r[k] == (n - 1 - k) * size
    decreases n
  {
    seq(n, k requires 0 <= k < n => (n - 1 - k) * size)
  }

  lemma {:induction false} ThreadedWord(mem: map<int, int>, page: int, size: int, n: int, k: int)
    requires 0 <= k < n && size > 0
    ensures Word(ThreadedMem(mem, page, size, n), page + k * size) == if k == 0 then 0 else page + (k - 1) * size
    decreases n
  {
    if k < n - 1 {
      ThreadedWord(mem, page, size, n - 1, k);
      MulLe(k, n - 2, size);
      MulDistr(n - 2, 1, size);
    }
  }

  lemma {:induction false} ThreadedOutside(mem: map<int, int>, page: int, size: int, n: int, a: int)
    requires n >= 1 && size > 0 && (a < page || page + n * size <= a)
    ensures Word(ThreadedMem(mem, page, size, n), a) == Word(mem, a)
    decreases n
  {
    MulDistr(n - 1, 1, size);
    MulLe(0, n - 1, size);
    if n > 1 {
      ThreadedOutside(mem, page, size, n - 1, a);
    }
  }

  lemma FullThreaded(mem: map<int, int>, page: int, size: int, n: int)
    requires n >= 1 && size > 0
    ensures Threaded(ThreadedMem(mem, page, size, n), page, FullChain(size, n))
  {
    var chain := FullChain(size, n);
    forall k | 0 <= k < n
      ensures Word(ThreadedMem(mem, page, size, n), page + chain[k]) == if k + 1 < n then page + chain[k + 1] else 0
    {
      ThreadedWord(mem, page, size, n, n - 1 - k);
    }
  }

  /** The full chain has every block of the page, once. */
  lemma FullChainHasAll(blk: int)
    ensures Distinct(FullChain(SizeOf(blk), Count(blk)))
    ensures forall o :: IsSlot(blk, o) <==> o in FullChain(SizeOf(blk), Count(blk))
  {
    var size, n := SizeOf(blk), Count(blk);
    var chain := FullChain(size, n);
    CountFits(blk);
    forall i, j | 0 <= i < j < n
      ensures chain[i] != chain[j]
    {
      MulStrict(n - 1 - j, n - 1 - i, size);
    }
    forall o
      ensures IsSlot(blk, o) <==> o in chain
    {
      if IsSlot(blk, o) {
        SlotNumber(size, n, o);
        assert chain[n - 1 - o / size] == o;
      } else if o in chain {
        var k :| 0 <= k < n && chain[k] == o;
        SlotOf(size, n, n - 1 - k);
        assert false;
      }
    }
  }

  lemma SlotNumber(size: int, n: int, o: int)
    requires size > 0 && n * size == PAGE_SIZE && 0 <= o < PAGE_SIZE && o % size == 0
    ensures 0 <= o / size < n && o / size * size == o
  {
    MulLt(o / size, n, size);
  }

  lemma SlotOf(size: int, n: int, k: int)
    requires size > 0 && n * size == PAGE_SIZE && 0 <= k < n
    ensures 0 <= k * size < PAGE_SIZE && (k * size) % size == 0
  {
    MulStrict(k, n, size);
    MulLe(0, k, size);
    DivModUnique(k * size, size, k, 0);
  }

  /** A page straight from alloc_kpages, made ready: nothing on it is live. */
  lemma FreshPageOk(mem: map<int, int>, page: int, blk: int, live: set<int>)
    requires 0 <= blk < NSIZES && page > 0 && page % PAGE_SIZE == 0
    requires forall a :: a in live ==> !InPage(page, a)
    ensures PageOk(Ref(page, blk, (Count(blk) - 1) * SizeOf(blk), Count(blk)), FullChain(SizeOf(blk), Count(blk)),
                   ThreadedMem(mem, page, SizeOf(blk), Count(blk)), live)
  {
    var chain := FullChain(SizeOf(blk), Count(blk));
    FullThreaded(mem, page, SizeOf(blk), Count(blk));
    FullChainHasAll(blk);
    forall o | IsSlot(blk, o)
      ensures page + o !in live
    {
      assert InPage(page, page + o);
    }
    forall k | 0 <= k < |chain|
      ensures IsSlot(blk, chain[k])
    {
      assert chain[k] in chain;
    }
    assert PageParts(Ref(page, blk, (Count(blk) - 1) * SizeOf(blk), Count(blk)), chain, ThreadedMem(mem, page, SizeOf(blk), Count(blk)), live);
  }

  // ----- Counting -----

  function Elements(s: seq<int>): set<int>
  {
    set x | x in s
  }

  lemma {:induction false} DistinctCount(s: seq<int>)
    requires Distinct(s)
    ensures |Elements(s)| == |s|
  {
    if s == [] {
      assert Elements(s) == {};
    } else {
      var tail := s[1..];
      assert forall k :: 0 <= k < |tail| ==> tail[k] == s[k + 1];
      DistinctCount(tail);
      assert s == [s[0]] + tail;
      assert Elements(s) == Elements(tail) + {s[0]};
      assert s[0] !in tail;
    }
  }

  /** The live blocks of a page, by address and by offset. */
  function LiveOn(page: int, live: set<int>): set<int>
  {
    set a | a in live && InPage(page, a)
  }

  function Offsets(page: int, s: set<int>): set<int>
  {
    set a | a in s :: a - page
  }

  lemma OffsetIn(page: int, s: set<int>, o: int)
    ensures o in Offsets(page, s) <==> page + o in s
  {
    if page + o in s {
      assert page + o - page in Offsets(page, s);
    }
  }

  /** Free and live blocks of a page together are all its blocks. */
  lemma FreePlusLive(ref: Ref, chain: seq<int>, mem: map<int, int>, live: set<int>)
    requires PageOk(ref, chain, mem, live)
    ensures ref.nfree + |LiveOn(ref.page, live)| == Count(ref.blk)
  {
    PageOpen(ref, chain, mem, live);
    var full := FullChain(SizeOf(ref.blk), Count(ref.blk));
    FullChainHasAll(ref.blk);
    DistinctCount(full);
    DistinctCount(chain);
    var offsets := Offsets(ref.page, LiveOn(ref.page, live));
    SameCount(LiveOn(ref.page, live), ref.page);
    SplitSlots(ref.page, ref.blk, chain, live, full);
    assert |Elements(chain) + offsets| == |Elements(chain)| + |offsets|;
  }

  lemma SplitSlots(page: int, blk: int, chain: seq<int>, live: set<int>, full: seq<int>)
    requires Shared(page, blk, chain, live) && AreSlots(blk, chain) && forall o :: IsSlot(blk, o) <==> o in full
    ensures Elements(full) == Elements(chain) + Offsets(page, LiveOn(page, live))
    ensures Elements(chain) !! Offsets(page, LiveOn(page, live))
  {
    forall o
      ensures o in Elements(full) <==> o in Elements(chain) || o in Offsets(page, LiveOn(page, live))
      ensures !(o in Elements(chain) && o in Offsets(page, LiveOn(page, live)))
    {
      OffsetIn(page, LiveOn(page, live), o);
      assert o in chain ==> IsSlot(blk, o);
      assert IsSlot(blk, o) ==> InPage(page, page + o);
      assert page + o in LiveOn(page, live) ==> IsSlot(blk, page + o - page);
    }
  }

  lemma {:induction false} SameCount(s: set<int>, page: int)
    ensures |Offsets(page, s)| == |s|
    decreases |s|
  {
    NotEmpty(s);
    if s == {} {
      assert Offsets(page, s) == {};
    } else {
      var x :| x in s;
      SameCount(s - {x}, page);
      OffsetIn(page, s - {x}, x - page);
      forall o
        ensures o in Offsets(page, s) <==> o in Offsets(page, s - {x}) + {x - page}
      {
        OffsetIn(page, s, o);
        OffsetIn(page, s - {x}, o);
      }
      assert Offsets(page, s) == Offsets(page, s - {x}) + {x - page};
    }
  }

  /** A page with all its blocks free has no live block. */
  lemma FullyFree(ref: Ref, chain: seq<int>, mem: map<int, int>, live: set<int>, a: int)
    requires PageOk(ref, chain, mem, live) && ref.nfree == Count(ref.blk) && InPage(ref.page, a)
    ensures a !in live
  {
    FreePlusLive(ref, chain, mem, live);
    assert |LiveOn(ref.page, live)| == 0;
    assert a !in LiveOn(ref.page, live);
  }

  lemma LiveIsSlot(ref: Ref, chain: seq<int>, mem: map<int, int>, live: set<int>, a: int)
    requires PageOk(ref, chain, mem, live) && a in live && InPage(ref.page, a)
    ensures IsSlot(ref.blk, a - ref.page) && a + SizeOf(ref.blk) <= ref.page + PAGE_SIZE
  {
    PageOpen(ref, chain, mem, live);
    SlotEnds(ref.blk, a - ref.page);
  }
}
