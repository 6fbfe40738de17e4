/** kmalloc.c: the code between taking and releasing kmalloc_spinlock, on the page
    references, the lists and the memory in place. Each method is one step of the
    machine in SubpageHeap. */
module SubpageCode {
  import opened SubpagePages
  import opened SubpageHeap
  import opened SubpageSafety
  import Words

  /** The machine can take this step: the code may be run. Folded. */
  ghost predicate Called(s: Heap, e: Event)
  {
    forall k: int {:trigger Words.Spelled(k)} :: k == 0 ==> Inv(s) && CanStep(s, e)
  }

  /** The code has taken the step, with all its assertions. Folded. */
  ghost predicate Returned(s: Heap, e: Event, s': Heap)
  {
    forall k: int {:trigger Words.Spelled(k)} :: k == 0 ==>
      Shape(s) && CanStep(s, e) && Checks(s, e) && s' == Stepped(s, e) && Inv(s')
  }

  /** The assertions of `doalloc` on page r. Folded. */
  ghost predicate CanPop(s: Heap, r: int)
  {
    forall k: int {:trigger Words.Spelled(k)} :: k == 0 ==> Shape(s) && 0 <= r < NPAGEREFS && PopChecks(s, r)
  }

  ghost predicate Popping(s: Heap, r: int, s': Heap)
  {
    forall k: int {:trigger Words.Spelled(k)} :: k == 0 ==> Shape(s) && 0 <= r < NPAGEREFS && s.chains[r] != [] && s' == AllocFrom(s, r)
  }

  lemma OpenCalled(s: Heap, e: Event)
    requires Called(s, e)
    ensures Inv(s) && CanStep(s, e)
  {
    assert Words.Spelled(0);
  }

  /** What the code needs to find its way around. */
  lemma Sizes(s: Heap, e: Event)
    requires Called(s, e)
    ensures |s.refs| == |s.inuse| == NPAGEREFS && |s.bases| == NSIZES && InRange(s.all)
    ensures forall b :: 0 <= b < NSIZES ==> InRange(s.bases[b])
    ensures match e case Kmalloc(_, sz) => 0 <= sz < 2048 case Install(t) => t in s.pc && s.pc[t].HasPage? && 0 <= s.pc[t].blk < NSIZES case _ => true
  {
    OpenCalled(s, e);
  }

  /** No page of the right size has a free block. */
  lemma StartsWithout(s: Heap, t: int, sz: int)
    requires Called(s, Kmalloc(t, sz)) && 0 <= sz < 2048 && |s.bases| == NSIZES && InRange(s.bases[ClassFor(sz)]) && |s.refs| == NPAGEREFS
    requires FirstWithFree(s.refs, s.bases[ClassFor(sz)]) == -1
    ensures Returned(s, Kmalloc(t, sz), s.(pc := s.pc[t := WantsPage(ClassFor(sz))]))
  {
    OpenCalled(s, Kmalloc(t, sz));
    KmallocStep(s, t, sz);
  }

  lemma StartsWith(s: Heap, t: int, sz: int, r: int, s': Heap)
    requires Called(s, Kmalloc(t, sz)) && 0 <= sz < 2048 && |s.bases| == NSIZES && InRange(s.bases[ClassFor(sz)]) && |s.refs| == NPAGEREFS
    requires r == FirstWithFree(s.refs, s.bases[ClassFor(sz)]) != -1
    ensures CanPop(s, r) && s.refs[r].blk == ClassFor(sz) && s.refs[r].page + s.refs[r].offset !in s.live + {0}
    ensures Popping(s, r, s') ==> Returned(s, Kmalloc(t, sz), s')
  {
    OpenCalled(s, Kmalloc(t, sz));
    KmallocStep(s, t, sz);
    KmallocGives(s, t, sz, r);
    OffPageZero(s, r);
    if Popping(s, r, s') {
      assert Words.Spelled(0);
    }
  }

  lemma InstallsNot(s: Heap, t: int)
    requires Called(s, Install(t)) && |s.inuse| == NPAGEREFS && t in s.pc && s.pc[t].HasPage? && LowestClear(s.inuse, 0) == -1
    ensures Returned(s, Install(t), s.(pc := s.pc[t := Dropping(s.pc[t].page)]))
  {
    OpenCalled(s, Install(t));
    InstallStep(s, t);
  }

  lemma InstallPops(s: Heap, t: int, r: int, s1: Heap)
    requires Called(s, Install(t)) && |s.inuse| == NPAGEREFS && r == LowestClear(s.inuse, 0) != -1 && MadeReady(s, t, r, s1)
    ensures CanPop(s1, r)
  {
    OpenCalled(s, Install(t));
    OpenReady(s, t, r, s1);
    FreshPops(s, t, r);
    assert Shape(s1) && PopChecks(s1, r);
  }

  lemma Installs(s: Heap, t: int, r: int, s1: Heap, s': Heap)
    requires Called(s, Install(t)) && |s.inuse| == NPAGEREFS && r == LowestClear(s.inuse, 0) != -1 && MadeReady(s, t, r, s1)
    requires Popping(s1, r, s')
    ensures Returned(s, Install(t), s')
  {
    OpenCalled(s, Install(t));
    OpenReady(s, t, r, s1);
    OpenPopping(s1, r, s');
    InstallStep(s, t);
    assert s' == Stepped(s, Install(t));
  }

  lemma OpenReady(s: Heap, t: int, r: int, s1: Heap)
    requires MadeReady(s, t, r, s1)
    ensures Shape(s) && 0 <= r < NPAGEREFS && t in s.pc && s.pc[t].HasPage? && 0 <= s.pc[t].blk < NSIZES
    ensures s1 == WithPage(s, r, s.pc[t].page, s.pc[t].blk).(pc := s.pc[t := Idle])
  {
    assert Words.Spelled(0);
  }

  lemma OpenPopping(s: Heap, r: int, s': Heap)
    requires Popping(s, r, s')
    ensures Shape(s) && 0 <= r < NPAGEREFS && s.chains[r] != [] && s' == AllocFrom(s, r)
  {
    assert Words.Spelled(0);
  }

  /** The page has been put on the lists and its thread is done. Folded. */
  ghost predicate MadeReady(s: Heap, t: int, r: int, s1: Heap)
  {
    forall k: int {:trigger Words.Spelled(k)} :: k == 0 ==>
      && Shape(s) && 0 <= r < NPAGEREFS && t in s.pc && s.pc[t].HasPage? && 0 <= s.pc[t].blk < NSIZES
      && s1 == WithPage(s, r, s.pc[t].page, s.pc[t].blk).(pc := s.pc[t := Idle])
  }

  lemma FreesNothing(s: Heap, t: int, ptr: int)
    requires Called(s, Kfree(t, ptr)) && |s.refs| == NPAGEREFS && InRange(s.all) && FirstWith(s.refs, s.all, ptr) == -1
    ensures Returned(s, Kfree(t, ptr), s) && ptr !in s.live
  {
    OpenCalled(s, Kfree(t, ptr));
    KfreeStep(s, t, ptr);
    if ptr in s.live {
      LiveIsFound(s, ptr);
    }
  }

  /** The assertions of subpage_kfree. */
  lemma Frees(s: Heap, t: int, ptr: int, r: int)
    requires Called(s, Kfree(t, ptr)) && |s.refs| == NPAGEREFS && InRange(s.all) && r == FirstWith(s.refs, s.all, ptr) != -1
    ensures |s.chains| == |s.inuse| == NPAGEREFS == |s.refs| && |s.bases| == NSIZES && 0 <= r < NPAGEREFS && s.inuse[r] && 0 <= s.refs[r].blk < NSIZES
    ensures IsSlot(s.refs[r].blk, ptr - s.refs[r].page) && s.refs[r].nfree + 1 <= Count(s.refs[r].blk) && s.refs[r].page > 0
  {
    OpenCalled(s, Kfree(t, ptr));
    KfreeChecks(s, t, ptr);
    RealPage(s, r);
  }

  lemma KfreeChecks(s: Heap, t: int, ptr: int)
    requires Inv(s) && CanStep(s, Kfree(t, ptr))
    ensures Checks(s, Kfree(t, ptr))
  {
    KfreeStep(s, t, ptr);
  }

  lemma RealPage(s: Heap, r: int)
    requires Inv(s) && r in s.all
    ensures 0 <= r < NPAGEREFS && s.inuse[r] && s.refs[r].page > 0 && 0 <= s.refs[r].blk < NSIZES
  {
    assert RefOk(s, r);
    PageOpen(s.refs[r], s.chains[r], s.mem, s.live);
  }

  lemma FreesAndKeeps(s: Heap, t: int, ptr: int, r: int)
    requires Called(s, Kfree(t, ptr)) && |s.refs| == NPAGEREFS && InRange(s.all) && r == FirstWith(s.refs, s.all, ptr) != -1
    requires Shape(s) && s.refs[r].nfree + 1 != Count(s.refs[r].blk)
    ensures Returned(s, Kfree(t, ptr), FreeTo(s, r, ptr))
  {
    OpenCalled(s, Kfree(t, ptr));
    KfreeStep(s, t, ptr);
  }

  lemma FreesAndDrops(s: Heap, t: int, ptr: int, r: int)
    requires Called(s, Kfree(t, ptr)) && |s.refs| == NPAGEREFS && InRange(s.all) && r == FirstWith(s.refs, s.all, ptr) != -1
    requires Shape(s) && 0 <= s.refs[r].blk < NSIZES && s.refs[r].nfree + 1 == Count(s.refs[r].blk)
    ensures Returned(s, Kfree(t, ptr), WithoutPage(FreeTo(s, r, ptr), r).(pc := s.pc[t := Dropping(s.refs[r].page)]))
  {
    OpenCalled(s, Kfree(t, ptr));
    KfreeStep(s, t, ptr);
  }

  class Allocator {
    const pagerefs: array<Ref>
    const inuse: array<bool>
    var sizebases: seq<seq<int>>
    var allbase: seq<int>
    /** Words of memory. */
    var mem: map<int, int>
    ghost var live: set<int>
    ghost var chains: seq<seq<int>>

    /** The state of the machine, with the threads at pc. */
    ghost function State(pc: map<int, Pc>): Heap
      reads this, pagerefs, inuse
    {
      Heap(pagerefs[..], inuse[..], sizebases, allbase, mem, live, chains, pc)
    }

    /** No pages yet. */
    constructor ()
      ensures forall pc: map<int, Pc> :: (forall t :: t in pc ==> pc[t] == Idle) ==> Inv(State(pc))
      ensures live == {} && fresh(pagerefs) && fresh(inuse)
    {
      pagerefs := new Ref[NPAGEREFS](_ => Ref(0, 0, 0, 0));
      inuse := new bool[NPAGEREFS](_ => false);
      sizebases, allbase, mem := seq(NSIZES, _ => []), [], map[];
      live, chains := {}, seq(NPAGEREFS, _ => []);
    }

    // ----- Page references -----

    /** allocpageref: word by word and bit by bit, the lowest bit that is clear. */
    method AllocPageref() returns (r: int)
      requires inuse.Length == NPAGEREFS
      modifies inuse
      ensures r == LowestClear(old(inuse[..]), 0)
      ensures inuse[..] == if r == -1 then old(inuse[..]) else old(inuse[..])[r := true]
    {
      ghost var was := inuse[..];
      for i := 0 to NPAGEREFS / 32
        invariant inuse[..] == was && LowestClear(was, 0) == LowestClear(was, i * 32)
      {
        if inuse[i * 32..i * 32 + 32] != Ones() {
          for j := 0 to 32
            invariant inuse[..] == was && LowestClear(was, 0) == LowestClear(was, i * 32 + j)
          {
            if !inuse[i * 32 + j] {
              inuse[i * 32 + j] := true;
              return i * 32 + j;
            }
          }
        } else {
          AllOnes(was, i * 32, 0);
        }
      }
      r := -1;
    }

    /** freepageref */
    method FreePageref(r: int)
      requires 0 <= r < inuse.Length && inuse[r]
      modifies inuse
      ensures inuse[..] == old(inuse[..])[r := false]
    {
      inuse[r] := false;
    }

    /** remove_lists */
    method RemoveLists(r: int, blk: int)
      requires 0 <= blk < |sizebases|
      modifies this`sizebases, this`allbase
      ensures sizebases == old(sizebases)[blk := Without(old(sizebases)[blk], r)] && allbase == Without(old(allbase), r)
    {
      var q := Unlink(sizebases[blk], r);
      sizebases := sizebases[blk := q];
      allbase := Unlink(allbase, r);
    }

    // ----- Memory -----

    /** fill_deadbeef */
    method FillDeadbeef(ptr: int, len: int)
      requires len >= 0
      modifies this`mem
      ensures mem == Filled(old(mem), ptr, len / 4)
    {
      for i := 0 to len / 4
        invariant mem == Filled(old(mem), ptr, i)
      {
        mem := mem[ptr + 4 * i := DEADBEEF];
      }
    }

    /** The loop that threads the freelist through a new page. */
    method BuildFreelist(page: int, size: int, nfree: int) returns (fl: int)
      requires nfree >= 1 && size > 0
      modifies this`mem
      ensures mem == ThreadedMem(old(mem), page, size, nfree) && fl - page == (nfree - 1) * size
    {
      fl := page;
      mem := mem[fl := 0];
      var i := 1;
      while i < nfree
        invariant 1 <= i <= nfree && mem == ThreadedMem(old(mem), page, size, i) && fl == page + (i - 1) * size
      {
        fl := page + i * size;
        mem := mem[fl := page + (i - 1) * size];
        i := i + 1;
      }
    }

    // ----- subpage_kmalloc -----

    /** The search for a page of the right size with a free block. */
    method FindFree(blk: int) returns (r: int)
      requires 0 <= blk < |sizebases| && forall k :: 0 <= k < |sizebases[blk]| ==> 0 <= sizebases[blk][k] < pagerefs.Length
      ensures r == FirstWithFree(pagerefs[..], sizebases[blk])
    {
      ghost var list := sizebases[blk];
      assert list[0..] == list;
      var i := 0;
      while i < |sizebases[blk]|
        invariant 0 <= i <= |list| && FirstWithFree(pagerefs[..], list) == FirstWithFree(pagerefs[..], list[i..])
      {
        if pagerefs[sizebases[blk][i]].nfree > 0 {
          return sizebases[blk][i];
        }
        assert list[i..][1..] == list[i + 1..];
        i := i + 1;
      }
      r := -1;
    }

    /** `doalloc`: take the first free block of the page. */
    method DoAlloc(r: int, ghost pc: map<int, Pc>) returns (ptr: int)
      requires CanPop(State(pc), r) && 0 <= r < pagerefs.Length
      modifies this`live, this`chains, pagerefs
      ensures Popping(old(State(pc)), r, State(pc)) && ptr == old(pagerefs[r].page + pagerefs[r].offset) && live == old(live) + {ptr}
    {
      ghost var was := State(pc);
      assert Words.Spelled(0);
      var pr := pagerefs[r];
      assert pr.offset < PAGE_SIZE;
      ptr := pr.page + pr.offset;
      var fl := Word(mem, ptr);
      pr := pr.(nfree := pr.nfree - 1);
      if fl != 0 {
        assert pr.nfree > 0 && 0 <= fl - pr.page < PAGE_SIZE;
        pr := pr.(offset := fl - pr.page);
      } else {
        assert pr.nfree == 0;
        pr := pr.(offset := INVALID_OFFSET);
      }
      pagerefs[r] := pr;
      assert pagerefs[..] == was.refs[r := pr];
      live, chains := live + {ptr}, chains[r := chains[r][1..]];
      assert State(pc) == AllocFrom(was, r);
    }

    /** subpage_kmalloc, up to where it needs a page: ptr is 0 then. */
    method KmallocStart(sz: int, ghost t: int, ghost pc: map<int, Pc>) returns (ptr: int, blk: int, ghost pc': map<int, Pc>)
      requires Called(State(pc), Kmalloc(t, sz))
      modifies this, pagerefs, inuse
      ensures Returned(old(State(pc)), Kmalloc(t, sz), State(pc'))
      ensures pc' == if ptr == 0 then pc[t := WantsPage(blk)] else pc
      ensures ptr != 0 ==> ptr !in old(live) && live == old(live) + {ptr}
    {
      ghost var s := State(pc);
      Sizes(s, Kmalloc(t, sz));
      blk := BlockType(sz);
      var r := FindFree(blk);
      if r == -1 {
        StartsWithout(s, t, sz);
        ptr, pc' := 0, pc[t := WantsPage(blk)];
        assert State(pc') == s.(pc := pc');
        return;
      }
      StartsWith(s, t, sz, r, s);
      assert pagerefs[r].blk == blk;
      pc' := pc;
      ptr := DoAlloc(r, pc);
      StartsWith(s, t, sz, r, State(pc));
    }

    /** subpage_kmalloc once it has a page and the lock again. Without a page reference
        the page goes back, and ptr is 0. */
    method KmallocInstall(page: int, blk: int, ghost t: int, ghost pc: map<int, Pc>) returns (ptr: int, ghost pc': map<int, Pc>)
      requires Called(State(pc), Install(t)) && t in pc && pc[t] == HasPage(blk, page) && page > 0
      modifies this, pagerefs, inuse
      ensures Returned(old(State(pc)), Install(t), State(pc'))
      ensures pc' == if ptr == 0 then pc[t := Dropping(page)] else pc[t := Idle]
      ensures ptr != 0 ==> ptr == page + (Count(blk) - 1) * SizeOf(blk) && live == old(live) + {ptr}
    {
      ghost var s := State(pc);
      Sizes(s, Install(t));
      var r := AllocPageref();
      if r == -1 {
        InstallsNot(s, t);
        ptr, pc' := 0, pc[t := Dropping(page)];
        assert State(pc') == s.(pc := pc');
        return;
      }
      pc' := pc[t := Idle];
      ghost var mid := State(pc);
      assert inuse[..][r := false] == s.inuse;
      assert mid.(inuse := inuse[..][r := false]) == s;
      MakePage(r, page, blk, t, pc);
      ghost var s1 := State(pc');
      InstallPops(s, t, r, s1);
      ptr := DoAlloc(r, pc');
      Installs(s, t, r, s1, State(pc'));
    }

    /** A page reference for the new page, its freelist, and the heads of both lists. */
    method MakePage(r: int, page: int, blk: int, ghost t: int, ghost pc: map<int, Pc>)
      requires pagerefs.Length == inuse.Length == NPAGEREFS && |sizebases| == NSIZES && 0 <= blk < NSIZES
      requires 0 <= r < NPAGEREFS && inuse[r] && t in pc && pc[t] == HasPage(blk, page)
      requires Called(State(pc).(inuse := inuse[..][r := false]), Install(t))
      modifies this`sizebases, this`allbase, this`mem, this`chains, pagerefs
      ensures MadeReady(old(State(pc)).(inuse := old(inuse[..])[r := false]), t, r, State(pc[t := Idle]))
      ensures pagerefs[r] == Ref(page, blk, (Count(blk) - 1) * SizeOf(blk), Count(blk))
    {
      ghost var was := State(pc).(inuse := inuse[..][r := false]);
      OpenCalled(was, Install(t));
      var nfree := PAGE_SIZE / SizeOf(blk);
      var fl := BuildFreelist(page, SizeOf(blk), nfree);
      pagerefs[r] := Ref(page, blk, fl - page, nfree);
      assert pagerefs[..] == was.refs[r := pagerefs[r]];
      assert inuse[..] == was.inuse[r := true];
      sizebases := sizebases[blk := [r] + sizebases[blk]];
      allbase := [r] + allbase;
      chains := chains[r := FullChain(SizeOf(blk), Count(blk))];
      assert State(pc[t := Idle]) == WithPage(was, r, page, blk).(pc := pc[t := Idle]);
    }

    // ----- subpage_kfree -----

    /** The search for the page an address is on. */
    method FindPage(ptr: int) returns (r: int)
      requires forall k :: 0 <= k < |allbase| ==> 0 <= allbase[k] < pagerefs.Length
      ensures r == FirstWith(pagerefs[..], allbase, ptr)
    {
      assert allbase[0..] == allbase;
      var i := 0;
      while i < |allbase|
        invariant 0 <= i <= |allbase| && FirstWith(pagerefs[..], allbase, ptr) == FirstWith(pagerefs[..], allbase[i..], ptr)
      {
        var prpage := pagerefs[allbase[i]].page;
        if prpage <= ptr < prpage + PAGE_SIZE {
          return allbase[i];
        }
        assert allbase[i..][1..] == allbase[i + 1..];
        i := i + 1;
      }
      r := -1;
    }

    /** subpage_kfree: `ours` is false for an address on none of the pages, and `drop` is
        the page to give back once the lock is released, or 0. */
    method Kfree(ptr: int, ghost t: int, ghost pc: map<int, Pc>) returns (ours: bool, drop: int, ghost pc': map<int, Pc>)
      requires Called(State(pc), SubpageHeap.Kfree(t, ptr))
      modifies this, pagerefs, inuse
      ensures Returned(old(State(pc)), SubpageHeap.Kfree(t, ptr), State(pc'))
      ensures live == old(live) - {ptr} && (ptr in old(live) ==> ours)
      ensures pc' == if drop == 0 then pc else pc[t := Dropping(drop)]
    {
      ghost var s, e := State(pc), SubpageHeap.Kfree(t, ptr);
      Sizes(s, e);
      pc' := pc;
      var r := FindPage(ptr);
      if r == -1 {
        FreesNothing(s, t, ptr);
        assert live - {ptr} == live;
        return false, 0, pc;
      }
      Frees(s, t, ptr, r);
      var pr := pagerefs[r];
      ours, drop := true, 0;
      PutBack(r, ptr, t, pc);
      // the last block back on its page: the page goes
      if pagerefs[r].nfree == PAGE_SIZE / SizeOf(pr.blk) {
        RemoveLists(r, pr.blk);
        FreePageref(r);
        drop, pc' := pr.page, pc[t := Dropping(pr.page)];
        DropsPage(s, t, ptr, r, State(pc'));
      } else {
        KeepsPage(s, t, ptr, r, State(pc));
      }
    }

    /** The block overwritten and put at the head of its freelist. */
    method PutBack(r: int, ptr: int, ghost t: int, ghost pc: map<int, Pc>)
      requires pagerefs.Length == NPAGEREFS == |chains| && 0 <= r < NPAGEREFS && Called(State(pc), SubpageHeap.Kfree(t, ptr))
      requires IsSlot(pagerefs[r].blk, ptr - pagerefs[r].page) && pagerefs[r].nfree + 1 <= Count(pagerefs[r].blk)
      modifies this`mem, this`live, this`chains, pagerefs
      ensures State(pc) == Freed(old(State(pc)), r, ptr)
      ensures live == old(live) - {ptr}
    {
      ghost var s := State(pc);
      var pr := pagerefs[r];
      var offset := ptr - pr.page;
      assert offset < PAGE_SIZE && offset % SizeOf(pr.blk) == 0;
      FillDeadbeef(ptr, SizeOf(pr.blk));
      mem := mem[ptr := if pr.offset == INVALID_OFFSET then 0 else pr.page + pr.offset];
      pagerefs[r] := pr.(offset := offset, nfree := pr.nfree + 1);
      assert pagerefs[r].nfree <= PAGE_SIZE / SizeOf(pr.blk);
      assert pagerefs[..] == s.refs[r := pagerefs[r]];
      live, chains := live - {ptr}, chains[r := [offset] + chains[r]];
    }
  }

  /** FreeTo, wherever there is such a page. */
  ghost function Freed(s: Heap, r: int, ptr: int): (s': Heap)
    requires 0 <= r < |s.refs| == |s.chains|
    ensures Shape(s) && 0 <= r < NPAGEREFS ==> s' == FreeTo(s, r, ptr)
  {
    var ref := s.refs[r];
    s.(refs := s.refs[r := Pushed(ref, ptr - ref.page)], mem := PushedMem(ref, s.mem, ptr - ref.page),
       chains := s.chains[r := [ptr - ref.page] + s.chains[r]], live := s.live - {ptr})
  }

  lemma KeepsPage(s: Heap, t: int, ptr: int, r: int, s': Heap)
    requires Called(s, SubpageHeap.Kfree(t, ptr)) && |s.refs| == NPAGEREFS == |s.chains| && InRange(s.all) && r == FirstWith(s.refs, s.all, ptr) != -1
    requires s.refs[r].nfree + 1 != Count(s.refs[r].blk) && s' == Freed(s, r, ptr)
    ensures Returned(s, SubpageHeap.Kfree(t, ptr), s')
  {
    OpenCalled(s, SubpageHeap.Kfree(t, ptr));
    FreesAndKeeps(s, t, ptr, r);
  }

  lemma DropsPage(s: Heap, t: int, ptr: int, r: int, s': Heap)
    requires Called(s, SubpageHeap.Kfree(t, ptr)) && |s.refs| == |s.inuse| == NPAGEREFS == |s.chains| && InRange(s.all) && r == FirstWith(s.refs, s.all, ptr) != -1
    requires s.refs[r].nfree + 1 == Count(s.refs[r].blk) && |s.bases| == NSIZES && 0 <= s.refs[r].blk < NSIZES
    requires var blk := s.refs[r].blk;
             s' == Freed(s, r, ptr).(bases := s.bases[blk := Without(s.bases[blk], r)], all := Without(s.all, r), inuse := s.inuse[r := false],
                                     pc := s.pc[t := Dropping(s.refs[r].page)])
    ensures Returned(s, SubpageHeap.Kfree(t, ptr), s')
  {
    OpenCalled(s, SubpageHeap.Kfree(t, ptr));
    FreesAndDrops(s, t, ptr, r);
  }

  function Ones(): (w: seq<bool>)
  {
    seq(32, _ => true)
  }

  /** A word without a clear bit is passed over. */
  lemma {:induction false} AllOnes(inuse: seq<bool>, i: nat, j: nat)
    requires i + 32 <= |inuse| && inuse[i..i + 32] == Ones() && j <= 32
    ensures LowestClear(inuse, i + j) == LowestClear(inuse, i + 32)
    decreases 32 - j
  {
    if j < 32 {
      assert inuse[i + j] == inuse[i..i + 32][j];
      AllOnes(inuse, i, j + 1);
    }
  }

  lemma {:induction false} WithoutStep(list: seq<int>, i: nat, r: int)
    requires i < |list|
    ensures Without(list[i..], r) == if list[i] == r then list[i + 1..] else [list[i]] + Without(list[i + 1..], r)
  {
    assert list[i..][0] == list[i] && list[i..][1..] == list[i + 1..];
  }

  lemma Rejoin(list: seq<int>, i: nat, q: seq<int>)
    requires i < |list|
    ensures list[..i] + ([list[i]] + q) == list[..i + 1] + q
  {
  }

  /** A list without the first element that is r. */
  method Unlink(list: seq<int>, r: int) returns (q: seq<int>)
    ensures q == Without(list, r)
  {
    var i := 0;
    assert list[..0] == [] && list[0..] == list;
    while i < |list|
      invariant 0 <= i <= |list| && Without(list, r) == list[..i] + Without(list[i..], r)
    {
      WithoutStep(list, i, r);
      if list[i] == r {
        return list[..i] + list[i + 1..];
      }
      Rejoin(list, i, Without(list[i + 1..], r));
      i := i + 1;
    }
    assert list[..i] + [] == list;
    q := list;
  }

  /** No block is at address 0. */
  lemma OffPageZero(s: Heap, r: int)
    requires Inv(s) && r in s.all && 0 <= r < NPAGEREFS && s.refs[r].nfree > 0
    ensures s.refs[r].page + s.refs[r].offset > 0
  {
    assert RefOk(s, r);
    PopKeeps(s.refs[r], s.chains[r], s.mem, s.live);
    PageOpen(s.refs[r], s.chains[r], s.mem, s.live);
  }

  /** The assertions of `doalloc` on a page just made ready. */
  lemma FreshPops(s: Heap, t: int, r: int)
    requires Inv(s) && CanStep(s, Install(t)) && r == LowestClear(s.inuse, 0) != -1
    ensures Shape(WithPage(s, r, s.pc[t].page, s.pc[t].blk)) && PopChecks(WithPage(s, r, s.pc[t].page, s.pc[t].blk), r)
  {
    var s1 := WithPage(s, r, s.pc[t].page, s.pc[t].blk);
    assert InRange(s1.all);
    assert forall b :: 0 <= b < NSIZES ==> InRange(s1.bases[b]);
  }
}
