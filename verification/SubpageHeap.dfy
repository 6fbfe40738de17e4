/** The kernel's subpage allocator, called by any number of threads. What happens
    between taking and releasing kmalloc_spinlock is one step; while a thread gets or
    gives back a page the lock is free and others step in. */
module SubpageHeap {
  import opened SubpagePages

  const NPAGEREFS := 256

  /** Where a thread is: outside the allocator, or inside it without the lock. */
  datatype Pc = Idle | WantsPage(blk: int) | HasPage(blk: int, page: int) | Dropping(page: int)

  /** `bases` and `all` are the lists sizebases and allbase, of page reference numbers;
      `live` holds the blocks given to callers. `chains` is each freelist as a
      sequence; the operations do not look at it. */
  datatype Heap = Heap(refs: seq<Ref>, inuse: seq<bool>, bases: seq<seq<int>>, all: seq<int>,
                       mem: map<int, int>, live: set<int>, chains: seq<seq<int>>, pc: map<int, Pc>)

  datatype Event =
    | Kmalloc(t: int, sz: int)
    | GetPage(t: int, page: int) | NoPage(t: int) | Install(t: int)
    | Kfree(t: int, ptr: int) | DropPage(t: int)
    | ClientWrite(r: int, ptr: int, a: int, val: int)

  // ----- Searches -----

  /** The first page of a list with a free block, or -1. */
  function FirstWithFree(refs: seq<Ref>, list: seq<int>): (r: int)
    requires forall k :: 0 <= k < |list| ==> 0 <= list[k] < |refs|
    ensures r == -1 || (r in list && 0 <= r < |refs| && refs[r].nfree > 0)
    ensures r == -1 ==> forall k :: 0 <= k < |list| ==> refs[list[k]].nfree <= 0
  {
    if list == [] then -1
    else if refs[list[0]].nfree > 0 then list[0]
    else
      assert forall k :: 0 < k < |list| ==> list[k] == list[1..][k - 1];
      FirstWithFree(refs, list[1..])
  }

  /** The first page of a list that the address is in, or -1. */
  function FirstWith(refs: seq<Ref>, list: seq<int>, ptr: int): (r: int)
    requires forall k :: 0 <= k < |list| ==> 0 <= list[k] < |refs|
    ensures r == -1 || (r in list && 0 <= r < |refs| && InPage(refs[r].page, ptr))
    ensures r == -1 ==> forall k :: 0 <= k < |list| ==> !InPage(refs[list[k]].page, ptr)
  {
    if list == [] then -1
    else if InPage(refs[list[0]].page, ptr) then list[0]
    else
      assert forall k :: 0 < k < |list| ==> list[k] == list[1..][k - 1];
      FirstWith(refs, list[1..], ptr)
  }

  /** The lowest clear bit from i on, or -1. */
  function LowestClear(inuse: seq<bool>, i: int): (r: int)
    requires 0 <= i <= |inuse|
    ensures r == -1 || (i <= r < |inuse| && !inuse[r])
    ensures r == -1 ==> forall k :: i <= k < |inuse| ==> inuse[k]
    decreases |inuse| - i
  {
    if i == |inuse| then -1 else if !inuse[i] then i else LowestClear(inuse, i + 1)
  }

  /** remove_lists: the list without its first r. */
  function Without(list: seq<int>, r: int): (q: seq<int>)
    ensures r !in list ==> q == list
    ensures forall x :: x != r ==> (x in q <==> x in list)
  {
    if list == [] then []
    else if list[0] == r then
      assert forall x :: x in list <==> x == list[0] || x in list[1..];
      list[1..]
    else
      assert forall x :: x in list <==> x == list[0] || x in list[1..];
      [list[0]] + Without(list[1..], r)
  }

  lemma {:induction false} WithoutDistinct(list: seq<int>, r: int)
    requires Distinct(list)
    ensures Distinct(Without(list, r)) && r !in Without(list, r)
  {
    if list != [] {
      var tail := list[1..];
      assert forall k :: 0 <= k < |tail| ==> tail[k] == list[k + 1];
      assert list[0] !in tail;
      if list[0] != r {
        WithoutDistinct(tail, r);
        assert list[0] !in Without(tail, r);
      }
    }
  }

  // ----- The invariant -----

  ghost predicate InRange(list: seq<int>)
  {
    forall k :: 0 <= k < |list| ==> 0 <= list[k] < NPAGEREFS
  }

  ghost predicate Shape(s: Heap)
  {
    && |s.refs| == |s.inuse| == |s.chains| == NPAGEREFS && |s.bases| == NSIZES
    && InRange(s.all) && forall b :: 0 <= b < NSIZES ==> InRange(s.bases[b])
  }

  /** The per-size lists together hold exactly the pages of allbase, each once, and
      the in-use bits are those of these pages. */
  ghost predicate ListsOk(s: Heap)
    requires Shape(s)
  {
    && Distinct(s.all) && (forall b :: 0 <= b < NSIZES ==> Distinct(s.bases[b]))
    && (forall r :: 0 <= r < NPAGEREFS ==> (s.inuse[r] <==> r in s.all))
    && (forall b, r :: 0 <= b < NSIZES && 0 <= r < NPAGEREFS ==> (r in s.bases[b] <==> r in s.all && s.refs[r].blk == b))
  }

  /** Listed pages are in order, not entirely free, and different. */
  ghost predicate PagesOk(s: Heap)
    requires Shape(s)
  {
    && (forall r :: r in s.all ==> 0 <= r < NPAGEREFS && RefOk(s, r))
    && (forall r, q :: r in s.all && q in s.all && r != q ==> s.refs[r].page != s.refs[q].page)
  }

  ghost predicate RefOk(s: Heap, r: int)
    requires Shape(s) && 0 <= r < NPAGEREFS
  {
    PageOk(s.refs[r], s.chains[r], s.mem, s.live) && s.refs[r].nfree < Count(s.refs[r].blk)
  }

  ghost predicate IsHome(s: Heap, r: int, a: int)
    requires Shape(s)
  {
    r in s.all && 0 <= r < NPAGEREFS && InPage(s.refs[r].page, a)
  }

  /** Every live block is on a listed page. */
  ghost predicate LiveOk(s: Heap)
    requires Shape(s)
  {
    forall a :: a in s.live ==> exists r :: IsHome(s, r, a)
  }

  /** The page a thread holds without the lock. */
  function Held(p: Pc): int
  {
    match p case HasPage(_, page) => page case Dropping(page) => page case _ => 0
  }

  predicate Holds(p: Pc)
  {
    p.HasPage? || p.Dropping?
  }

  ghost predicate Listed(s: Heap, page: int)
    requires Shape(s)
  {
    exists r :: r in s.all && 0 <= r < NPAGEREFS && s.refs[r].page == page
  }

  /** Pages in threads' hands are whole pages of their own. */
  ghost predicate HandsOk(s: Heap)
    requires Shape(s)
  {
    && (forall t :: t in s.pc && Holds(s.pc[t]) ==>
          Held(s.pc[t]) > 0 && Held(s.pc[t]) % PAGE_SIZE == 0 && !Listed(s, Held(s.pc[t])))
    && (forall t, u :: t in s.pc && u in s.pc && t != u && Holds(s.pc[t]) && Holds(s.pc[u]) ==> Held(s.pc[t]) != Held(s.pc[u]))
    && (forall t :: t in s.pc && (s.pc[t].WantsPage? || s.pc[t].HasPage?) ==> 0 <= s.pc[t].blk < NSIZES)
  }

  ghost predicate Inv(s: Heap)
  {
    Shape(s) && ListsOk(s) && PagesOk(s) && LiveOk(s) && HandsOk(s)
  }

  // ----- Steps -----

  /** A step is possible. alloc_kpages gives a whole page that is not in use; kfree is
      called on a live block, or on an address that is no subpage block; callers write
      only inside their blocks. */
  ghost predicate CanStep(s: Heap, e: Event)
    requires Shape(s)
  {
    match e
    case Kmalloc(t, sz) => t in s.pc && s.pc[t].Idle? && 0 <= sz < 2048
    case GetPage(t, page) =>
      && t in s.pc && s.pc[t].WantsPage? && page > 0 && page % PAGE_SIZE == 0 && !Listed(s, page)
      && forall u :: u in s.pc && Holds(s.pc[u]) ==> Held(s.pc[u]) != page
    case NoPage(t) => t in s.pc && s.pc[t].WantsPage?
    case Install(t) => t in s.pc && s.pc[t].HasPage? && 0 <= s.pc[t].blk < NSIZES
    case Kfree(t, ptr) => t in s.pc && s.pc[t].Idle? && (ptr in s.live || FirstWith(s.refs, s.all, ptr) == -1)
    case DropPage(t) => t in s.pc && s.pc[t].Dropping?
    case ClientWrite(r, ptr, a, val) => IsHome(s, r, ptr) && ptr in s.live && ptr <= a < ptr + SizeOf(s.refs[r].blk)
  }

  /** Take the first free block of page r. */
  function AllocFrom(s: Heap, r: int): Heap
    requires Shape(s) && 0 <= r < NPAGEREFS && s.chains[r] != []
  {
    s.(refs := s.refs[r := Popped(s.refs[r], s.mem)], chains := s.chains[r := s.chains[r][1..]],
       live := s.live + {s.refs[r].page + s.refs[r].offset})
  }

  /** A new page for blocks of class blk, in page reference r, at the head of its lists. */
  function WithPage(s: Heap, r: int, page: int, blk: int): Heap
    requires Shape(s) && 0 <= r < NPAGEREFS && 0 <= blk < NSIZES
  {
    s.(refs := s.refs[r := Ref(page, blk, (Count(blk) - 1) * SizeOf(blk), Count(blk))], inuse := s.inuse[r := true],
       bases := s.bases[blk := [r] + s.bases[blk]], all := [r] + s.all,
       mem := ThreadedMem(s.mem, page, SizeOf(blk), Count(blk)),
       chains := s.chains[r := FullChain(SizeOf(blk), Count(blk))])
  }

  /** The block at ptr back on the freelist of page r. */
  function FreeTo(s: Heap, r: int, ptr: int): Heap
    requires Shape(s) && 0 <= r < NPAGEREFS
  {
    var ref := s.refs[r];
    s.(refs := s.refs[r := Pushed(ref, ptr - ref.page)], mem := PushedMem(ref, s.mem, ptr - ref.page),
       chains := s.chains[r := [ptr - ref.page] + s.chains[r]], live := s.live - {ptr})
  }

  /** Page r off its lists, its reference free. */
  function WithoutPage(s: Heap, r: int): Heap
    requires Shape(s) && 0 <= r < NPAGEREFS && 0 <= s.refs[r].blk < NSIZES
  {
    s.(bases := s.bases[s.refs[r].blk := Without(s.bases[s.refs[r].blk], r)], all := Without(s.all, r), inuse := s.inuse[r := false])
  }

  /** The checks on the way that would panic: the page's blocks are accounted for. */
  ghost predicate Checks(s: Heap, e: Event)
    requires Shape(s) && CanStep(s, e)
  {
    match e
    case Kmalloc(t, sz) =>
      var r := FirstWithFree(s.refs, s.bases[ClassFor(sz)]);
      r != -1 ==> s.refs[r].blk == ClassFor(sz) && PopChecks(s, r)
    case Kfree(t, ptr) =>
      var r := FirstWith(s.refs, s.all, ptr);
      r != -1 ==>
        && 0 <= s.refs[r].blk < NSIZES && IsSlot(s.refs[r].blk, ptr - s.refs[r].page)
        && s.refs[r].nfree + 1 <= Count(s.refs[r].blk)
    case _ => true
  }

  ghost predicate PopChecks(s: Heap, r: int)
    requires Shape(s) && 0 <= r < NPAGEREFS
  {
    var ref := s.refs[r];
    var next := Word(s.mem, ref.page + ref.offset);
    && s.chains[r] != [] && ref.offset < PAGE_SIZE
    && if next != 0 then ref.nfree > 1 && 0 <= next - ref.page < PAGE_SIZE else ref.nfree == 1
  }

  ghost function Stepped(s: Heap, e: Event): Heap
    requires Shape(s) && CanStep(s, e) && Checks(s, e)
  {
    match e
    case Kmalloc(t, sz) =>
      var r := FirstWithFree(s.refs, s.bases[ClassFor(sz)]);
      if r == -1 then s.(pc := s.pc[t := WantsPage(ClassFor(sz))]) else AllocFrom(s, r)
    case GetPage(t, page) => s.(pc := s.pc[t := HasPage(s.pc[t].blk, page)])
    case NoPage(t) => s.(pc := s.pc[t := Idle])
    case Install(t) =>
      var r := LowestClear(s.inuse, 0);
      if r == -1 then s.(pc := s.pc[t := Dropping(s.pc[t].page)])
      else
        var s1 := WithPage(s, r, s.pc[t].page, s.pc[t].blk).(pc := s.pc[t := Idle]);
        assert InRange([r] + s.all);
        assert forall b :: 0 <= b < NSIZES ==> InRange(s1.bases[b]);
        AllocFrom(s1, r)
    case Kfree(t, ptr) =>
      var r := FirstWith(s.refs, s.all, ptr);
      if r == -1 then s
      else
        var s1 := FreeTo(s, r, ptr);
        if s1.refs[r].nfree == Count(s.refs[r].blk) then WithoutPage(s1, r).(pc := s.pc[t := Dropping(s.refs[r].page)]) else s1
    case DropPage(t) => s.(pc := s.pc[t := Idle])
    case ClientWrite(r, ptr, a, val) => s.(mem := s.mem[a := val])
  }
}
