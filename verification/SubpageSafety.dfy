/** Every run of the subpage allocator keeps its pages, lists and blocks in order. */
module SubpageSafety {
  import opened SubpagePages
  import opened SubpageHeap

  /** The invariant, except that page `but` may be entirely free. */
  ghost predicate InvBut(s: Heap, but: int)
  {
    && Shape(s) && ListsOk(s) && LiveOk(s) && HandsOk(s) && PagesApart(s)
    && (forall r :: r in s.all ==> PageOk(s.refs[r], s.chains[r], s.mem, s.live))
    && (forall r :: r in s.all && r != but ==> s.refs[r].nfree < Count(s.refs[r].blk))
  }

  ghost predicate PagesApart(s: Heap)
    requires Shape(s)
  {
    && (forall r :: r in s.all ==> 0 <= r < NPAGEREFS)
    && (forall r, q :: r in s.all && q in s.all && r != q ==> s.refs[r].page != s.refs[q].page)
  }

  lemma InvIsInvBut(s: Heap)
    requires Inv(s)
    ensures InvBut(s, -1)
  {
    forall r | r in s.all
      ensures PageOk(s.refs[r], s.chains[r], s.mem, s.live) && s.refs[r].nfree < Count(s.refs[r].blk)
    {
      assert RefOk(s, r);
    }
  }

  lemma InvButIsInv(s: Heap, r: int)
    requires InvBut(s, r) && (r in s.all ==> s.refs[r].nfree < Count(s.refs[r].blk))
    ensures Inv(s)
  {
    forall q | q in s.all
      ensures 0 <= q < NPAGEREFS && RefOk(s, q)
    {
    }
  }

  /** Whole pages that differ have no address in common. */
  lemma PagesDisjoint(p: int, q: int, a: int)
    requires p % PAGE_SIZE == 0 && q % PAGE_SIZE == 0 && p != q && InPage(p, a)
    ensures !InPage(q, a)
  {
  }

  // ----- Taking a block -----

  lemma AllocPages(s: Heap, r: int)
    requires InvBut(s, r) && r in s.all && s.refs[r].nfree > 0
    ensures s.chains[r] != [] && PopChecks(s, r)
    ensures var s' := AllocFrom(s, r);
            && Shape(s') && PagesApart(s')
            && (forall q :: q in s'.all ==> PageOk(s'.refs[q], s'.chains[q], s'.mem, s'.live))
            && (forall q :: q in s'.all ==> s'.refs[q].nfree < Count(s'.refs[q].blk))
    ensures s.refs[r].page + s.refs[r].offset !in s.live && IsSlot(s.refs[r].blk, s.refs[r].offset)
  {
    var ref, s' := s.refs[r], AllocFrom(s, r);
    PopKeeps(ref, s.chains[r], s.mem, s.live);
    FreePlusLive(ref, s.chains[r], s.mem, s.live);
    forall q | q in s'.all
      ensures PageOk(s'.refs[q], s'.chains[q], s'.mem, s'.live) && s'.refs[q].nfree < Count(s'.refs[q].blk)
    {
      if q != r {
        OtherPage(s, r, q, ref.page + ref.offset);
      }
    }
  }

  /** Page q does not notice a block of page r becoming live. */
  lemma OtherPage(s: Heap, r: int, q: int, ptr: int)
    requires InvBut(s, r) && r in s.all && q in s.all && q != r && InPage(s.refs[r].page, ptr)
    ensures PageOk(s.refs[q], s.chains[q], s.mem, s.live + {ptr})
    ensures PageOk(s.refs[q], s.chains[q], s.mem, s.live - {ptr})
  {
    PagesDisjoint(s.refs[r].page, s.refs[q].page, ptr);
    PageStays(s.refs[q], s.chains[q], s.mem, s.live, s.mem, s.live + {ptr});
    PageStays(s.refs[q], s.chains[q], s.mem, s.live, s.mem, s.live - {ptr});
  }

  lemma SamePagesListed(s: Heap, s': Heap)
    requires Shape(s) && Shape(s') && s'.all == s.all
    requires forall q :: 0 <= q < NPAGEREFS ==> s'.refs[q].page == s.refs[q].page
    ensures forall page :: Listed(s', page) <==> Listed(s, page)
    ensures forall q, a :: IsHome(s', q, a) <==> IsHome(s, q, a)
  {
    forall page
      ensures Listed(s', page) <==> Listed(s, page)
    {
      if Listed(s, page) {
        var r :| r in s.all && 0 <= r < NPAGEREFS && s.refs[r].page == page;
        assert s'.refs[r].page == page;
      }
      if Listed(s', page) {
        var r :| r in s'.all && 0 <= r < NPAGEREFS && s'.refs[r].page == page;
        assert s.refs[r].page == page;
      }
    }
  }

  lemma AllocKeeps(s: Heap, r: int)
    requires InvBut(s, r) && r in s.all && s.refs[r].nfree > 0
    ensures s.chains[r] != [] && PopChecks(s, r) && Inv(AllocFrom(s, r))
    ensures s.refs[r].page + s.refs[r].offset !in s.live && IsSlot(s.refs[r].blk, s.refs[r].offset)
  {
    AllocPages(s, r);
    var s', ptr := AllocFrom(s, r), s.refs[r].page + s.refs[r].offset;
    SamePagesListed(s, s');
    assert IsHome(s', r, ptr);
    forall a | a in s'.live
      ensures exists q :: IsHome(s', q, a)
    {
      if a != ptr {
        var q :| IsHome(s, q, a);
        assert IsHome(s', q, a);
      }
    }
    InvButIsInv(s', -1);
  }

  // ----- A new page -----

  lemma NewPageEmpty(s: Heap, page: int)
    requires InvBut(s, -1) && page % PAGE_SIZE == 0 && !Listed(s, page)
    ensures forall a :: a in s.live ==> !InPage(page, a)
  {
    forall a | a in s.live
      ensures !InPage(page, a)
    {
      var q :| IsHome(s, q, a);
      assert s.refs[q].page != page;
      PagesDisjoint(s.refs[q].page, page, a);
    }
  }

  lemma InstallPages(s: Heap, r: int, page: int, blk: int)
    requires InvBut(s, -1) && 0 <= r < NPAGEREFS && r !in s.all && 0 <= blk < NSIZES
    requires page > 0 && page % PAGE_SIZE == 0 && !Listed(s, page)
    ensures var s' := WithPage(s, r, page, blk);
            && Shape(s') && PagesApart(s')
            && (forall q :: q in s'.all ==> PageOk(s'.refs[q], s'.chains[q], s'.mem, s'.live))
            && (forall q :: q in s'.all && q != r ==> s'.refs[q].nfree < Count(s'.refs[q].blk))
  {
    var s' := WithPage(s, r, page, blk);
    NewPageEmpty(s, page);
    FreshPageOk(s.mem, page, blk, s.live);
    assert InRange([r] + s.all);
    assert forall b :: 0 <= b < NSIZES ==> InRange(s'.bases[b]);
    assert forall q :: q in s'.all <==> q == r || q in s.all;
    forall q | q in s.all
      ensures PageOk(s.refs[q], s.chains[q], s'.mem, s.live) && s.refs[q].page != page
    {
      BuildElsewhere(s, q, page, blk);
    }
  }

  lemma BuildElsewhere(s: Heap, q: int, page: int, blk: int)
    requires InvBut(s, -1) && q in s.all && page % PAGE_SIZE == 0 && !Listed(s, page)
    ensures s.refs[q].page != page
    ensures PageOk(s.refs[q], s.chains[q], ThreadedMem(s.mem, page, SizeOf(blk), Count(blk)), s.live)
  {
    CountFits(blk);
    var mem' := ThreadedMem(s.mem, page, SizeOf(blk), Count(blk));
    assert s.refs[q].page != page;
    forall a | InPage(s.refs[q].page, a)
      ensures Word(mem', a) == Word(s.mem, a)
    {
      PagesDisjoint(s.refs[q].page, page, a);
      ThreadedOutside(s.mem, page, SizeOf(blk), Count(blk), a);
    }
    PageStays(s.refs[q], s.chains[q], s.mem, s.live, mem', s.live);
  }

  lemma InstallLists(s: Heap, r: int, page: int, blk: int)
    requires Shape(s) && ListsOk(s) && 0 <= r < NPAGEREFS && r !in s.all && 0 <= blk < NSIZES && Shape(WithPage(s, r, page, blk))
    ensures ListsOk(WithPage(s, r, page, blk))
  {
    var s' := WithPage(s, r, page, blk);
    assert forall q :: q in s'.all <==> q == r || q in s.all;
    assert r !in s.bases[blk];
    forall b, q | 0 <= b < NSIZES && 0 <= q < NPAGEREFS
      ensures q in s'.bases[b] <==> q in s'.all && s'.refs[q].blk == b
    {
      assert q in s'.bases[b] <==> (b == blk && q == r) || q in s.bases[b];
    }
  }

  lemma InstallHomes(s: Heap, r: int, page: int, blk: int)
    requires Shape(s) && LiveOk(s) && 0 <= r < NPAGEREFS && r !in s.all && 0 <= blk < NSIZES && Shape(WithPage(s, r, page, blk))
    ensures LiveOk(WithPage(s, r, page, blk))
    ensures forall p :: Listed(WithPage(s, r, page, blk), p) ==> p == page || Listed(s, p)
  {
    var s' := WithPage(s, r, page, blk);
    forall a | a in s'.live
      ensures exists q :: IsHome(s', q, a)
    {
      var q :| IsHome(s, q, a);
      assert IsHome(s', q, a);
    }
    forall p | Listed(s', p)
      ensures p == page || Listed(s, p)
    {
      var q :| q in s'.all && 0 <= q < NPAGEREFS && s'.refs[q].page == p;
      if q != r {
        assert q in s.all;
      }
    }
  }

  lemma InstallKeeps(s: Heap, t: int, r: int)
    requires Inv(s) && t in s.pc && s.pc[t].HasPage? && 0 <= s.pc[t].blk < NSIZES && 0 <= r < NPAGEREFS && !s.inuse[r]
    ensures var s1 := WithPage(s, r, s.pc[t].page, s.pc[t].blk).(pc := s.pc[t := Idle]);
            InvBut(s1, r) && r in s1.all && s1.refs[r].nfree > 0
  {
    var page, blk := s.pc[t].page, s.pc[t].blk;
    var s1 := WithPage(s, r, page, blk);
    InvIsInvBut(s);
    assert Held(s.pc[t]) == page;
    InstallPages(s, r, page, blk);
    InstallLists(s, r, page, blk);
    InstallHomes(s, r, page, blk);
    assert r in s1.all;
    InstallHands(s, t, r);
    SamePc(s1, s1.(pc := s.pc[t := Idle]));
  }

  /** Everything but the hands is independent of where the threads are. */
  lemma SamePc(s: Heap, s': Heap)
    requires Shape(s) && s' == s.(pc := s'.pc)
    ensures Shape(s') && (ListsOk(s) ==> ListsOk(s')) && (PagesApart(s) ==> PagesApart(s'))
    ensures forall p :: Listed(s', p) <==> Listed(s, p)
    ensures LiveOk(s) ==> LiveOk(s')
  {
    SamePagesListed(s, s');
    if LiveOk(s) {
      forall a | a in s'.live
        ensures exists r :: IsHome(s', r, a)
      {
        var r :| IsHome(s, r, a);
        assert IsHome(s', r, a);
      }
    }
  }

  lemma InstallHands(s: Heap, t: int, r: int)
    requires Inv(s) && t in s.pc && s.pc[t].HasPage? && 0 <= s.pc[t].blk < NSIZES && 0 <= r < NPAGEREFS && r !in s.all
    requires Shape(WithPage(s, r, s.pc[t].page, s.pc[t].blk))
    ensures var s1 := WithPage(s, r, s.pc[t].page, s.pc[t].blk).(pc := s.pc[t := Idle]); Shape(s1) && HandsOk(s1)
  {
    var page, blk := s.pc[t].page, s.pc[t].blk;
    var s0 := WithPage(s, r, page, blk);
    var s1 := s0.(pc := s.pc[t := Idle]);
    InstallHomes(s, r, page, blk);
    SamePc(s0, s1);
    forall u | u in s1.pc && Holds(s1.pc[u])
      ensures !Listed(s1, Held(s1.pc[u]))
    {
      assert u != t && Held(s.pc[u]) != Held(s.pc[t]);
      assert !Listed(s, Held(s.pc[u]));
    }
  }

  // ----- Freeing -----

  lemma FreePages(s: Heap, r: int, ptr: int)
    requires InvBut(s, -1) && ptr in s.live && IsHome(s, r, ptr)
    ensures var s' := FreeTo(s, r, ptr);
            && Shape(s') && PagesApart(s')
            && (forall q :: q in s'.all ==> PageOk(s'.refs[q], s'.chains[q], s'.mem, s'.live))
            && (forall q :: q in s'.all && q != r ==> s'.refs[q].nfree < Count(s'.refs[q].blk))
    ensures IsSlot(s.refs[r].blk, ptr - s.refs[r].page) && s.refs[r].nfree + 1 <= Count(s.refs[r].blk)
  {
    var s' := FreeTo(s, r, ptr);
    PushKeeps(s.refs[r], s.chains[r], s.mem, s.live, ptr);
    forall q | q in s'.all && q != r
      ensures PageOk(s'.refs[q], s'.chains[q], s'.mem, s'.live)
    {
      FreeElsewhere(s, r, q, ptr);
    }
  }

  lemma FreeElsewhere(s: Heap, r: int, q: int, ptr: int)
    requires InvBut(s, -1) && ptr in s.live && IsHome(s, r, ptr) && q in s.all && q != r && IsSlot(s.refs[r].blk, ptr - s.refs[r].page)
    ensures PageOk(s.refs[q], s.chains[q], PushedMem(s.refs[r], s.mem, ptr - s.refs[r].page), s.live - {ptr})
  {
    var mem' := PushedMem(s.refs[r], s.mem, ptr - s.refs[r].page);
    SlotEnds(s.refs[r].blk, ptr - s.refs[r].page);
    forall a | InPage(s.refs[q].page, a)
      ensures Word(mem', a) == Word(s.mem, a) && (a in s.live - {ptr} <==> a in s.live)
    {
      PagesDisjoint(s.refs[q].page, s.refs[r].page, a);
      PushWritesInside(s.refs[r], s.mem, ptr - s.refs[r].page, a);
    }
    PageStays(s.refs[q], s.chains[q], s.mem, s.live, mem', s.live - {ptr});
  }

  lemma FreeKeeps(s: Heap, r: int, ptr: int)
    requires Inv(s) && ptr in s.live && IsHome(s, r, ptr)
    ensures InvBut(FreeTo(s, r, ptr), r)
    ensures 0 <= s.refs[r].blk < NSIZES && IsSlot(s.refs[r].blk, ptr - s.refs[r].page) && s.refs[r].nfree + 1 <= Count(s.refs[r].blk)
  {
    InvIsInvBut(s);
    var s' := FreeTo(s, r, ptr);
    FreePages(s, r, ptr);
    SamePagesListed(s, s');
    forall a | a in s'.live
      ensures exists q :: IsHome(s', q, a)
    {
      var q :| IsHome(s, q, a);
      assert IsHome(s', q, a);
    }
  }

  lemma DropLists(s: Heap, r: int)
    requires Shape(s) && ListsOk(s) && 0 <= r < NPAGEREFS && r in s.all && 0 <= s.refs[r].blk < NSIZES
    ensures Shape(WithoutPage(s, r)) && ListsOk(WithoutPage(s, r)) && r !in WithoutPage(s, r).all
    ensures forall q :: q in WithoutPage(s, r).all <==> q in s.all && q != r
  {
    var s', blk := WithoutPage(s, r), s.refs[r].blk;
    WithoutDistinct(s.all, r);
    WithoutDistinct(s.bases[blk], r);
    WithoutInRange(s.all, r);
    WithoutInRange(s.bases[blk], r);
    forall b, q | 0 <= b < NSIZES && 0 <= q < NPAGEREFS
      ensures q in s'.bases[b] <==> q in s'.all && s'.refs[q].blk == b
    {
      assert q != r ==> (q in s'.bases[b] <==> q in s.bases[b]);
      assert r in s.bases[b] <==> b == blk;
    }
  }

  lemma WithoutInRange(list: seq<int>, r: int)
    requires InRange(list)
    ensures InRange(Without(list, r))
  {
    var q := Without(list, r);
    forall k | 0 <= k < |q|
      ensures 0 <= q[k] < NPAGEREFS
    {
      assert q[k] in q;
      WithoutIn(list, r, q[k]);
    }
  }

  lemma {:induction false} WithoutIn(list: seq<int>, r: int, x: int)
    requires x in Without(list, r)
    ensures x in list
  {
    if list != [] && list[0] != r && x != list[0] {
      WithoutIn(list[1..], r, x);
    }
  }

  lemma DropHomes(s: Heap, r: int)
    requires InvBut(s, r) && r in s.all && s.refs[r].nfree == Count(s.refs[r].blk) && Shape(WithoutPage(s, r))
    requires forall q :: q in WithoutPage(s, r).all <==> q in s.all && q != r
    ensures LiveOk(WithoutPage(s, r)) && !Listed(WithoutPage(s, r), s.refs[r].page)
    ensures forall p :: Listed(WithoutPage(s, r), p) ==> Listed(s, p)
  {
    var s' := WithoutPage(s, r);
    forall a | a in s'.live
      ensures exists q :: IsHome(s', q, a)
    {
      var q :| IsHome(s, q, a);
      if InPage(s.refs[r].page, a) {
        FullyFree(s.refs[r], s.chains[r], s.mem, s.live, a);
      }
      assert IsHome(s', q, a);
    }
    forall p | Listed(s', p)
      ensures Listed(s, p) && p != s.refs[r].page
    {
      var q :| q in s'.all && 0 <= q < NPAGEREFS && s'.refs[q].page == p;
      assert q in s.all && q != r;
    }
  }

  lemma DropHands(s: Heap, s': Heap, t: int, page: int)
    requires Shape(s) && Shape(s') && HandsOk(s) && t in s.pc && s.pc[t].Idle? && s'.pc == s.pc[t := Dropping(page)]
    requires page > 0 && page % PAGE_SIZE == 0 && Listed(s, page) && !Listed(s', page)
    requires forall p :: Listed(s', p) ==> Listed(s, p)
    ensures HandsOk(s')
  {
    forall u | u in s'.pc && Holds(s'.pc[u])
      ensures !Listed(s', Held(s'.pc[u])) && (u != t ==> Held(s'.pc[u]) != page)
    {
      if u != t {
        assert !Listed(s, Held(s.pc[u]));
      }
    }
  }

  lemma DropKeeps(s: Heap, t: int, r: int)
    requires InvBut(s, r) && r in s.all && s.refs[r].nfree == Count(s.refs[r].blk) && t in s.pc && s.pc[t].Idle?
    ensures Inv(WithoutPage(s, r).(pc := s.pc[t := Dropping(s.refs[r].page)]))
  {
    var s0 := WithoutPage(s, r);
    var s' := s0.(pc := s.pc[t := Dropping(s.refs[r].page)]);
    DropLists(s, r);
    DropHomes(s, r);
    SamePc(s0, s');
    assert Listed(s, s.refs[r].page);
    DropHands(s, s', t, s.refs[r].page);
    InvButIsInv(s', r);
  }

  // ----- Callers writing into their blocks -----

  lemma WriteKeeps(s: Heap, r: int, ptr: int, a: int, val: int)
    requires Inv(s) && IsHome(s, r, ptr) && ptr in s.live && ptr <= a < ptr + SizeOf(s.refs[r].blk)
    ensures Inv(s.(mem := s.mem[a := val]))
  {
    InvIsInvBut(s);
    var s' := s.(mem := s.mem[a := val]);
    LiveIsSlot(s.refs[r], s.chains[r], s.mem, s.live, ptr);
    forall q | q in s'.all
      ensures PageOk(s'.refs[q], s'.chains[q], s'.mem, s'.live)
    {
      if q == r {
        WriteInBlock(s.refs[r], s.chains[r], s.mem, s.live, ptr, a, val);
      } else {
        PagesDisjoint(s.refs[r].page, s.refs[q].page, a);
        PageStays(s.refs[q], s.chains[q], s.mem, s.live, s'.mem, s'.live);
      }
    }
    SamePagesListed(s, s');
    forall x | x in s'.live
      ensures exists q :: IsHome(s', q, x)
    {
      var q :| IsHome(s, q, x);
      assert IsHome(s', q, x);
    }
    InvButIsInv(s', -1);
  }

  lemma WriteInBlock(ref: Ref, chain: seq<int>, mem: map<int, int>, live: set<int>, ptr: int, a: int, val: int)
    requires PageOk(ref, chain, mem, live) && ptr in live && InPage(ref.page, ptr) && ptr <= a < ptr + SizeOf(ref.blk)
    ensures PageOk(ref, chain, mem[a := val], live)
  {
    var o := ptr - ref.page;
    PageOpen(ref, chain, mem, live);
    assert IsSlot(ref.blk, o) && ref.page + o == ptr;
    forall k | 0 <= k < |chain|
      ensures ref.page + chain[k] != a
    {
      assert chain[k] != o;
      if chain[k] < o {
        SlotsApart(ref.blk, chain[k], o);
      } else {
        SlotsApart(ref.blk, o, chain[k]);
      }
    }
    assert PageParts(ref, chain, mem[a := val], live);
  }

  // ----- Pages on their way -----

  lemma HandsMove(s: Heap, t: int, p: Pc)
    requires Inv(s) && t in s.pc
    requires Holds(p) ==> Held(p) > 0 && Held(p) % PAGE_SIZE == 0 && !Listed(s, Held(p))
    requires Holds(p) ==> forall u :: u in s.pc && u != t && Holds(s.pc[u]) ==> Held(s.pc[u]) != Held(p)
    requires p.WantsPage? || p.HasPage? ==> 0 <= p.blk < NSIZES
    ensures Inv(s.(pc := s.pc[t := p]))
  {
    InvIsInvBut(s);
    var s' := s.(pc := s.pc[t := p]);
    SamePc(s, s');
    InvButIsInv(s', -1);
  }

  // ----- Every step -----

  lemma KmallocStep(s: Heap, t: int, sz: int)
    requires Inv(s) && CanStep(s, Kmalloc(t, sz))
    ensures Checks(s, Kmalloc(t, sz)) && Inv(Stepped(s, Kmalloc(t, sz)))
  {
    var b := ClassFor(sz);
    var r := FirstWithFree(s.refs, s.bases[b]);
    if r == -1 {
      HandsMove(s, t, WantsPage(b));
    } else {
      assert r in s.bases[b] && r in s.all && s.refs[r].blk == b;
      InvIsInvBut(s);
      assert InvBut(s, r);
      AllocKeeps(s, r);
    }
  }

  lemma InstallStep(s: Heap, t: int)
    requires Inv(s) && CanStep(s, Install(t))
    ensures Checks(s, Install(t)) && Inv(Stepped(s, Install(t)))
  {
    var r := LowestClear(s.inuse, 0);
    if r == -1 {
      HandsMove(s, t, Dropping(s.pc[t].page));
    } else {
      InstallKeeps(s, t, r);
      AllocKeeps(WithPage(s, r, s.pc[t].page, s.pc[t].blk).(pc := s.pc[t := Idle]), r);
    }
  }

  lemma KfreeStep(s: Heap, t: int, ptr: int)
    requires Inv(s) && CanStep(s, Kfree(t, ptr))
    ensures Checks(s, Kfree(t, ptr)) && Inv(Stepped(s, Kfree(t, ptr)))
  {
    var r := FirstWith(s.refs, s.all, ptr);
    if r != -1 {
      assert IsHome(s, r, ptr);
      FreeKeeps(s, r, ptr);
      var s1 := FreeTo(s, r, ptr);
      if s1.refs[r].nfree == Count(s.refs[r].blk) {
        DropKeeps(s1, t, r);
      } else {
        InvButIsInv(s1, r);
      }
    }
  }

  /** kfree finds the page of every live block. */
  lemma LiveIsFound(s: Heap, ptr: int)
    requires Inv(s) && ptr in s.live
    ensures FirstWith(s.refs, s.all, ptr) != -1
  {
    var r :| IsHome(s, r, ptr);
    var k :| 0 <= k < |s.all| && s.all[k] == r;
  }

  lemma StepIsSafe(s: Heap, e: Event)
    requires Inv(s) && CanStep(s, e)
    ensures Checks(s, e) && Inv(Stepped(s, e))
  {
    match e
    case Kmalloc(t, sz) => KmallocStep(s, t, sz);
    case GetPage(t, page) => HandsMove(s, t, HasPage(s.pc[t].blk, page));
    case NoPage(t) => HandsMove(s, t, Idle);
    case Install(t) => InstallStep(s, t);
    case Kfree(t, ptr) => KfreeStep(s, t, ptr);
    case DropPage(t) => HandsMove(s, t, Idle);
    case ClientWrite(r, ptr, a, val) => WriteKeeps(s, r, ptr, a, val);
  }

  // ----- Runs -----

  function Empty(threads: set<int>): Heap
  {
    Heap(seq(NPAGEREFS, i => Ref(0, 0, 0, 0)), seq(NPAGEREFS, i => false), seq(NSIZES, b => []), [],
         map[], {}, seq(NPAGEREFS, i => []), map t | t in threads :: Idle)
  }

  ghost predicate IsRun(threads: set<int>, states: seq<Heap>, events: seq<Event>)
  {
    && |states| == |events| + 1 && states[0] == Empty(threads)
    && forall i :: 0 <= i < |events| ==>
         Shape(states[i]) && CanStep(states[i], events[i])
         && (Checks(states[i], events[i]) ==> states[i + 1] == Stepped(states[i], events[i]))
  }

  lemma {:induction false} RunIsSafe(threads: set<int>, states: seq<Heap>, events: seq<Event>, i: nat)
    requires IsRun(threads, states, events) && i < |states|
    ensures Inv(states[i])
  {
    if i > 0 {
      RunIsSafe(threads, states, events, i - 1);
      StepIsSafe(states[i - 1], events[i - 1]);
    }
  }

  /** On every run live blocks are aligned, inside one page, and disjoint, and the
      blocks of a page are free or live: nfree + live = blocks per page, with at least
      one of them live. */
  lemma BlocksAreSound(threads: set<int>, states: seq<Heap>, events: seq<Event>, i: nat, r: int)
    requires IsRun(threads, states, events) && i < |states|
    requires r in states[i].all
    ensures 0 <= r < |states[i].refs| == |states[i].chains|
    ensures var s := states[i]; var ref := s.refs[r];
            && ref.nfree + |LiveOn(ref.page, s.live)| == Count(ref.blk) && ref.nfree < Count(ref.blk)
            && |s.chains[r]| == ref.nfree && Distinct(s.chains[r]) && Threaded(s.mem, ref.page, s.chains[r])
            && forall a :: a in s.live && InPage(ref.page, a) ==>
                 (a - ref.page) % SizeOf(ref.blk) == 0 && a + SizeOf(ref.blk) <= ref.page + PAGE_SIZE
  {
    RunIsSafe(threads, states, events, i);
    var s := states[i];
    assert RefOk(s, r);
    FreePlusLive(s.refs[r], s.chains[r], s.mem, s.live);
    PageOpen(s.refs[r], s.chains[r], s.mem, s.live);
    forall a | a in s.live && InPage(s.refs[r].page, a)
      ensures (a - s.refs[r].page) % SizeOf(s.refs[r].blk) == 0 && a + SizeOf(s.refs[r].blk) <= s.refs[r].page + PAGE_SIZE
    {
      LiveIsSlot(s.refs[r], s.chains[r], s.mem, s.live, a);
    }
  }

  /** Two live blocks never overlap. */
  lemma BlocksAreDisjoint(threads: set<int>, states: seq<Heap>, events: seq<Event>, i: nat, a: int, b: int, r: int, q: int)
    requires IsRun(threads, states, events) && i < |states| && Shape(states[i])
    requires a in states[i].live && b in states[i].live && a < b && IsHome(states[i], r, a) && IsHome(states[i], q, b)
    ensures a + SizeOf(states[i].refs[r].blk) <= b
  {
    RunIsSafe(threads, states, events, i);
    BlocksApart(states[i], a, b, r, q);
  }

  lemma BlocksApart(s: Heap, a: int, b: int, r: int, q: int)
    requires Inv(s) && a in s.live && b in s.live && a < b && IsHome(s, r, a) && IsHome(s, q, b)
    ensures a + SizeOf(s.refs[r].blk) <= b
  {
    assert RefOk(s, r) && RefOk(s, q);
    LiveIsSlot(s.refs[r], s.chains[r], s.mem, s.live, a);
    LiveIsSlot(s.refs[q], s.chains[q], s.mem, s.live, b);
    if r == q {
      SlotsApart(s.refs[r].blk, a - s.refs[r].page, b - s.refs[r].page);
    } else {
      PagesDisjoint(s.refs[q].page, s.refs[r].page, b);
    }
  }

  /** What kmalloc gives was not live, becomes live, and is a block of a class that is
      big enough and no bigger than it has to be. */
  lemma KmallocGives(s: Heap, t: int, sz: int, r: int)
    requires Inv(s) && CanStep(s, Kmalloc(t, sz)) && r == FirstWithFree(s.refs, s.bases[ClassFor(sz)]) && r != -1
    ensures Checks(s, Kmalloc(t, sz))
    ensures var ptr := s.refs[r].page + s.refs[r].offset;
            && ptr !in s.live && Stepped(s, Kmalloc(t, sz)).live == s.live + {ptr} && IsHome(s, r, ptr)
            && sz <= SizeOf(s.refs[r].blk) && (ptr - s.refs[r].page) % SizeOf(s.refs[r].blk) == 0
            && forall b :: 0 <= b < s.refs[r].blk ==> SizeOf(b) < sz
  {
    KmallocStep(s, t, sz);
    FoundPage(s, sz, r);
    TakenBlock(s, r);
    assert Stepped(s, Kmalloc(t, sz)) == AllocFrom(s, r);
  }

  /** When kmalloc has to get a page first, it remembers the smallest class that is big
      enough, and keeps it whatever other threads do. */
  lemma ClassIsKept(s: Heap, e: Event, t: int)
    requires Inv(s) && CanStep(s, e) && Checks(s, e) && t in s.pc
    ensures t in Stepped(s, e).pc
    ensures e.Kmalloc? && e.t == t && Stepped(s, e).pc[t].WantsPage? ==>
              var blk := Stepped(s, e).pc[t].blk;
              0 <= blk < NSIZES && e.sz <= SizeOf(blk) && forall b :: 0 <= b < blk ==> SizeOf(b) < e.sz
    ensures s.pc[t].WantsPage? && Stepped(s, e).pc[t].HasPage? ==> Stepped(s, e).pc[t].blk == s.pc[t].blk
    ensures s.pc[t].WantsPage? ==> Stepped(s, e).pc[t] == s.pc[t] || Stepped(s, e).pc[t].Idle? || Stepped(s, e).pc[t].HasPage?
    ensures s.pc[t].HasPage? ==> Stepped(s, e).pc[t] == s.pc[t] || e == Install(t)
  {
  }

  /** The block kmalloc takes from the page it got was not live, is the last of that
      page, and belongs to the class remembered. */
  lemma InstallGives(s: Heap, t: int, r: int)
    requires Inv(s) && CanStep(s, Install(t)) && r == LowestClear(s.inuse, 0) != -1
    ensures Checks(s, Install(t))
    ensures var s', blk, page := Stepped(s, Install(t)), s.pc[t].blk, s.pc[t].page;
            var ptr := page + (Count(blk) - 1) * SizeOf(blk);
            && ptr !in s.live && s'.live == s.live + {ptr} && Shape(s') && IsHome(s', r, ptr)
            && s'.refs[r].blk == blk && (ptr - page) % SizeOf(blk) == 0 && ptr + SizeOf(blk) == page + PAGE_SIZE
  {
    var page, blk := s.pc[t].page, s.pc[t].blk;
    InvIsInvBut(s);
    NewPageEmpty(s, page);
    CountFits(blk);
    LastBlock(page, Count(blk), SizeOf(blk));
    InstallStep(s, t);
    assert Stepped(s, Install(t)).all == [r] + s.all;
  }

  lemma LastBlock(page: int, count: int, size: int)
    requires count * size == PAGE_SIZE && count >= 1 && size > 0
    ensures (count - 1) * size == PAGE_SIZE - size && ((count - 1) * size) % size == 0 && 0 <= PAGE_SIZE - size < PAGE_SIZE
  {
    Words.MulDistr(count - 1, 1, size);
    Words.DivModUnique((count - 1) * size, size, count - 1, 0);
    Words.MulLe(1, count, size);
  }

  lemma FoundPage(s: Heap, sz: int, r: int)
    requires Inv(s) && 0 <= sz < 2048 && r == FirstWithFree(s.refs, s.bases[ClassFor(sz)]) && r != -1
    ensures r in s.all && s.refs[r].blk == ClassFor(sz) && s.refs[r].nfree > 0
  {
    assert r in s.bases[ClassFor(sz)];
  }

  lemma TakenBlock(s: Heap, r: int)
    requires Inv(s) && r in s.all && s.refs[r].nfree > 0
    ensures s.chains[r] != []
    ensures var ptr := s.refs[r].page + s.refs[r].offset;
            ptr !in s.live && AllocFrom(s, r).live == s.live + {ptr} && IsHome(s, r, ptr) && (ptr - s.refs[r].page) % SizeOf(s.refs[r].blk) == 0
  {
    InvIsInvBut(s);
    assert InvBut(s, r);
    AllocKeeps(s, r);
  }

  // ----- Contents -----

  /** The word is in the live block at ptr, on page r. */
  ghost predicate InBlock(s: Heap, r: int, ptr: int, a: int)
    requires Shape(s)
  {
    ptr in s.live && IsHome(s, r, ptr) && ptr <= a < ptr + SizeOf(s.refs[r].blk)
  }

  lemma OneBlock(s: Heap, r: int, ptr: int, q: int, other: int, a: int)
    requires Inv(s) && InBlock(s, r, ptr, a) && InBlock(s, q, other, a)
    ensures ptr == other
  {
    if ptr < other {
      BlocksApart(s, ptr, other, r, q);
    } else if other < ptr {
      BlocksApart(s, other, ptr, q, r);
    }
  }

  lemma BlockOnItsPage(s: Heap, r: int, ptr: int, a: int)
    requires Inv(s) && InBlock(s, r, ptr, a)
    ensures InPage(s.refs[r].page, a) && s.refs[r].page % PAGE_SIZE == 0 && IsSlot(s.refs[r].blk, ptr - s.refs[r].page)
  {
    assert RefOk(s, r);
    LiveIsSlot(s.refs[r], s.chains[r], s.mem, s.live, ptr);
    SlotEnds(s.refs[r].blk, ptr - s.refs[r].page);
  }

  /** Nothing but a write through the block itself, or freeing it, changes what a live
      block holds, whatever other threads allocate, free or write. */
  lemma ContentsAreKept(s: Heap, e: Event, r: int, ptr: int, a: int)
    requires Inv(s) && CanStep(s, e) && InBlock(s, r, ptr, a)
    requires (e.ClientWrite? || e.Kfree?) ==> e.ptr != ptr
    ensures Checks(s, e) && ptr in Stepped(s, e).live && Word(Stepped(s, e).mem, a) == Word(s.mem, a)
  {
    StepIsSafe(s, e);
    BlockOnItsPage(s, r, ptr, a);
    match e
    case Install(t) =>
      CountFits(s.pc[t].blk);
      PagesDisjoint(s.refs[r].page, s.pc[t].page, a);
      ThreadedOutside(s.mem, s.pc[t].page, SizeOf(s.pc[t].blk), Count(s.pc[t].blk), a);
    case Kfree(t, other) => FreeKeepsWord(s, t, other, r, ptr, a);
    case ClientWrite(q, other, b, val) =>
      if a == b {
        OneBlock(s, r, ptr, q, other, a);
      }
    case _ =>
  }

  lemma FreeKeepsWord(s: Heap, t: int, other: int, r: int, ptr: int, a: int)
    requires Inv(s) && CanStep(s, Kfree(t, other)) && Checks(s, Kfree(t, other)) && InBlock(s, r, ptr, a) && other != ptr
    ensures ptr in Stepped(s, Kfree(t, other)).live && Word(Stepped(s, Kfree(t, other)).mem, a) == Word(s.mem, a)
  {
    var q := FirstWith(s.refs, s.all, other);
    if q != -1 {
      assert IsHome(s, q, other);
      if other <= a < other + SizeOf(s.refs[q].blk) {
        OneBlock(s, r, ptr, q, other, a);
      }
      PushWritesInside(s.refs[q], s.mem, other - s.refs[q].page, a);
    }
  }

  /** A block that is freed is live no more, and all its words but the first, which
      links the freelist, are 0xdeadbeef. */
  lemma FreedIsFilled(s: Heap, t: int, r: int, ptr: int, a: int)
    requires Inv(s) && CanStep(s, Kfree(t, ptr)) && InBlock(s, r, ptr, a) && a != ptr && (a - ptr) % 4 == 0
    ensures Checks(s, Kfree(t, ptr))
    ensures Stepped(s, Kfree(t, ptr)).live == s.live - {ptr} && Word(Stepped(s, Kfree(t, ptr)).mem, a) == 0xdead_beef
  {
    ChecksHold(s, Kfree(t, ptr));
    FoundAtHome(s, r, ptr);
    FreedMem(s, t, r, ptr);
    PushedIsFilled(s.refs[r], s.mem, ptr - s.refs[r].page, a);
  }

  lemma ChecksHold(s: Heap, e: Event)
    requires Inv(s) && CanStep(s, e)
    ensures Checks(s, e)
  {
    StepIsSafe(s, e);
  }

  lemma FoundAtHome(s: Heap, r: int, ptr: int)
    requires Inv(s) && ptr in s.live && IsHome(s, r, ptr)
    ensures FirstWith(s.refs, s.all, ptr) == r
  {
    LiveIsFound(s, ptr);
    var q := FirstWith(s.refs, s.all, ptr);
    assert RefOk(s, q) && RefOk(s, r);
    if q != r {
      PagesDisjoint(s.refs[q].page, s.refs[r].page, ptr);
    }
  }

  lemma FreedMem(s: Heap, t: int, r: int, ptr: int)
    requires Inv(s) && CanStep(s, Kfree(t, ptr)) && Checks(s, Kfree(t, ptr)) && FirstWith(s.refs, s.all, ptr) == r != -1
    ensures var s' := Stepped(s, Kfree(t, ptr)); s'.live == s.live - {ptr} && s'.mem == PushedMem(s.refs[r], s.mem, ptr - s.refs[r].page)
  {
  }

  lemma PushedIsFilled(ref: Ref, mem: map<int, int>, offset: int, a: int)
    requires var ptr := ref.page + offset; ptr < a < ptr + SizeOf(ref.blk) && (a - ptr) % 4 == 0
    ensures Word(PushedMem(ref, mem, offset), a) == 0xdead_beef
  {
    FilledInside(mem, ref.page + offset, SizeOf(ref.blk) / 4, a);
  }

  lemma {:induction false} FilledInside(mem: map<int, int>, ptr: int, n: int, a: int)
    requires 0 <= n && ptr <= a < ptr + 4 * n && (a - ptr) % 4 == 0
    ensures Word(Filled(mem, ptr, n), a) == 0xdead_beef
    decreases n
  {
    if a < ptr + 4 * (n - 1) {
      FilledInside(mem, ptr, n - 1, a);
    }
  }
}
