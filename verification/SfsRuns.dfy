/** Whole runs of file operations, against files that are flat byte sequences. */
module SfsRuns {
  import opened SfsVolume
  import opened SfsBytes
  import opened SfsFile
  import opened Words

  datatype Op =
    | ReadOp(ino: int, off: nat, n: nat)
    | WriteOp(ino: int, off: nat, d: seq<int>)
    | TruncateOp(ino: int)
    | SyncOp(ino: int)
    | ReloadOp(ino: int)
    | CreateOp
    | DiscardOp(ino: int)

  /** What the caller sees: an error, the bytes read, the bytes the uio moved, or the
      new inode. */
  datatype Outcome = NoSuchFile | Done(err: Err, bytes: seq<int>, moved: nat, ino: int)

  type Flat = map<int, seq<int>>

  ghost function Files(v: Vol): Flat
  {
    map ino | ino in v.files :: Contents(v, ino)
  }

  predicate OpOnMissing(flat: Flat, op: Op)
  {
    !op.CreateOp? && op.ino !in flat
  }

  /** A write cut short by a faulting user copy: a prefix is stored, and the file reaches
      to where the copy got. */
  function Faulted(c: seq<int>, off: nat, d: seq<int>, stored: int, moved: nat): seq<int>
    requires 0 <= stored <= moved <= |d|
  {
    FlatWrite(FlatWrite(c, off, d[..stored]), off + moved, [])
  }

  /** What an operation may return, and what it makes of the files, if the device does
      not fail. */
  ghost predicate FlatStep(flat: Flat, op: Op, out: Outcome, flat': Flat)
  {
    if OpOnMissing(flat, op) then out == NoSuchFile && flat' == flat
    else
      && out.Done? && out.err != EIO
      && match op
         case ReadOp(ino, off, n) =>
           var all := if off < |flat[ino]| then flat[ino][off..Min(off + n, |flat[ino]|)] else [];
           && flat' == flat && out.bytes <= all && (out.err == Fine ==> out.bytes == all)
           && out.err != ENOSPC && (out.err == EFBIG ==> |flat[ino]| > MAX_SIZE)
         case WriteOp(ino, off, d) =>
           && out.moved <= |d| && (out.err == Fine ==> out.moved == |d|)
           && (out.err == EFBIG ==> off + |d| > MAX_SIZE)
           && if out.err == EFAULT then exists stored :: 0 <= stored <= out.moved && flat' == flat[ino := Faulted(flat[ino], off, d, stored, out.moved)]
              else flat' == flat[ino := FlatWrite(flat[ino], off, d[..out.moved])]
         case TruncateOp(ino) => out.err == Fine && flat' == flat[ino := []]
         case SyncOp(ino) => out.err == Fine && flat' == flat
         case ReloadOp(ino) => out.err == Fine && flat' == flat
         case CreateOp =>
           if out.err == Fine then out.ino !in flat && flat' == flat[out.ino := []] else out.err == ENOSPC && flat' == flat
         case DiscardOp(ino) => out.err == Fine && flat' == flat - {ino}
  }

  /** A step of a volume is that of its files, and space runs out only on a full one. */
  ghost predicate VolStep(v: Vol, op: Op, out: Outcome, w: Vol)
  {
    && FlatStep(Files(v), op, out, Files(w))
    && (out.Done? && out.err == ENOSPC ==> Full(w))
  }

  ghost predicate IsFlatRun(vols: seq<Vol>, ops: seq<Op>, outs: seq<Outcome>)
  {
    && |vols| == |ops| + 1 == |outs| + 1
    && forall i :: 0 <= i < |ops| ==> VolStep(vols[i], ops[i], outs[i], vols[i + 1])
  }

  predicate Is(out: Outcome, err: Err)
  {
    out.Done? && out.err == err
  }

  /** How many operations ended in that error. */
  function Errors(outs: seq<Outcome>, err: Err): nat
  {
    if |outs| == 0 then 0 else Errors(outs[..|outs| - 1], err) + One(Is(outs[|outs| - 1], err))
  }

  lemma ErrorsSnoc(outs: seq<Outcome>, out: Outcome, err: Err)
    ensures Errors(outs + [out], err) == Errors(outs, err) + One(Is(out, err))
  {
    assert (outs + [out])[..|outs|] == outs;
  }

  lemma {:induction false} NoErrors(outs: seq<Outcome>, err: Err, i: nat)
    requires i < |outs| && Errors(outs, err) == 0
    ensures !Is(outs[i], err)
  {
    if i < |outs| - 1 {
      NoErrors(outs[..|outs| - 1], err, i);
    }
  }

  /** Whatever the operation, when no transfer fails and no user copy faults: a read gives
      all there is and a write stores everything, but for the largest file and a full volume. */
  lemma UndisturbedStep(v: Vol, op: Op, out: Outcome, w: Vol)
    requires VolStep(v, op, out, w) && !Is(out, EIO) && !Is(out, EFAULT) && !OpOnMissing(Files(v), op)
    ensures op.ReadOp? && |Files(v)[op.ino]| <= MAX_SIZE ==>
              out.err == Fine && |out.bytes| == Max(0, Min(op.n, |Files(v)[op.ino]| - op.off))
              && (|out.bytes| > 0 ==> out.bytes == Files(v)[op.ino][op.off..op.off + |out.bytes|]) && Files(w) == Files(v)
    ensures op.WriteOp? && op.off + |op.d| <= MAX_SIZE ==>
              (out.err == Fine && Files(w) == Files(v)[op.ino := FlatWrite(Files(v)[op.ino], op.off, op.d)]) || Full(w)
    ensures op.CreateOp? ==> out.err == Fine || Full(w)
    ensures op.TruncateOp? || op.SyncOp? || op.ReloadOp? || op.DiscardOp? ==> out.err == Fine
  {
    if op.WriteOp? && out.err == Fine {
      assert op.d[..out.moved] == op.d;
    }
  }

  /** One operation, of whatever kind. */
  method Perform(fs: Sfs, op: Op) returns (out: Outcome)
    requires fs.Valid() && Settled(fs.vol)
    modifies fs
    ensures fs.Valid() && Settled(fs.vol) && fs.Charged(if out.Done? then out.err else Fine)
    ensures !Is(out, EIO) ==> VolStep(old(fs.vol), op, out, fs.vol)
  {
    if !op.CreateOp? && op.ino !in fs.vol.files {
      return NoSuchFile;
    }
    match op {
      case ReadOp(ino, off, n) => {
        out := PerformRead(fs, ino, off, n);
      }
      case WriteOp(ino, off, d) => {
        out := PerformWrite(fs, ino, off, d);
      }
      case CreateOp => {
        var err, ino := fs.MakeObj();
        out := Done(err, [], 0, ino);
      }
      case _ => {
        out := PerformOther(fs, op);
      }
    }
  }

  method PerformOther(fs: Sfs, op: Op) returns (out: Outcome)
    requires fs.Valid() && Settled(fs.vol) && !op.CreateOp? && !op.ReadOp? && !op.WriteOp? && op.ino in fs.vol.files
    modifies fs
    ensures fs.Valid() && Settled(fs.vol) && out.Done? && fs.Charged(out.err)
    ensures !Is(out, EIO) ==> VolStep(old(fs.vol), op, out, fs.vol)
  {
    var err;
    match op {
      case TruncateOp(ino) => {
        err := fs.Truncate(ino);
      }
      case SyncOp(ino) => {
        err := fs.Sync(ino);
      }
      case ReloadOp(ino) => {
        err := fs.Reload(ino);
      }
      case DiscardOp(ino) => {
        err := fs.Discard(ino);
      }
    }
    out := Done(err, [], 0, 0);
  }

  method PerformRead(fs: Sfs, ino: int, off: nat, n: nat) returns (out: Outcome)
    requires fs.Valid() && Settled(fs.vol) && ino in fs.vol.files
    modifies fs
    ensures fs.Valid() && Settled(fs.vol) && out.Done? && fs.Charged(out.err)
    ensures !Is(out, EIO) ==> VolStep(old(fs.vol), ReadOp(ino, off, n), out, fs.vol)
  {
    var err, bytes := fs.Read(ino, off, n);
    out := Done(err, bytes, 0, 0);
    ghost var c := Contents(fs.vol, ino);
    if |bytes| > 0 {
      assert bytes == c[off..Min(off + n, |c|)][..|bytes|];
    }
  }

  method PerformWrite(fs: Sfs, ino: int, off: nat, d: seq<int>) returns (out: Outcome)
    requires fs.Valid() && Settled(fs.vol) && ino in fs.vol.files
    modifies fs
    ensures fs.Valid() && Settled(fs.vol) && out.Done? && fs.Charged(out.err)
    ensures !Is(out, EIO) ==> VolStep(old(fs.vol), WriteOp(ino, off, d), out, fs.vol)
  {
    var err, moved, stored := fs.Write(ino, off, d);
    out := Done(err, [], moved, 0);
    ghost var c := Contents(old(fs.vol), ino);
    if err == EFAULT {
      assert Files(fs.vol) == Files(old(fs.vol))[ino := Faulted(c, off, d, stored, moved)];
    } else if err != EIO {
      assert Files(fs.vol) == Files(old(fs.vol))[ino := FlatWrite(c, off, d[..moved])];
    }
  }

  // ----- A volume to start from -----

  function Upto(lo: int, hi: int): (r: set<int>)
    ensures forall b :: b in r <==> lo <= b < hi
    decreases hi - lo
  {
    if lo >= hi then {} else Upto(lo, hi - 1) + {hi - 1}
  }

  /** A volume as mksfs leaves it: the superblock, the empty root directory in block 1,
      and the freemap from block 2 on, as many blocks as its bits need. */
  function Formatted(nblocks: nat): Vol
  {
    Layout(nblocks, (nblocks + BITS_PER_BLOCK - 1) / BITS_PER_BLOCK)
  }

  /** Bits in a block. */
  const BITS_PER_BLOCK := BLOCK_SIZE * 8

  /** With a freemap of that many blocks. */
  function Layout(nblocks: nat, mapblocks: nat): Vol
  {
    var root, nbits, used := Inode(0, Zeros(NDIRECT), 0), mapblocks * BITS_PER_BLOCK, Upto(0, 2 + mapblocks);
    Vol(nblocks, nbits, map[1 := InodeBlock(root)], used + Upto(nblocks, nbits),
        map[1 := root], map b | b in used :: if b == 1 then OwnInode else Reserved)
  }

  /** A formatted volume can be mounted: every run may start from one. */
  lemma FormattedIsOk(nblocks: nat)
    requires 2 + (nblocks + BITS_PER_BLOCK - 1) / BITS_PER_BLOCK <= nblocks
    ensures var v := Formatted(nblocks); Ok(v) && Tidy(v) && Settled(v) && Clean(v, {}) && Files(v) == map[1 := []]
  {
    var v := Formatted(nblocks);
    RootIsEmpty(v);
    LayoutMap(nblocks, (nblocks + BITS_PER_BLOCK - 1) / BITS_PER_BLOCK);
    assert FileOk(v, 1);
    assert Parts(v);
    assert Exact(v);
    assert TailOk(v) && SizesOk(v);
    assert forall ino :: ino in v.files ==> At(v, ino) == InodeBlock(v.files[ino]);
  }

  lemma LayoutMap(nblocks: nat, mapblocks: nat)
    requires 2 + mapblocks <= nblocks <= mapblocks * BITS_PER_BLOCK
    ensures MapOk(Layout(nblocks, mapblocks))
  {
  }

  lemma RootIsEmpty(v: Vol)
    requires v.files == map[1 := Inode(0, Zeros(NDIRECT), 0)]
    ensures (forall fb :: Entry(v, 1, fb) == 0) && (forall i :: Byte(v, 1, i) == 0) && Files(v) == map[1 := []]
  {
    forall i
      ensures Byte(v, 1, i) == 0
    {
      assert Entry(v, 1, i / BLOCK_SIZE) == 0;
    }
    assert Contents(v, 1) == [];
  }

  lemma RunGrows(vols: seq<Vol>, ops: seq<Op>, outs: seq<Outcome>, i: nat, out: Outcome, vol: Vol)
    requires i < |ops| && IsFlatRun(vols, ops[..i], outs) && VolStep(vols[i], ops[i], out, vol)
    ensures IsFlatRun(vols + [vol], ops[..i + 1], outs + [out])
  {
    var s, o := vols + [vol], outs + [out];
    forall k | 0 <= k < i + 1
      ensures VolStep(s[k], ops[..i + 1][k], o[k], s[k + 1])
    {
      if k < i {
        assert VolStep(vols[k], ops[..i][k], outs[k], vols[k + 1]);
      }
    }
  }

  /** Any sequence of operations: unless one of them ended in EIO, every outcome is that
      of flat files, and the disk ends up holding those files. Each EIO is a transfer that
      was to fail and did, each EFAULT a user copy that was to fault; so with no fault of
      either kind to come there are none. Whatever happened, the blocks in use stay
      distinct and marked. */
  method Run(fs: Sfs, ops: seq<Op>) returns (outs: seq<Outcome>, ghost vols: seq<Vol>)
    requires fs.Valid() && Settled(fs.vol)
    modifies fs
    ensures fs.Valid() && Settled(fs.vol) && |vols| == |ops| + 1 && |outs| == |ops|
    ensures fs.failures == old(fs.failures) + Errors(outs, EIO) && fs.copyFaults == old(fs.copyFaults) + Errors(outs, EFAULT)
    ensures Errors(outs, EIO) + Due(fs.faults) == Due(old(fs.faults)) && Errors(outs, EFAULT) <= Short(old(fs.copies))
    ensures Errors(outs, EIO) == 0 ==> IsFlatRun(vols, ops, outs) && vols[0] == old(fs.vol) && vols[|ops|] == fs.vol
  {
    outs, vols := [], [fs.vol];
    var i := 0;
    while i < |ops|
      invariant 0 <= i <= |ops| && |vols| == i + 1 && |outs| == i
      invariant fs.Valid() && Settled(fs.vol)
      invariant fs.failures == old(fs.failures) + Errors(outs, EIO) && fs.copyFaults == old(fs.copyFaults) + Errors(outs, EFAULT)
      invariant fs.failures + Due(fs.faults) == old(fs.failures + Due(fs.faults))
      invariant fs.copyFaults + Short(fs.copies) <= old(fs.copyFaults + Short(fs.copies))
      invariant Errors(outs, EIO) == 0 ==> IsFlatRun(vols, ops[..i], outs) && vols[0] == old(fs.vol) && vols[i] == fs.vol
    {
      var out := Perform(fs, ops[i]);
      ErrorsSnoc(outs, out, EIO);
      ErrorsSnoc(outs, out, EFAULT);
      if Errors(outs + [out], EIO) == 0 {
        RunGrows(vols, ops, outs, i, out, fs.vol);
      }
      vols := vols + [fs.vol];
      outs := outs + [out];
      i := i + 1;
    }
    assert ops[..i] == ops;
  }

  /** With no fault of either kind to come, every operation of the run is undisturbed. */
  lemma RunUndisturbed(vols: seq<Vol>, ops: seq<Op>, outs: seq<Outcome>, i: nat)
    requires IsFlatRun(vols, ops, outs) && Errors(outs, EIO) == 0 && Errors(outs, EFAULT) == 0
    requires i < |ops| && ops[i].ReadOp? && ops[i].ino in vols[i].files && |Contents(vols[i], ops[i].ino)| <= MAX_SIZE
    ensures var c := Contents(vols[i], ops[i].ino);
            && outs[i].Done? && outs[i].err == Fine
            && outs[i].bytes == if ops[i].off < |c| then c[ops[i].off..Min(ops[i].off + ops[i].n, |c|)] else []
  {
    NoErrors(outs, EIO, i);
    NoErrors(outs, EFAULT, i);
    assert VolStep(vols[i], ops[i], outs[i], vols[i + 1]);
    assert Files(vols[i])[ops[i].ino] == Contents(vols[i], ops[i].ino);
    UndisturbedStep(vols[i], ops[i], outs[i], vols[i + 1]);
  }
}
