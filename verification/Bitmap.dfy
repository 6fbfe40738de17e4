/** bitmap.c: an array of bytes as a set of bit numbers. */
module Bitmap {

  const WORD_ALLBITS: bv8 := 0xff

  /** (WORD_TYPE)1 << j */
  function Mask(j: int): bv8
  {
    if j == 0 then 1 else if j == 1 then 2 else if j == 2 then 4 else if j == 3 then 8
    else if j == 4 then 16 else if j == 5 then 32 else if j == 6 then 64 else 128
  }

  predicate Bit(x: bv8, j: int)
  {
    x & Mask(j) != 0
  }

  lemma SetBit(x: bv8, j: int, k: int)
    requires 0 <= j < 8 && 0 <= k < 8
    ensures Bit(x | Mask(j), k) <==> k == j || Bit(x, k)
  {
    OrMasks(x, Mask(j), Mask(k));
    MasksDiffer(j, k);
  }

  lemma ClearBit(x: bv8, j: int, k: int)
    requires 0 <= j < 8 && 0 <= k < 8
    ensures Bit(x & !Mask(j), k) <==> k != j && Bit(x, k)
  {
    AndMasks(x, Mask(j), Mask(k));
    MasksDiffer(j, k);
  }

  lemma MasksDiffer(j: int, k: int)
    requires 0 <= j < 8 && 0 <= k < 8
    ensures Mask(j) != 0 && (j != k ==> Mask(j) & Mask(k) == 0)
  {
  }

  lemma OrMasks(x: bv8, m: bv8, n: bv8)
    ensures m & n == 0 ==> (x | m) & n == x & n
    ensures (x | m) & m == m
  {
  }

  lemma AndMasks(x: bv8, m: bv8, n: bv8)
    ensures m & n == 0 ==> (x & !m) & n == x & n
    ensures (x & !m) & m == 0
  {
  }

  /** A byte with all bits set is WORD_ALLBITS. */
  lemma AllBits(x: bv8)
    ensures x == WORD_ALLBITS <==> forall j :: 0 <= j < 8 ==> Bit(x, j)
  {
    EachBit(x);
    if forall j :: 0 <= j < 8 ==> Bit(x, j) {
      assert Bit(x, 0) && Bit(x, 1) && Bit(x, 2) && Bit(x, 3) && Bit(x, 4) && Bit(x, 5) && Bit(x, 6) && Bit(x, 7);
    }
    if x == WORD_ALLBITS {
      forall j | 0 <= j < 8
        ensures Bit(x, j)
      {
      }
    }
  }

  lemma EachBit(x: bv8)
    ensures x & 1 != 0 && x & 2 != 0 && x & 4 != 0 && x & 8 != 0 && x & 16 != 0 && x & 32 != 0 && x & 64 != 0 && x & 128 != 0 ==> x == 0xff
  {
  }

  /** Bit i of a row of bytes. */
  predicate BitAt(v: seq<bv8>, i: int)
  {
    0 <= i < 8 * |v| && Bit(v[i / 8], i % 8)
  }

  lemma BitChanged(v: seq<bv8>, i: int, w: bv8, on: bool, k: int)
    requires 0 <= i < 8 * |v| && w == if on then v[i / 8] | Mask(i % 8) else v[i / 8] & !Mask(i % 8)
    ensures BitAt(v[i / 8 := w], k) <==> if k == i then on else BitAt(v, k)
  {
    if 0 <= k < 8 * |v| && k / 8 == i / 8 {
      assert k == 8 * (k / 8) + k % 8 && i == 8 * (i / 8) + i % 8;
      if on {
        SetBit(v[i / 8], i % 8, k % 8);
      } else {
        ClearBit(v[i / 8], i % 8, k % 8);
      }
    }
  }

  class BitMap {
    const nbits: nat
    const v: array<bv8>

    ghost predicate Valid()
      reads this, v
    {
      && v.Length == (nbits + 7) / 8
      && forall i :: nbits <= i < 8 * v.Length ==> BitAt(v[..], i)
    }

    /** The marked bit numbers. */
    ghost function Marked(): set<int>
      reads this, v
    {
      set i | 0 <= i < nbits && BitAt(v[..], i)
    }

    /** bitmap_create: nothing is marked but the bits left over in the last byte. */
    constructor (nbits: nat)
      ensures Valid() && this.nbits == nbits && Marked() == {} && fresh(v)
    {
      this.nbits := nbits;
      var words := (nbits + 7) / 8;
      v := new bv8[words](_ => 0);
      new;
      assert forall i :: !BitAt(v[..], i);
      if words > nbits / 8 {
        var ix := words - 1;
        var j := nbits - ix * 8;
        while j < 8
          invariant 0 < nbits - ix * 8 <= j <= 8 && ix == words - 1
          invariant forall i :: BitAt(v[..], i) <==> nbits <= i < ix * 8 + j
        {
          ghost var before, b := v[..], ix * 8 + j;
          assert b / 8 == ix && b % 8 == j;
          v[ix] := v[ix] | Mask(j);
          assert v[..] == before[b / 8 := before[b / 8] | Mask(b % 8)];
          forall i
            ensures BitAt(v[..], i) <==> i == b || BitAt(before, i)
          {
            BitChanged(before, b, before[b / 8] | Mask(b % 8), true, i);
          }
          j := j + 1;
        }
      }
    }

    /** bitmap_alloc: mark the lowest unmarked bit, if there is one. */
    method Alloc() returns (ok: bool, index: int)
      requires Valid()
      modifies v
      ensures Valid()
      ensures ok ==> 0 <= index < nbits && index !in old(Marked()) && Marked() == old(Marked()) + {index}
      ensures ok ==> forall i :: 0 <= i < index ==> i in old(Marked())
      ensures !ok ==> Marked() == old(Marked()) && forall i :: 0 <= i < nbits ==> i in Marked()
    {
      var maxix, ix := (nbits + 7) / 8, 0;
      while ix < maxix
        invariant 0 <= ix <= maxix && v[..] == old(v[..])
        invariant forall i :: 0 <= i < 8 * ix ==> BitAt(v[..], i)
      {
        AllBits(v[ix]);
        if v[ix] != WORD_ALLBITS {
          index := AllocInWord(ix);
          ok := true;
          return;
        }
        forall i | 8 * ix <= i < 8 * ix + 8
          ensures BitAt(v[..], i)
        {
          assert Bit(v[ix], i % 8);
        }
        ix := ix + 1;
      }
      ok, index := false, -1;
    }

    /** The inner loop of bitmap_alloc. */
    method AllocInWord(ix: nat) returns (index: int)
      requires Valid() && ix < v.Length && v[ix] != WORD_ALLBITS
      requires forall i :: 0 <= i < 8 * ix ==> BitAt(v[..], i)
      modifies v
      ensures Valid() && 0 <= index < nbits && index !in old(Marked()) && Marked() == old(Marked()) + {index}
      ensures forall i :: 0 <= i < index ==> BitAt(old(v[..]), i)
    {
      AllBits(v[ix]);
      var offset := 0;
      while offset < 8
        invariant 0 <= offset <= 8 && v[..] == old(v[..])
        invariant forall j :: 0 <= j < offset ==> Bit(v[ix], j)
      {
        if v[ix] & Mask(offset) == 0 {
          index := ix * 8 + offset;
          assert index / 8 == ix && index % 8 == offset && !Bit(v[ix], offset);
          assert !BitAt(v[..], index);
          forall i | 8 * ix <= i < index
            ensures BitAt(v[..], i)
          {
            assert Bit(v[ix], i % 8);
          }
          SetAt(index);
          return;
        }
        offset := offset + 1;
      }
      // KASSERT(0)
      assert false;
    }

    /** bitmap_mark */
    method Mark(index: nat)
      requires Valid() && index < nbits && index !in Marked()
      modifies v
      ensures Valid() && Marked() == old(Marked()) + {index}
    {
      SetAt(index);
    }

    method SetAt(index: nat)
      requires Valid() && index < nbits
      modifies v
      ensures Valid() && Marked() == old(Marked()) + {index}
    {
      ghost var before := v[..];
      var ix, mask := index / 8, Mask(index % 8);
      v[ix] := v[ix] | mask;
      assert v[..] == before[index / 8 := before[index / 8] | Mask(index % 8)];
      forall i
        ensures BitAt(v[..], i) <==> i == index || BitAt(before, i)
      {
        BitChanged(before, index, before[index / 8] | Mask(index % 8), true, i);
      }
    }

    /** bitmap_unmark */
    method Unmark(index: nat)
      requires Valid() && index in Marked()
      modifies v
      ensures Valid() && Marked() == old(Marked()) - {index}
    {
      ghost var before := v[..];
      var ix, mask := index / 8, Mask(index % 8);
      assert v[ix] & mask != 0;
      v[ix] := v[ix] & !mask;
      assert v[..] == before[index / 8 := before[index / 8] & !Mask(index % 8)];
      forall i
        ensures BitAt(v[..], i) <==> i != index && BitAt(before, i)
      {
        BitChanged(before, index, before[index / 8] & !Mask(index % 8), false, i);
      }
    }

    /** bitmap_isset, which also answers for the bits left over. */
    method IsSet(index: nat) returns (set': bool)
      requires Valid() && index < 8 * v.Length
      ensures set' <==> index in Marked() || index >= nbits
    {
      set' := v[index / 8] & Mask(index % 8) != 0;
      assert set' == BitAt(v[..], index);
    }
  }
}
