/** The single directory of the file system as its sequence of slots. */
module SfsSlots {
  import opened Words

  /** A directory slot; inode number 0 marks an empty one. */
  datatype Slot = Slot(ino: int, name: string)

  const EMPTY := Slot(0, "")
  const NAMELEN := 60
  /** An inode maps 15 + 128 blocks of 8 slots each. */
  const MAX_SLOTS := (15 + 128) * 8

  function One(b: bool): nat
  {
    if b then 1 else 0
  }

  /** How many slots name an inode. */
  function Count(slots: seq<Slot>, ino: int): nat
  {
    if |slots| == 0 then 0 else Count(slots[..|slots| - 1], ino) + One(slots[|slots| - 1].ino == ino)
  }

  predicate Names(s: Slot, name: string)
  {
    s.ino != 0 && s.name == name
  }

  /** The inode a name leads to, or 0. */
  function Lookup(slots: seq<Slot>, name: string): int
  {
    if |slots| == 0 then 0
    else if Names(slots[|slots| - 1], name) then slots[|slots| - 1].ino
    else Lookup(slots[..|slots| - 1], name)
  }

  /** No two slots have the same name. */
  ghost predicate UniqueNames(slots: seq<Slot>)
  {
    forall i, j :: 0 <= i < j < |slots| && slots[i].ino != 0 && slots[j].ino != 0 ==> slots[i].name != slots[j].name
  }

  lemma {:induction false} CountBound(slots: seq<Slot>, ino: int)
    ensures Count(slots, ino) <= |slots|
  {
    if |slots| > 0 {
      CountBound(slots[..|slots| - 1], ino);
    }
  }

  lemma CountAppend(slots: seq<Slot>, s: Slot, ino: int)
    ensures Count(slots + [s], ino) == Count(slots, ino) + One(s.ino == ino)
  {
    assert (slots + [s])[..|slots|] == slots;
  }

  lemma {:induction false} CountUpdate(slots: seq<Slot>, i: nat, s: Slot, ino: int)
    requires i < |slots|
    ensures Count(slots[i := s], ino) == Count(slots, ino) - One(slots[i].ino == ino) + One(s.ino == ino)
  {
    var n := |slots| - 1;
    if i == n {
      assert slots[i := s][..n] == slots[..n];
    } else {
      assert slots[i := s][..n] == slots[..n][i := s];
      CountUpdate(slots[..n], i, s, ino);
    }
  }

  lemma {:induction false} CountPositive(slots: seq<Slot>, i: nat)
    requires i < |slots|
    ensures Count(slots, slots[i].ino) > 0
  {
    if i < |slots| - 1 {
      CountPositive(slots[..|slots| - 1], i);
    }
  }

  lemma {:induction false} CountZero(slots: seq<Slot>, ino: int)
    requires forall i :: 0 <= i < |slots| ==> slots[i].ino != ino
    ensures Count(slots, ino) == 0
  {
    if |slots| > 0 {
      CountZero(slots[..|slots| - 1], ino);
    }
  }

  /** A name leads to the inode of the slot that has it. */
  lemma {:induction false} LookupIs(slots: seq<Slot>, i: nat)
    requires UniqueNames(slots) && i < |slots| && slots[i].ino != 0
    ensures Lookup(slots, slots[i].name) == slots[i].ino
  {
    if i < |slots| - 1 {
      var front := slots[..|slots| - 1];
      assert forall k :: 0 <= k < |front| ==> front[k] == slots[k];
      LookupIs(front, i);
    }
  }

  lemma {:induction false} LookupNothing(slots: seq<Slot>, name: string)
    requires forall i :: 0 <= i < |slots| ==> !Names(slots[i], name)
    ensures Lookup(slots, name) == 0
  {
    if |slots| > 0 {
      var front := slots[..|slots| - 1];
      assert forall k :: 0 <= k < |front| ==> front[k] == slots[k];
      LookupNothing(front, name);
    }
  }

  lemma {:induction false} LookupFound(slots: seq<Slot>, name: string) returns (i: int)
    requires Lookup(slots, name) != 0
    ensures 0 <= i < |slots| && Names(slots[i], name) && slots[i].ino == Lookup(slots, name)
  {
    if Names(slots[|slots| - 1], name) {
      i := |slots| - 1;
    } else {
      i := LookupFound(slots[..|slots| - 1], name);
    }
  }

  // ----- Filling and clearing slots -----

  /** The directory with a slot written: over an old one, or at the end. */
  function Written(slots: seq<Slot>, i: nat, s: Slot): seq<Slot>
    requires i <= |slots|
  {
    if i == |slots| then slots + [s] else slots[i := s]
  }

  function Cleared(slots: seq<Slot>, i: nat): seq<Slot>
    requires i < |slots|
  {
    slots[i := EMPTY]
  }

  lemma WrittenCount(slots: seq<Slot>, i: nat, s: Slot, ino: int)
    requires i <= |slots|
    ensures Count(Written(slots, i, s), ino) ==
            Count(slots, ino) - (if i < |slots| then One(slots[i].ino == ino) else 0) + One(s.ino == ino)
  {
    if i == |slots| {
      CountAppend(slots, s, ino);
    } else {
      CountUpdate(slots, i, s, ino);
    }
  }

  /** A fresh name put in an empty slot leads to its inode; other names lead where they did. */
  lemma FillSlot(slots: seq<Slot>, i: nat, s: Slot, name: string)
    requires UniqueNames(slots) && i <= |slots| && (i < |slots| ==> slots[i].ino == 0)
    requires s.ino != 0 && Lookup(slots, s.name) == 0
    ensures UniqueNames(Written(slots, i, s))
    ensures Lookup(Written(slots, i, s), name) == if name == s.name then s.ino else Lookup(slots, name)
  {
    var w := Written(slots, i, s);
    NameIsFresh(slots, s.name);
    assert forall k :: 0 <= k < |slots| && k != i ==> w[k] == slots[k];
    assert w[i] == s;
    assert UniqueNames(w);
    if name == s.name {
      LookupIs(w, i);
    } else {
      LookupElsewhere(slots, w, i, name);
    }
  }

  lemma NameIsFresh(slots: seq<Slot>, name: string)
    requires UniqueNames(slots) && Lookup(slots, name) == 0
    ensures forall k :: 0 <= k < |slots| ==> !Names(slots[k], name)
  {
    forall k | 0 <= k < |slots|
      ensures !Names(slots[k], name)
    {
      if slots[k].ino != 0 {
        LookupIs(slots, k);
      }
    }
  }

  /** Names that the changed slot neither had nor has lead where they did. */
  lemma LookupElsewhere(slots: seq<Slot>, w: seq<Slot>, i: nat, name: string)
    requires UniqueNames(slots) && UniqueNames(w) && |slots| <= |w| <= |slots| + 1 && i < |w| && (|w| > |slots| ==> i == |slots|)
    requires forall k :: 0 <= k < |slots| && k != i ==> w[k] == slots[k]
    requires !Names(w[i], name) && (i < |slots| ==> !Names(slots[i], name))
    ensures Lookup(w, name) == Lookup(slots, name)
  {
    if Lookup(slots, name) != 0 {
      var k := LookupFound(slots, name);
      assert w[k] == slots[k];
      LookupIs(w, k);
    } else {
      NameIsFresh(slots, name);
      LookupNothing(w, name);
    }
  }

  /** Clearing a slot forgets its name and nothing else. */
  lemma ClearSlot(slots: seq<Slot>, i: nat, name: string)
    requires UniqueNames(slots) && i < |slots| && slots[i].ino != 0
    ensures UniqueNames(Cleared(slots, i))
    ensures Lookup(Cleared(slots, i), name) == if name == slots[i].name then 0 else Lookup(slots, name)
  {
    var w := Cleared(slots, i);
    assert forall k :: 0 <= k < |w| && k != i ==> w[k] == slots[k];
    if name == slots[i].name {
      forall k | 0 <= k < |w|
        ensures !Names(w[k], name)
      {
      }
      LookupNothing(w, name);
    } else {
      LookupElsewhere(slots, w, i, name);
    }
  }

  /** An empty slot at the end changes nothing. */
  lemma EmptyAtEnd(slots: seq<Slot>, name: string)
    requires UniqueNames(slots)
    ensures UniqueNames(slots + [EMPTY]) && Lookup(slots + [EMPTY], name) == Lookup(slots, name)
  {
    var w := slots + [EMPTY];
    assert forall k :: 0 <= k < |slots| ==> w[k] == slots[k];
    LookupElsewhere(slots, w, |slots|, name);
  }
}
