/** uio.c: moving bytes between a kernel buffer and the memory a list of iovecs covers.
    The list stands for the sequence of addresses it covers, front to back. */
module Uio {
  import opened Words

  datatype Iovec = Iovec(base: int, len: nat)

  datatype Direction = READ | WRITE

  datatype Err = Fine | EFAULT

  function Range(base: int, n: nat): (r: seq<int>)
    ensures |r| == n && forall i :: 0 <= i < n ==> r[i] == base + i
  {
    seq(n, i requires 0 <= i < n => base + i)
  }

  /** The addresses a list of iovecs covers. */
  function Places(iov: seq<Iovec>): seq<int>
  {
    if |iov| == 0 then [] else Range(iov[0].base, iov[0].len) + Places(iov[1..])
  }

  /** Storing one value after another: where addresses repeat, the last one stays. */
  function Scatter(m: seq<int>, places: seq<int>, d: seq<int>): (r: seq<int>)
    requires |places| == |d| && forall i :: 0 <= i < |places| ==> 0 <= places[i] < |m|
    ensures |r| == |m|
    decreases |d|
  {
    if |d| == 0 then m else Scatter(m, places[..|d| - 1], d[..|d| - 1])[places[|d| - 1] := d[|d| - 1]]
  }

  function Gather(m: seq<int>, places: seq<int>): (r: seq<int>)
    requires forall i :: 0 <= i < |places| ==> 0 <= places[i] < |m|
    ensures |r| == |places|
  {
    seq(|places|, i requires 0 <= i < |places| => m[places[i]])
  }

  ghost predicate Distinct(ps: seq<int>)
  {
    forall i, j :: 0 <= i < j < |ps| ==> ps[i] != ps[j]
  }

  /** What was scattered over distinct addresses is there, and nothing else changed. */
  lemma {:induction false} ScatterGather(m: seq<int>, places: seq<int>, d: seq<int>, p: int)
    requires |places| == |d| && (forall i :: 0 <= i < |places| ==> 0 <= places[i] < |m|) && Distinct(places) && 0 <= p < |m|
    ensures Gather(Scatter(m, places, d), places) == d
    ensures p !in places ==> Scatter(m, places, d)[p] == m[p]
    decreases |d|
  {
    if |d| > 0 {
      var n := |d| - 1;
      var front := Scatter(m, places[..n], d[..n]);
      ScatterGather(m, places[..n], d[..n], p);
      var r := Scatter(m, places, d);
      forall i | 0 <= i < |d|
        ensures r[places[i]] == d[i]
      {
        if i < n {
          assert Gather(front, places[..n])[i] == d[..n][i];
          assert places[..n][i] == places[i];
        }
      }
      assert p !in places ==> p !in places[..n];
    }
  }

  lemma {:induction false} ScatterTwice(m: seq<int>, ps: seq<int>, qs: seq<int>, d: seq<int>, e: seq<int>)
    requires |ps| == |d| && |qs| == |e|
    requires (forall i :: 0 <= i < |ps| ==> 0 <= ps[i] < |m|) && forall i :: 0 <= i < |qs| ==> 0 <= qs[i] < |m|
    ensures forall i :: 0 <= i < |ps + qs| ==> 0 <= (ps + qs)[i] < |m|
    ensures Scatter(Scatter(m, ps, d), qs, e) == Scatter(m, ps + qs, d + e)
    decreases |e|
  {
    if |e| == 0 {
      assert ps + qs == ps && d + e == d;
    } else {
      var n := |e| - 1;
      ScatterTwice(m, ps, qs[..n], d, e[..n]);
      assert (ps + qs)[..|d| + n] == ps + qs[..n];
      assert (d + e)[..|d| + n] == d + e[..n];
    }
  }

  lemma RangeSplit(base: int, k: nat, n: nat)
    requires k <= n
    ensures Range(base, n) == Range(base, k) + Range(base + k, n - k)
  {
  }

  lemma Apart(a: seq<int>, q: seq<int>)
    ensures (a + q)[..|a|] == a && (a + q)[|a|..] == q
  {
  }

  lemma Slices(s: seq<int>, i: nat, n: nat)
    requires i + n <= |s|
    ensures s[..i] + s[i..][..n] == s[..i + n] && s[i..][n..] == s[i + n..]
  {
  }

  lemma {:induction false} PlacesOf(v: Iovec, rest: seq<Iovec>)
    ensures Places([v] + rest) == Range(v.base, v.len) + Places(rest)
  {
    assert ([v] + rest)[1..] == rest;
  }

  lemma FrontBack(front: seq<int>, back: seq<int>, rest: seq<int>)
    ensures ((front + back) + rest)[..|front|] == front && ((front + back) + rest)[|front|..] == back + rest
  {
    assert (front + back) + rest == front + (back + rest);
    Apart(front, back + rest);
  }

  /** Using up the front of the first iovec drops its addresses from the front. */
  lemma {:induction false} Advance(iov: seq<Iovec>, k: nat)
    requires |iov| > 0 && k <= iov[0].len
    ensures |Places(iov)| >= iov[0].len
    ensures Places(iov)[..k] == Range(iov[0].base, k)
    ensures Places([Iovec(iov[0].base + k, iov[0].len - k)] + iov[1..]) == Places(iov)[k..]
  {
    var v, rest := iov[0], iov[1..];
    assert iov == [v] + rest;
    PlacesOf(v, rest);
    PlacesOf(Iovec(v.base + k, v.len - k), rest);
    RangeSplit(v.base, k, v.len);
    FrontBack(Range(v.base, k), Range(v.base + k, v.len - k), Places(rest));
  }

  lemma EmptyFirst(iov: seq<Iovec>)
    requires |iov| > 0 && iov[0].len == 0
    ensures Places(iov[1..]) == Places(iov)
  {
  }

  // ----- What has been moved -----

  /** The values at `places` of memory m and in buffer b from `at` on have been moved
      one way or the other, and nothing else changed. */
  ghost predicate MovedParts(rw: Direction, places: seq<int>, at: nat, m: seq<int>, b: seq<int>, m': seq<int>, b': seq<int>)
  {
    var n := |places|;
    && |m'| == |m| && |b'| == |b| && at + n <= |b|
    && (forall i :: 0 <= i < n ==> 0 <= places[i] < |m|)
    && match rw
       case READ => b' == b && m' == Scatter(m, places, b[at..at + n])
       case WRITE => m' == m && b' == b[..at] + Gather(m, places) + b[at + n..]
  }

  /** The same, folded: Open unfolds it. */
  ghost predicate Moved(rw: Direction, places: seq<int>, at: nat, m: seq<int>, b: seq<int>, m': seq<int>, b': seq<int>)
  {
    forall k: int {:trigger Spelled(k)} :: k == 0 ==> MovedParts(rw, places, at, m, b, m', b')
  }

  lemma Open(rw: Direction, places: seq<int>, at: nat, m: seq<int>, b: seq<int>, m': seq<int>, b': seq<int>)
    requires Moved(rw, places, at, m, b, m', b')
    ensures MovedParts(rw, places, at, m, b, m', b')
  {
    assert Spelled(0);
  }

  lemma NothingMoved(rw: Direction, at: nat, m: seq<int>, b: seq<int>)
    requires at <= |b|
    ensures Moved(rw, [], at, m, b, m, b)
  {
    assert b == b[..at] + [] + b[at..];
    assert MovedParts(rw, [], at, m, b, m, b);
  }

  lemma ReadKeepsBuffer(places: seq<int>, at: nat, m: seq<int>, b: seq<int>, m': seq<int>, b': seq<int>)
    requires Moved(READ, places, at, m, b, m', b')
    ensures b' == b
  {
    Open(READ, places, at, m, b, m', b');
  }

  /** A piece moved after others extends what has moved. */
  lemma MovedMore(rw: Direction, ps: seq<int>, qs: seq<int>, at: nat, m: seq<int>, b: seq<int>,
                  m1: seq<int>, b1: seq<int>, m2: seq<int>, b2: seq<int>)
    requires Moved(rw, ps, at, m, b, m1, b1) && Moved(rw, qs, at + |ps|, m1, b1, m2, b2)
    ensures Moved(rw, ps + qs, at, m, b, m2, b2)
  {
    Open(rw, ps, at, m, b, m1, b1);
    Open(rw, qs, at + |ps|, m1, b1, m2, b2);
    var mid, end := at + |ps|, at + |ps + qs|;
    if rw == READ {
      assert b[at..end] == b[at..mid] + b[mid..end];
      ScatterTwice(m, ps, qs, b[at..mid], b[mid..end]);
    } else {
      GatherTwice(m, ps, qs);
      Spliced(b, at, Gather(m, ps), Gather(m, qs));
    }
    assert MovedParts(rw, ps + qs, at, m, b, m2, b2);
  }

  lemma GatherTwice(m: seq<int>, ps: seq<int>, qs: seq<int>)
    requires (forall i :: 0 <= i < |ps| ==> 0 <= ps[i] < |m|) && forall i :: 0 <= i < |qs| ==> 0 <= qs[i] < |m|
    ensures forall i :: 0 <= i < |ps + qs| ==> 0 <= (ps + qs)[i] < |m|
    ensures Gather(m, ps + qs) == Gather(m, ps) + Gather(m, qs)
  {
  }

  lemma Spliced(b: seq<int>, at: nat, d: seq<int>, e: seq<int>)
    requires at + |d| + |e| <= |b|
    ensures var b1 := b[..at] + d + b[at + |d|..];
            b1[..at + |d|] + e + b1[at + |d| + |e|..] == b[..at] + (d + e) + b[at + |d + e|..]
  {
    var b1 := b[..at] + d + b[at + |d|..];
    assert b1[..at + |d|] == b[..at] + d;
    assert b1[at + |d| + |e|..] == b[at + |d| + |e|..];
  }

  lemma Extended(m: seq<int>, base: nat, i: nat, b: seq<int>, at: nat)
    requires base + i < |m| && at + i < |b|
    ensures (b[..at] + Gather(m, Range(base, i)) + b[at + i..])[at + i := m[base + i]] == b[..at] + Gather(m, Range(base, i + 1)) + b[at + i + 1..]
  {
    assert Gather(m, Range(base, i + 1)) == Gather(m, Range(base, i)) + [m[base + i]];
  }

  /** Copies took their turns: those of them that were to fault are the last one, if the
      outcome is EFAULT, and none otherwise. */
  ghost predicate UsedUp(was: seq<bool>, now: seq<bool>, err: Err)
  {
    var k := |was| - |now|;
    && 0 <= k && now == was[k..]
    && (forall i :: 0 <= i < k - 1 ==> !was[i])
    && if err == EFAULT then k > 0 && was[k - 1] else k > 0 ==> !was[k - 1]
  }

  /** The same, folded. */
  ghost predicate Used(was: seq<bool>, now: seq<bool>, err: Err)
  {
    forall k: int {:trigger Spelled(k)} :: k == 0 ==> UsedUp(was, now, err)
  }

  lemma UsedNone(was: seq<bool>)
    ensures Used(was, was, Fine)
  {
    assert UsedUp(was, was, Fine);
  }

  lemma UsedOne(was: seq<bool>, now: seq<bool>, err: Err)
    requires err == if |was| > 0 && was[0] then EFAULT else Fine
    requires now == if |was| > 0 then was[1..] else []
    ensures Used(was, now, err)
  {
    assert UsedUp(was, now, err);
  }

  /** So a copy that answers EFAULT met a fault that was to come. */
  lemma FaultHasCause(was: seq<bool>, now: seq<bool>)
    requires Used(was, now, EFAULT)
    ensures true in was
  {
    assert Spelled(0);
    assert was[|was| - |now| - 1];
  }

  lemma UsedMore(a: seq<bool>, b: seq<bool>, c: seq<bool>, err: Err)
    requires Used(a, b, Fine) && Used(b, c, err)
    ensures Used(a, c, err)
  {
    assert Spelled(0);
    var k, l := |a| - |b|, |b| - |c|;
    assert a[k..][l..] == a[k + l..];
    assert forall i :: 0 <= i < l ==> b[i] == a[k + i];
    forall i | 0 <= i < k + l - 1
      ensures !a[i]
    {
      if i >= k {
        assert b[i - k] == a[i];
      }
    }
    assert UsedUp(a, c, err);
  }

  class UioState {
    /** The memory of the process, or of the kernel. */
    const mem: array<int>
    const rw: Direction
    var iov: seq<Iovec>
    var resid: nat
    var offset: int
    /** Which of the coming user copies fault. */
    var faults: seq<bool>

    ghost predicate Valid()
      reads this
    {
      && resid <= |Places(iov)|
      && forall i :: 0 <= i < |Places(iov)| ==> 0 <= Places(iov)[i] < mem.Length
    }

    /** Whether the coming user copy faults. */
    method NextFault() returns (err: Err)
      modifies this`faults
      ensures err == if |old(faults)| > 0 && old(faults)[0] then EFAULT else Fine
      ensures faults == if |old(faults)| > 0 then old(faults)[1..] else []
    {
      err := if |faults| > 0 && faults[0] then EFAULT else Fine;
      faults := if |faults| > 0 then faults[1..] else [];
    }

    /** copyout: all or nothing. memmove is one that never faults. */
    method CopyOut(buf: array<int>, at: nat, base: int, size: nat) returns (err: Err)
      requires buf != mem && at + size <= buf.Length && 0 <= base && base + size <= mem.Length
      modifies this`faults, mem
      ensures err != Fine ==> mem[..] == old(mem[..])
      ensures err == Fine ==> Moved(READ, Range(base, size), at, old(mem[..]), buf[..], mem[..], buf[..])
      ensures err == if |old(faults)| > 0 && old(faults)[0] then EFAULT else Fine
      ensures faults == if |old(faults)| > 0 then old(faults)[1..] else []
    {
      err := NextFault();
      if err == Fine {
        MoveOut(buf, at, base, size);
      }
    }

    method MoveOut(buf: array<int>, at: nat, base: int, size: nat)
      requires buf != mem && at + size <= buf.Length && 0 <= base && base + size <= mem.Length
      modifies mem
      ensures Moved(READ, Range(base, size), at, old(mem[..]), buf[..], mem[..], buf[..])
    {
      ghost var m := mem[..];
      var i := 0;
      assert buf[at..at] == [];
      while i < size
        invariant 0 <= i <= size && |m| == mem.Length
        invariant mem[..] == Scatter(m, Range(base, i), buf[at..at + i])
      {
        assert Range(base, i + 1)[..i] == Range(base, i) && buf[at..at + i + 1][..i] == buf[at..at + i];
        mem[base + i] := buf[at + i];
        i := i + 1;
      }
      assert buf[..][at..at + size] == buf[at..at + size];
      assert MovedParts(READ, Range(base, size), at, m, buf[..], mem[..], buf[..]);
    }

    /** copyin */
    method CopyIn(buf: array<int>, at: nat, base: int, size: nat) returns (err: Err)
      requires buf != mem && at + size <= buf.Length && 0 <= base && base + size <= mem.Length
      modifies this`faults, buf
      ensures err != Fine ==> buf[..] == old(buf[..])
      ensures err == Fine ==> Moved(WRITE, Range(base, size), at, mem[..], old(buf[..]), mem[..], buf[..])
      ensures err == if |old(faults)| > 0 && old(faults)[0] then EFAULT else Fine
      ensures faults == if |old(faults)| > 0 then old(faults)[1..] else []
    {
      err := NextFault();
      if err == Fine {
        MoveIn(buf, at, base, size);
      }
    }

    method MoveIn(buf: array<int>, at: nat, base: int, size: nat)
      requires buf != mem && at + size <= buf.Length && 0 <= base && base + size <= mem.Length
      modifies buf
      ensures Moved(WRITE, Range(base, size), at, mem[..], old(buf[..]), mem[..], buf[..])
    {
      ghost var b := buf[..];
      var i := 0;
      assert b == b[..at] + Gather(mem[..], Range(base, 0)) + b[at..];
      while i < size
        invariant 0 <= i <= size && |b| == buf.Length
        invariant buf[..] == b[..at] + Gather(mem[..], Range(base, i)) + b[at + i..]
      {
        Extended(mem[..], base, i, b, at);
        buf[at + i] := mem[base + i];
        i := i + 1;
      }
      assert MovedParts(WRITE, Range(base, size), at, mem[..], b, mem[..], buf[..]);
    }

    /** A pass of the loop of uiomove that moves something. */
    method MovePiece(buf: array<int>, at: nat, size: nat) returns (err: Err)
      requires Valid() && buf != mem && |iov| > 0 && 0 < size <= iov[0].len && size <= resid && at + size <= buf.Length
      modifies this, mem, buf
      ensures Valid() && size <= |old(Places(iov))|
      ensures err != Fine ==> Places(iov) == old(Places(iov)) && resid == old(resid) && offset == old(offset) && mem[..] == old(mem[..]) && buf[..] == old(buf[..])
      ensures err == Fine ==>
                && Places(iov) == old(Places(iov))[size..] && resid == old(resid) - size && offset == old(offset) + size
                && Moved(rw, old(Places(iov))[..size], at, old(mem[..]), old(buf[..]), mem[..], buf[..])
      ensures Used(old(faults), faults, err)
    {
      Advance(iov, size);
      ghost var places := Places(iov);
      assert places[0] == iov[0].base && places[size - 1] == iov[0].base + size - 1 by {
        assert places[..size][0] == places[0] && places[..size][size - 1] == places[size - 1];
      }
      if rw == READ {
        err := CopyOut(buf, at, iov[0].base, size);
      } else {
        err := CopyIn(buf, at, iov[0].base, size);
      }
      UsedOne(old(faults), faults, err);
      if err != Fine {
        return;
      }
      iov := [Iovec(iov[0].base + size, iov[0].len - size)] + iov[1..];
      resid := resid - size;
      offset := offset + size;
    }

    /** uiomove: n bytes move between buf, from `at` on, and the next n addresses. A
        fault stops it after a whole number of pieces, all accounted for. */
    method UioMove(buf: array<int>, at: nat, n: nat) returns (err: Err, moved: nat)
      requires Valid() && buf != mem && n <= resid && at + n <= buf.Length
      modifies this, mem, buf
      ensures Valid() && moved <= n && (err == Fine ==> moved == n)
      ensures moved <= |old(Places(iov))| && Places(iov) == old(Places(iov))[moved..]
      ensures resid == old(resid) - moved && offset == old(offset) + moved
      ensures Moved(rw, old(Places(iov))[..moved], at, old(mem[..]), old(buf[..]), mem[..], buf[..])
      ensures Used(old(faults), faults, err)
    {
      ghost var places, m, b := Places(iov), mem[..], buf[..];
      err, moved := Fine, 0;
      UsedNone(faults);
      NothingMoved(rw, at, m, b);
      assert places[..0] == [] && places[0..] == places;
      while moved < n && resid > 0
        invariant Valid() && moved <= n <= |places|
        invariant Places(iov) == places[moved..] && resid == old(resid) - moved && offset == old(offset) + moved
        invariant Moved(rw, places[..moved], at, m, b, mem[..], buf[..])
        invariant err == Fine && Used(old(faults), faults, Fine)
        decreases n - moved, |iov|
      {
        // uio_iovcnt cannot be 0 here: there is resid left
        assert |iov| > 0;
        var size := if iov[0].len > n - moved then n - moved else iov[0].len;
        if size == 0 {
          EmptyFirst(iov);
          iov := iov[1..];
          assert |iov| > 0;
        } else {
          ghost var m1, b1, f1 := mem[..], buf[..], faults;
          err := MovePiece(buf, at + moved, size);
          UsedMore(old(faults), f1, faults, err);
          if err != Fine {
            break;
          }
          MovedMore(rw, places[..moved], places[moved..][..size], at, m, b, m1, b1, mem[..], buf[..]);
          Slices(places, moved, size);
          moved := moved + size;
        }
      }
    }

    /** uiomovezeros: n zeros, sixteen at a time, as from one long buffer of zeros. */
    method UioMoveZeros(n: nat) returns (err: Err, moved: nat)
      requires Valid() && rw == READ && n <= resid
      modifies this, mem
      ensures Valid() && moved <= n && (err == Fine ==> moved == n)
      ensures moved <= |old(Places(iov))| && Places(iov) == old(Places(iov))[moved..]
      ensures resid == old(resid) - moved && offset == old(offset) + moved
      ensures Moved(READ, old(Places(iov))[..moved], 0, old(mem[..]), Zeros(moved), mem[..], Zeros(moved))
      ensures Used(old(faults), faults, err)
    {
      ghost var places, m := Places(iov), mem[..];
      var zeros := new int[16](_ => 0);
      err, moved := Fine, 0;
      UsedNone(faults);
      NothingMoved(READ, 0, m, Zeros(0));
      assert places[..0] == [] && places[0..] == places;
      while moved < n && err == Fine
        invariant Valid() && moved <= n <= |places| && fresh(zeros)
        invariant Places(iov) == places[moved..] && resid == old(resid) - moved && offset == old(offset) + moved
        invariant zeros[..] == Zeros(16)
        invariant Moved(READ, places[..moved], 0, m, Zeros(moved), mem[..], Zeros(moved))
        invariant Used(old(faults), faults, err)
        decreases n - moved, if err == Fine then 1 else 0
      {
        ghost var m1, f1 := mem[..], faults;
        var amt := if 16 > n - moved then n - moved else 16;
        var step;
        err, step := UioMove(zeros, 0, amt);
        UsedMore(old(faults), f1, faults, err);
        ReadKeepsBuffer(places[moved..][..step], 0, m1, Zeros(16), mem[..], zeros[..]);
        ZerosMore(places[..moved], places[moved..][..step], m, m1, mem[..]);
        Slices(places, moved, step);
        moved := moved + step;
      }
    }
  }

  function Zeros(n: nat): (r: seq<int>)
    ensures |r| == n && forall i :: 0 <= i < n ==> r[i] == 0
  {
    seq(n, _ => 0)
  }

  lemma ZerosMore(ps: seq<int>, qs: seq<int>, m: seq<int>, m1: seq<int>, m2: seq<int>)
    requires Moved(READ, ps, 0, m, Zeros(|ps|), m1, Zeros(|ps|)) && Moved(READ, qs, 0, m1, Zeros(16), m2, Zeros(16))
    ensures Moved(READ, ps + qs, 0, m, Zeros(|ps + qs|), m2, Zeros(|ps + qs|))
  {
    var z := Zeros(|ps + qs|);
    Open(READ, ps, 0, m, Zeros(|ps|), m1, Zeros(|ps|));
    Open(READ, qs, 0, m1, Zeros(16), m2, Zeros(16));
    assert Zeros(16)[0..|qs|] == Zeros(|qs|) && Zeros(|ps|)[0..|ps|] == Zeros(|ps|);
    ScatterTwice(m, ps, qs, Zeros(|ps|), Zeros(|qs|));
    assert Zeros(|ps|) + Zeros(|qs|) == z[0..|ps + qs|];
    assert MovedParts(READ, ps + qs, 0, m, z, m2, z);
  }
}
