/** Shifting a digit string by less than a digit, in place: the normalization of
    step D1 and the denormalization of the remainder. */
module Shifts {
  import opened Words
  import opened Digits

  /** With S and T the two halves of a digit's bits, shifting a digit left by the
      bits of S splits it into the carry above and the digit that stays. */
  lemma ShiftDigit(B: nat, S: nat, T: nat, x: nat)
    requires S * T == B && S > 0 && T > 0
    ensures LHalf(B, x * S) == (x % T) * S
    ensures x * S == (x / T) * B + LHalf(B, x * S)
  {
    var q, r := x / T, x % T;
    assert x == q * T + r;
    MulDistr(q * T, r, S);
    MulAssoc(q, T, S);
    MulLe(r + 1, T, S);
    MulDistr(r, 1, S);
    DivModUnique(x * S, B, q, r * S);
  }

  /** Digits already shifted: the prefix value times S, still waiting for the carry
      out of the next digit. */
  ghost predicate ShiftedUpTo(B: nat, S: nat, T: nat, was: seq<nat>, now: seq<nat>, p: nat, i: nat)
    requires T > 0 && p + i < |was| == |now|
  {
    Val(B, now[p..p + i]) == Val(B, was[p..p + i]) * S + was[p + i] / T
  }

  lemma ShiftedStep(B: nat, S: nat, T: nat, was: seq<nat>, now: seq<nat>, p: nat, i: nat, digit: nat, carry: nat)
    requires S * T == B && S > 0 && T > 0
    requires p + i < |was| == |now|
    requires ShiftedUpTo(B, S, T, was, now, p, i)
    requires digit == LHalf(B, was[p + i] * S) + carry
    ensures Val(B, now[p + i := digit][p..p + i + 1]) == Val(B, was[p..p + i + 1]) * S + carry
  {
    var next := now[p + i := digit];
    var W, N, x := Val(B, was[p..p + i]), Val(B, now[p..p + i]), was[p + i];
    assert next[p..p + i + 1] == now[p..p + i] + [digit];
    assert was[p..p + i + 1] == was[p..p + i] + [x];
    ValSnoc(B, now[p..p + i], digit);
    ValSnoc(B, was[p..p + i], x);
    ShiftDigit(B, S, T, x);
    ShiftArith(B, S, W, N, x, x / T, LHalf(B, x * S), carry);
  }

  lemma ShiftArith(B: nat, S: nat, W: nat, N: nat, x: nat, c: nat, lo: nat, carry: nat)
    requires N == W * S + c
    requires x * S == c * B + lo
    ensures N * B + (lo + carry) == (W * B + x) * S + carry
  {
    MulDistr(W * S, c, B);
    MulDistr(W * B, x, S);
    MulAssoc(W, S, B);
    MulAssoc(W, B, S);
  }

  /** `shl`: shift len + 1 digits left by the bits of S, dropping what falls out on
      the left. When nothing does, the number is multiplied by S. T is what is left
      of a digit beside S. */
  method ShiftLeft(B: nat, S: nat, T: nat, a: array<nat>, p: nat, len: nat)
    requires S * T == B && S > 0 && T > 0 && p + len < a.Length
    requires AllDigits(B, a[p..p + len + 1])
    requires a[p] < T
    modifies a
    ensures AllDigits(B, a[p..p + len + 1])
    ensures a[..p] == old(a[..p]) && a[p + len + 1..] == old(a[p + len + 1..])
    ensures Val(B, a[p..p + len + 1]) == old(Val(B, a[p..p + len + 1])) * S
  {
    ghost var was := a[..];
    DivModUnique(a[p], T, 0, a[p]);
    assert a[p..p] == [];
    for i := 0 to len
      invariant AllDigits(B, a[p..p + len + 1])
      invariant a[..p] == was[..p] && a[p + i..] == was[p + i..]
      invariant ShiftedUpTo(B, S, T, was, a[..], p, i)
    {
      ShiftOne(B, S, T, was, a, p, len, i);
    }
    ghost var now := a[..];
    a[p + len] := LHalf(B, a[p + len] * S);
    assert a[..] == now[p + len := a[p + len]];
    ShiftedStep(B, S, T, was, now, p, len, a[p + len], 0);
  }

  /** The body of the loop in `shl`. */
  method ShiftOne(B: nat, S: nat, T: nat, ghost was: seq<nat>, a: array<nat>, p: nat, ghost len: nat, i: nat)
    requires S * T == B && S > 0 && T > 0 && i < len && p + len < a.Length == |was|
    requires AllDigits(B, a[p..p + len + 1])
    requires a[p + i..] == was[p + i..]
    requires ShiftedUpTo(B, S, T, was, a[..], p, i)
    modifies a
    ensures a[..] == old(a[..])[p + i := a[p + i]]
    ensures AllDigits(B, a[p..p + len + 1])
    ensures ShiftedUpTo(B, S, T, was, a[..], p, i + 1)
  {
    ghost var now := a[..];
    assert a[p + i] == was[p + i] && a[p + i + 1] == was[p + i + 1];
    assert a[p + i + 1] == a[p..p + len + 1][i + 1] < B;
    ShiftedDigit(B, S, T, a[p + i], a[p + i + 1]);
    a[p + i] := LHalf(B, a[p + i] * S) + a[p + i + 1] / T;
    assert a[..] == now[p + i := a[p + i]];
    ShiftedStep(B, S, T, was, now, p, i, a[p + i], was[p + i + 1] / T);
    assert a[p..p + len + 1] == now[p..p + len + 1][i := a[p + i]];
  }

  lemma ShiftedDigit(B: nat, S: nat, T: nat, x: nat, y: nat)
    requires S * T == B && S > 0 && T > 0
    requires y < B
    ensures LHalf(B, x * S) + y / T < B
  {
    ShiftDigit(B, S, T, x);
    MulLt(y / T, S, T) by { assert y == y / T * T + y % T; }
    MulLe(x % T, T - 1, S);
    MulDistr(T, 1, S);
  }

  // ----- the way back -----

  /** A digit of the number shifted right, from its old digit and the one above. */
  ghost predicate UnshiftedFrom(B: nat, S: nat, T: nat, was: seq<nat>, now: seq<nat>, m: nat, k: nat)
    requires S > 0 && B > 0 && |was| == |now|
  {
    forall i :: m < i && k <= i < |was| ==> now[i] == was[i] / S + LHalf(B, was[i - 1] * T)
  }

  /** One digit of the number shifted right. */
  method ShiftDown(B: nat, S: nat, T: nat, ghost was: seq<nat>, a: array<nat>, m: nat, i: nat)
    requires S > 0 && B > 0 && m < i < a.Length == |was|
    requires a[..i + 1] == was[..i + 1] && UnshiftedFrom(B, S, T, was, a[..], m, i + 1)
    modifies a
    ensures a[..i] == was[..i] && UnshiftedFrom(B, S, T, was, a[..], m, i)
  {
    assert a[i] == a[..i + 1][i] && a[i - 1] == a[..i + 1][i - 1];
    ghost var now := a[..];
    a[i] := a[i] / S + LHalf(B, a[i - 1] * T);
    assert a[..] == now[i := a[i]];
    assert a[..i] == now[..i + 1][..i];
  }

  lemma {:induction false} UnshiftedValue(B: nat, S: nat, T: nat, was: seq<nat>, now: seq<nat>, m: nat, k: nat)
    requires S * T == B && S > 0 && T > 0 && |was| == |now|
    requires m <= k < |was| && was[m] < S
    requires UnshiftedFrom(B, S, T, was, now, m, m + 1)
    ensures Val(B, was[m..k + 1]) == Val(B, now[m + 1..k + 1]) * S + was[k] % S
  {
    if k == m {
      assert was[m..m + 1] == [] + [was[m]] && now[m + 1..m + 1] == [];
      ValSnoc(B, [], was[m]);
      DivModUnique(was[m], S, 0, was[m]);
    } else {
      UnshiftedValue(B, S, T, was, now, m, k - 1);
      UnshiftedStep(B, S, T, was, now, m, k);
    }
  }

  lemma UnshiftedStep(B: nat, S: nat, T: nat, was: seq<nat>, now: seq<nat>, m: nat, k: nat)
    requires S * T == B && S > 0 && T > 0 && |was| == |now|
    requires m < k < |was|
    requires now[k] == was[k] / S + LHalf(B, was[k - 1] * T)
    requires Val(B, was[m..k]) == Val(B, now[m + 1..k]) * S + was[k - 1] % S
    ensures Val(B, was[m..k + 1]) == Val(B, now[m + 1..k + 1]) * S + was[k] % S
  {
    LowBits(B, S, T, was[k - 1]);
    UnshiftedSnoc(B, S, T, was, now, m, k, was[k - 1] % S, was[k] / S, was[k] % S);
  }

  lemma UnshiftedSnoc(B: nat, S: nat, T: nat, was: seq<nat>, now: seq<nat>, m: nat, k: nat, r: nat, q: nat, r': nat)
    requires S * T == B && |was| == |now| && m < k < |was|
    requires was[k] == q * S + r' && now[k] == q + r * T
    requires Val(B, was[m..k]) == Val(B, now[m + 1..k]) * S + r
    ensures Val(B, was[m..k + 1]) == Val(B, now[m + 1..k + 1]) * S + r'
  {
    assert was[m..k + 1] == was[m..k] + [was[k]];
    assert now[m + 1..k + 1] == now[m + 1..k] + [now[k]];
    ValSnoc(B, was[m..k], was[k]);
    ValSnoc(B, now[m + 1..k], now[k]);
    UnshiftArith(B, S, T, Val(B, was[m..k]), Val(B, now[m + 1..k]), r, q, r', was[k], now[k]);
  }

  lemma LowBits(B: nat, S: nat, T: nat, x: nat)
    requires S * T == B && S > 0 && T > 0
    ensures LHalf(B, x * T) == (x % S) * T
  {
    ShiftDigit(B, T, S, x);
  }

  lemma UnshiftArith(B: nat, S: nat, T: nat, W: nat, N: nat, r: nat, q: nat, r': nat, x: nat, y: nat)
    requires S * T == B
    requires W == N * S + r
    requires x == q * S + r'
    requires y == q + r * T
    ensures W * B + x == (N * B + y) * S + r'
  {
    MulDistr(N * S, r, B);
    MulDistr(N * B, q + r * T, S);
    MulDistr(q, r * T, S);
    MulAssoc(N, S, B);
    MulAssoc(N, B, S);
    MulAssoc(r, T, S);
  }

  /** Shift the digits above position m right by the bits of S; the digit at m is
      zero and has nothing to hand down. */
  method ShiftRight(B: nat, S: nat, T: nat, a: array<nat>, m: nat)
    requires S * T == B && S > 0 && T > 0 && m < a.Length
    requires a[m] == 0
    modifies a
    ensures a[..m] == old(a[..m]) && a[m] == 0
    ensures Val(B, a[m + 1..]) == old(Val(B, a[m..])) / S
  {
    ghost var was := a[..];
    var i := a.Length - 1;
    while i > m
      invariant m <= i < a.Length
      invariant a[..i + 1] == was[..i + 1]
      invariant UnshiftedFrom(B, S, T, was, a[..], m, i + 1)
    {
      ShiftDown(B, S, T, was, a, m, i);
      i := i - 1;
    }
    a[i] := 0;
    UnshiftedQuotient(B, S, T, was, a[..], m);
  }

  lemma UnshiftedQuotient(B: nat, S: nat, T: nat, was: seq<nat>, now: seq<nat>, m: nat)
    requires S * T == B && S > 0 && T > 0 && |was| == |now|
    requires m < |was| && was[m] < S
    requires UnshiftedFrom(B, S, T, was, now, m, m + 1)
    ensures Val(B, now[m + 1..]) == Val(B, was[m..]) / S
  {
    var k := |was| - 1;
    UnshiftedValue(B, S, T, was, now, m, k);
    assert was[m..k + 1] == was[m..] && now[m + 1..k + 1] == now[m + 1..];
    DivModUnique(Val(B, was[m..]), S, Val(B, now[m + 1..]), was[k] % S);
  }
}
