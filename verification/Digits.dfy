/** Big-endian digit strings and the numbers they denote. */
module Digits {
  import opened Words

  ghost predicate AllDigits(B: nat, s: seq<nat>)
  {
    forall i :: 0 <= i < |s| ==> s[i] < B
  }

  /** The number a digit string denotes in base B, most significant digit first. */
  ghost function Val(B: nat, s: seq<nat>): nat
  {
    if s == [] then 0 else s[0] * Pow(B, |s| - 1) + Val(B, s[1..])
  }

  lemma {:induction false} ValConcat(B: nat, s: seq<nat>, t: seq<nat>)
    ensures Val(B, s + t) == Val(B, s) * Pow(B, |t|) + Val(B, t)
  {
    if s == [] {
      assert s + t == t;
    } else {
      assert (s + t)[1..] == s[1..] + t;
      ValConcat(B, s[1..], t);
      PowAdd(B, |s| - 1, |t|);
      MulAssoc(s[0], Pow(B, |s| - 1), Pow(B, |t|));
      MulDistr(s[0] * Pow(B, |s| - 1), Val(B, s[1..]), Pow(B, |t|));
    }
  }

  lemma {:induction false} ValBound(B: nat, s: seq<nat>)
    requires AllDigits(B, s)
    requires B > 0
    ensures Val(B, s) < Pow(B, |s|)
  {
    if s != [] {
      ValBound(B, s[1..]);
      var p := Pow(B, |s| - 1);
      calc {
        Val(B, s);
        s[0] * p + Val(B, s[1..]);
      <
        s[0] * p + p;
      == { MulDistr(s[0], 1, p); }
        (s[0] + 1) * p;
      <= { MulLe(s[0] + 1, B, p); }
        B * p;
      }
    }
  }

  /** Appending a low digit multiplies by the base and adds it. */
  lemma ValSnoc(B: nat, s: seq<nat>, d: nat)
    ensures Val(B, s + [d]) == Val(B, s) * B + d
  {
    ValConcat(B, s, [d]);
    assert Pow(B, 1) == B * Pow(B, 0) == B;
    assert Val(B, [d]) == d * Pow(B, 0) + Val(B, []) == d;
  }

  lemma {:induction false} ValZeros(B: nat, s: seq<nat>)
    requires forall i :: 0 <= i < |s| ==> s[i] == 0
    ensures Val(B, s) == 0
  {
    if s != [] {
      ValZeros(B, s[1..]);
    }
  }

  /** A stretch of digits is its first digit, at its weight, plus the rest. */
  lemma ValHead(B: nat, s: seq<nat>, lo: nat, hi: nat)
    requires lo < hi <= |s|
    ensures Val(B, s[lo..hi]) == s[lo] * Pow(B, hi - lo - 1) + Val(B, s[lo + 1..hi])
  {
    assert s[lo..hi][1..] == s[lo + 1..hi];
  }
}
