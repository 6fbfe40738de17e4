/** Knuth's Algorithm D on in-place digit arrays, as in qdivrem.c, for any digit
    base. The arrays keep the source's layout: five cells, with `u`, `v` and `q`
    pointing somewhere inside them. */
module LongDivision {
  import opened Words
  import opened Digits

  // ----- D3: the trial quotient digit -----

  /** A digit that overshoots on the leading digits overshoots on the whole number. */
  lemma Overshoots(U: nat, V: nat, top: nat, head: nat, R: nat, ulow: nat, vlow: nat, d: nat)
    requires U == top * R + ulow && ulow < R
    requires V == head * R + vlow
    requires d * head > top
    ensures d * V > U
  {
    calc {
      d * V;
    ==
      d * (head * R + vlow);
    ==
      d * (head * R) + d * vlow;
    >= { MulAssoc(d, head, R); }
      d * head * R;
    >= { MulLe(top + 1, d * head, R); }
      (top + 1) * R;
    == { MulDistr(top, 1, R); }
      top * R + R;
    >
      U;
    }
  }

  /** A digit that does not overshoot on the leading digits overshoots the whole
      number by less than one divisor. */
  lemma AlmostFits(B: nat, U: nat, V: nat, top: nat, head: nat, R: nat, ulow: nat, vlow: nat, d: nat)
    requires U == top * R + ulow
    requires V == head * R + vlow && vlow < R
    requires d <= B <= head
    requires d * head <= top
    ensures d == 0 || d * V < U + V
  {
    if d > 0 {
      calc {
        d * V;
      ==
        d * (head * R + vlow);
      ==
        d * (head * R) + d * vlow;
      == { MulAssoc(d, head, R); }
        d * head * R + d * vlow;
      <= { MulLe(d * head, top, R); }
        top * R + d * vlow;
      < { MulStrict(vlow, R, d); }
        top * R + d * R;
      <= { MulLe(d, head, R); }
        top * R + head * R;
      <=
        U + V;
      }
    }
  }

  /** The quotient digit guessed from the top digits is the true digit or one more:
      the claim of the comment on step D5. `top` and `head` are the leading three
      and two digits of dividend and divisor, `R` the weight of the digits below. */
  lemma TrialDigit(B: nat, U: nat, V: nat, top: nat, head: nat, R: nat, ulow: nat, vlow: nat, qhat: nat)
    requires ulow < R && vlow < R
    requires U == top * R + ulow
    requires V == head * R + vlow
    requires V > 0
    requires qhat <= B <= head
    requires qhat * head <= top
    requires qhat + 1 >= B || (qhat + 1) * head > top
    requires U < B * V
    ensures qhat == U / V || qhat == U / V + 1
  {
    var q := U / V;
    assert U == q * V + U % V;
    MulDistr(q, 1, V);
    if qhat < q {
      if qhat + 1 >= B {
        MulLe(B, q, V);
      } else {
        Overshoots(U, V, top, head, R, ulow, vlow, qhat + 1);
        MulLe(qhat + 1, q, V);
      }
      assert false;
    }
    if qhat > q + 1 {
      AlmostFits(B, U, V, top, head, R, ulow, vlow, qhat);
      MulLe(q + 2, qhat, V);
      MulDistr(q, 2, V);
      assert false;
    }
  }

  /** q is too big a digit for a dividend with leading digits nn, u and a divisor
      with leading digits v1, v2. */
  ghost predicate Exceeds(B: nat, v1: nat, v2: nat, nn: nat, u: nat, q: nat)
  {
    forall k: int {:trigger Spelled(k)} :: k == 0 ==> q * Combine(B, v1, v2) > Combine(B, nn, u)
  }

  lemma ExceedsSpelled(B: nat, v1: nat, v2: nat, nn: nat, u: nat, q: nat)
    requires Exceeds(B, v1, v2, nn, u, q)
    ensures q * Combine(B, v1, v2) > Combine(B, nn, u)
  {
    assert Spelled(0);
  }

  /** The estimate from the top two digits. `tooBig` plays the jump into the middle
      of the correcting loop. */
  method FirstGuess(B: nat, uj0: nat, uj1: nat, ghost uj2: nat, v1: nat, ghost v2: nat) returns (qhat: nat, rhat: nat, tooBig: bool)
    requires uj0 < B && uj1 < B && uj2 < B
    requires uj0 <= v1 < B && v1 > 0
    ensures qhat * v1 + rhat == Combine(B, uj0, uj1)
    ensures qhat <= B && rhat < B && (tooBig <==> qhat == B)
    ensures qhat + 1 < B ==> Exceeds(B, v1, v2, Combine(B, uj0, uj1), uj2, qhat + 1)
  {
    tooBig := uj0 == v1;
    if tooBig {
      qhat, rhat := B, uj1;
    } else {
      qhat, rhat := Combine(B, uj0, uj1) / v1, Combine(B, uj0, uj1) % v1;
      FirstEstimate(B, uj0, uj1, uj2, v1, v2);
    }
  }

  /** Step D3: the estimate from the top two digits, corrected while the third
      digit shows it too big. */
  method TrialQuotient(B: nat, uj0: nat, uj1: nat, uj2: nat, v1: nat, v2: nat) returns (qhat: nat)
    requires uj0 < B && uj1 < B && uj2 < B && v2 < B
    requires uj0 <= v1 < B && v1 > 0
    ensures qhat < B
    ensures qhat * Combine(B, v1, v2) <= Combine(B, Combine(B, uj0, uj1), uj2)
    ensures qhat + 1 < B ==> (qhat + 1) * Combine(B, v1, v2) > Combine(B, Combine(B, uj0, uj1), uj2)
  {
    ghost var nn := Combine(B, uj0, uj1);
    var rhat, tooBig;
    qhat, rhat, tooBig := FirstGuess(B, uj0, uj1, uj2, v1, v2);
    qhat, rhat := CorrectGuess(B, uj2, v1, v2, nn, qhat, rhat, tooBig);
    NotTooBig(B, v1, v2, uj2, nn, qhat, rhat);
    if qhat + 1 < B {
      ExceedsSpelled(B, v1, v2, nn, uj2, qhat + 1);
    }
  }

  /** The correcting loop of step D3. */
  method CorrectGuess(B: nat, uj2: nat, v1: nat, v2: nat, ghost nn: nat, guess: nat, r: nat, first: bool) returns (qhat: nat, rhat: nat)
    requires guess * v1 + r == nn && guess <= B && r < B && (first <==> guess == B) && B > 0
    requires guess + 1 < B ==> Exceeds(B, v1, v2, nn, uj2, guess + 1)
    ensures qhat * v1 + rhat == nn && qhat < B
    ensures rhat >= B || v2 * qhat <= Combine(B, rhat, uj2)
    ensures qhat + 1 < B ==> Exceeds(B, v1, v2, nn, uj2, qhat + 1)
  {
    var tooBig := first;
    qhat, rhat := guess, r;
    while tooBig || v2 * qhat > Combine(B, rhat, uj2)
      invariant qhat * v1 + rhat == nn
      invariant qhat <= B && rhat < B && (tooBig <==> qhat == B)
      invariant qhat + 1 < B ==> Exceeds(B, v1, v2, nn, uj2, qhat + 1)
      decreases qhat
    {
      if !tooBig {
        TooBig(B, v1, v2, uj2, nn, qhat, rhat);
      }
      tooBig := false;
      OneLess(v1, nn, qhat, rhat);
      qhat := qhat - 1;
      rhat := rhat + v1;
      if rhat >= B {
        break;
      }
    }
  }

  lemma OneLess(v1: nat, nn: nat, qhat: nat, rhat: nat)
    requires qhat * v1 + rhat == nn
    ensures (qhat - 1) * v1 + (rhat + v1) == nn
  {
    MulDistr(qhat, 1, v1);
  }

  lemma TooBig(B: nat, v1: nat, v2: nat, uj2: nat, nn: nat, qhat: nat, rhat: nat)
    requires qhat * v1 + rhat == nn
    requires v2 * qhat > Combine(B, rhat, uj2)
    ensures qhat > 0
    ensures Exceeds(B, v1, v2, nn, uj2, qhat)
  {
    SplitProduct(B, v1, v2, qhat, rhat, nn);
    assert rhat * B >= 0;
    assert qhat * Combine(B, v1, v2) > Combine(B, nn, uj2);
  }

  lemma NotTooBig(B: nat, v1: nat, v2: nat, uj2: nat, nn: nat, qhat: nat, rhat: nat)
    requires qhat * v1 + rhat == nn
    requires qhat < B && v2 < B
    requires rhat >= B || v2 * qhat <= Combine(B, rhat, uj2)
    ensures qhat * Combine(B, v1, v2) <= Combine(B, nn, uj2)
  {
    SplitProduct(B, v1, v2, qhat, rhat, nn);
    if rhat >= B {
      MulLe(v2, B, qhat);
      MulLe(qhat, rhat, B);
    }
  }

  lemma SplitProduct(B: nat, v1: nat, v2: nat, qhat: nat, rhat: nat, nn: nat)
    requires qhat * v1 + rhat == nn
    ensures qhat * Combine(B, v1, v2) == nn * B - rhat * B + v2 * qhat
  {
    MulDistr(qhat * v1, rhat, B);
    MulAssoc(qhat, v1, B);
    assert qhat * (v1 * B + v2) == qhat * (v1 * B) + qhat * v2;
  }

  lemma FirstEstimate(B: nat, uj0: nat, uj1: nat, uj2: nat, v1: nat, v2: nat)
    requires uj0 < v1 && uj1 < B && uj2 < B
    ensures Combine(B, uj0, uj1) / v1 < B
    ensures Exceeds(B, v1, v2, Combine(B, uj0, uj1), uj2, Combine(B, uj0, uj1) / v1 + 1)
  {
    var nn := Combine(B, uj0, uj1);
    QuotientIsDigit(B, uj0, uj1, v1);
    var q := nn / v1;
    assert nn == q * v1 + nn % v1;
    MulDistr(q, 1, v1);
    Overshoots(Combine(B, nn, uj2), Combine(B, v1, v2), nn, v1, B, uj2, v2, q + 1);
    assert (q + 1) * Combine(B, v1, v2) > Combine(B, nn, uj2);
  }

  lemma QuotientIsDigit(B: nat, uj0: nat, uj1: nat, v1: nat)
    requires uj0 < v1 && uj1 < B
    ensures Combine(B, uj0, uj1) / v1 < B
  {
    var nn := Combine(B, uj0, uj1);
    MulLe(uj0 + 1, v1, B);
    MulDistr(uj0, 1, B);
    MulLt(nn / v1, B, v1);
  }

  // ----- D4, D5: multiply and subtract -----

  /** The borrow `(B - HHALF(t)) & (B - 1)` taken from the wrapped difference is the
      true borrow into the next digit. */
  lemma BorrowIsExact(B: nat, u: nat, v: nat, qhat: nat, t: nat)
    requires u < B && v < B && qhat < B && t < B
    ensures var w := Wrap(B, u - v * qhat - t);
            var borrow := (B - HHalf(B, w)) % B;
            && HHalf(B, w) <= B
            && 0 <= borrow < B
            && u - v * qhat - t == LHalf(B, w) - borrow * B
  {
    DigitProduct(B, v, qhat, t);
    WrapOfSmall(B, u - v * qhat - t);
  }

  lemma DigitProduct(B: nat, v: nat, q: nat, t: nat)
    requires v < B && q < B && t < B
    ensures v * q + t <= (B - 1) * B
  {
    MulLe(v, B - 1, q);
    MulLe(q, B - 1, B - 1);
    MulDistr(B - 1, 1, B - 1);
  }

  /** Two digits side by side can be taken apart again. */
  lemma TwoDigits(B: nat, hi: nat, lo: nat)
    requires hi < B && lo < B
    ensures hi * B + lo < B * B
    ensures (hi * B + lo) / B == hi
    ensures (hi * B + lo) % B == lo
  {
    MulLe(hi + 1, B, B);
    MulDistr(hi, 1, B);
    DivModUnique(hi * B + lo, B, hi, lo);
  }

  lemma FloorRange(B: nat, x: int)
    requires B > 0
    requires -((B - 1) * B) <= x < B
    ensures -(B - 1) <= x / B <= 0
  {
    var hi, lo := x / B, x % B;
    assert x == hi * B + lo;
    if hi > 0 {
      MulLe(1, hi, B);
    } else if hi < -(B - 1) {
      MulLe(hi, 0 - B, B);
      MulDistr(B, 1, B);
    }
  }

  lemma WrapNegative(B: nat, hi: int, lo: nat)
    requires 0 - B < hi < 0 && lo < B
    ensures Wrap(B, hi * B + lo) == (B + hi) * B + lo
  {
    TwoDigits(B, B + hi, lo);
    MulDistr(B, hi, B);
    DivModUnique(hi * B + lo, B * B, -1, (B + hi) * B + lo);
  }

  lemma WrapOfSmall(B: nat, x: int)
    requires B > 0
    requires -((B - 1) * B) <= x < B
    ensures var w := Wrap(B, x);
            var borrow := (B - HHalf(B, w)) % B;
            && HHalf(B, w) <= B
            && x == LHalf(B, w) - borrow * B
            && (HHalf(B, w) != 0 <==> x < 0)
  {
    FloorRange(B, x);
    if x / B < 0 {
      WrapBelow(B, x, x / B, x % B);
    } else {
      WrapAbove(B, x);
    }
  }

  lemma WrapAbove(B: nat, x: int)
    requires 0 <= x < B
    ensures HHalf(B, Wrap(B, x)) == 0 && LHalf(B, Wrap(B, x)) == x && B % B == 0
  {
    TwoDigits(B, 0, x);
    DivModUnique(x, B * B, 0, x);
    DivModUnique(B, B, 1, 0);
  }

  lemma WrapBelow(B: nat, x: int, hi: int, lo: nat)
    requires 0 - B < hi < 0 && lo < B && x == hi * B + lo
    ensures var w := Wrap(B, x);
            var borrow := (B - HHalf(B, w)) % B;
            && HHalf(B, w) <= B && HHalf(B, w) != 0 && x < 0
            && x == LHalf(B, w) - borrow * B
  {
    WrapNegative(B, hi, lo);
    TwoDigits(B, B + hi, lo);
    BorrowNeg(B, x, hi, lo);
    MulLe(hi, -1, B);
  }

  lemma BorrowNeg(B: nat, x: int, hi: int, lo: nat)
    requires 0 - B < hi < 0 && lo < B && x == hi * B + lo
    requires Wrap(B, x) == (B + hi) * B + lo
    requires ((B + hi) * B + lo) / B == B + hi
    requires ((B + hi) * B + lo) % B == lo
    ensures var w := Wrap(B, x);
            var borrow := (B - HHalf(B, w)) % B;
            && HHalf(B, w) <= B
            && x == LHalf(B, w) - borrow * B
  {
    TwoDigits(B, 0, -hi);
  }

  /** One column of the subtraction, with everything below it already done. */
  lemma SubtractColumn(B: nat, P: nat, u: nat, v: nat, q: nat, t: nat, lo: nat, borrow: nat, U: nat, V: nat, X: int)
    requires u - v * q - t == lo - borrow * B
    requires X == U - q * V + t * P
    ensures lo * P + X == u * P + U - q * (v * P + V) + borrow * (B * P)
  {
    calc {
      lo * P;
    ==
      (u - v * q - t + borrow * B) * P;
    == { MulDistr(u - v * q, t, P); MulDistr(u, v * q, P); MulDistr(u - v * q - t, borrow * B, P); }
      u * P - v * q * P - t * P + borrow * B * P;
    == { MulAssoc(borrow, B, P); MulAssoc(q, v, P); }
      u * P - q * (v * P) - t * P + borrow * (B * P);
    }
    assert q * (v * P + V) == q * (v * P) + q * V;
  }

  /** Step D4: subtract qhat * v from n + 1 digits of u. The top half of the last
      word is nonzero exactly when the difference was negative. */
  method MultiplySubtract(B: nat, a: array<nat>, p: nat, c: array<nat>, w: nat, n: nat, qhat: nat) returns (t: nat)
    requires B > 0 && a != c && p + n < a.Length && w + n < c.Length
    requires AllDigits(B, a[..]) && AllDigits(B, c[1..]) && qhat < B
    modifies a
    ensures AllDigits(B, a[..])
    ensures a[..p] == old(a[..p]) && a[p + n + 1..] == old(a[p + n + 1..])
    ensures Val(B, a[p..p + n + 1]) == old(Val(B, a[p..p + n + 1])) - qhat * Val(B, c[w + 1..w + n + 1])
                                       + (if HHalf(B, t) != 0 then Pow(B, n + 1) else 0)
  {
    ghost var was, cs := a[..], c[..];
    t := 0;
    for i := n downto 0
      invariant t < B
      invariant AllDigits(B, a[..]) && c[..] == cs
      invariant a[..p + i + 1] == was[..p + i + 1]
      invariant a[p + n + 1..] == was[p + n + 1..]
      invariant Subtracted(B, was, a[..], cs, p, w, n, i, qhat, t)
    {
      ghost var t0, now := t, a[..];
      BorrowIsExact(B, a[p + i + 1], c[w + i + 1], qhat, t);
      t := Wrap(B, a[p + i + 1] - c[w + i + 1] * qhat - t);
      a[p + i + 1] := LHalf(B, t);
      t := (B - HHalf(B, t)) % B;
      assert a[..] == now[p + i + 1 := a[p + i + 1]];
      SubtractedStep(B, was, now, cs, p, w, n, i, qhat, t0, a[p + i + 1], t);
    }
    ghost var t0, now := t, a[..];
    TopBorrow(B, a[p], t);
    t := Wrap(B, a[p] - t);
    a[p] := LHalf(B, t);
    assert a[..] == now[p := a[p]];
    SubtractTop(B, was, now, cs, p, w, n, qhat, t0, a[p], if HHalf(B, t) != 0 then 1 else 0);
  }

  lemma TopBorrow(B: nat, u: nat, t: nat)
    requires u < B && t < B
    ensures var w := Wrap(B, u - t);
            u - t == LHalf(B, w) - (if HHalf(B, w) != 0 then 1 else 0) * B
  {
    if u >= t {
      TwoDigits(B, 0, u - t);
      DivModUnique(u - t, B * B, 0, u - t);
    } else {
      WrapNegative(B, -1, u - t + B);
      TwoDigits(B, B - 1, u - t + B);
    }
  }

  lemma SubtractTop(B: nat, was: seq<nat>, now: seq<nat>, cs: seq<nat>, p: nat, w: nat, n: nat, qhat: nat, t: nat,
                    lo: nat, borrow: nat)
    requires p + n < |was| == |now| && w + n < |cs|
    requires Subtracted(B, was, now, cs, p, w, n, 0, qhat, t)
    requires was[p] - t == lo - borrow * B
    ensures Val(B, now[p := lo][p..p + n + 1])
         == Val(B, was[p..p + n + 1]) - qhat * Val(B, cs[w + 1..w + n + 1]) + borrow * Pow(B, n + 1)
  {
    var next := now[p := lo];
    ValHead(B, next, p, p + n + 1);
    ValHead(B, was, p, p + n + 1);
    assert next[p + 1..p + n + 1] == now[p + 1..p + n + 1];
    SubtractColumn(B, Pow(B, n), was[p], 0, qhat, t, lo, borrow,
                   Val(B, was[p + 1..p + n + 1]), Val(B, cs[w + 1..w + n + 1]), Val(B, now[p + 1..p + n + 1]));
  }

  /** The digits below column i hold the difference so far, with borrow t pending. */
  ghost predicate Subtracted(B: nat, was: seq<nat>, now: seq<nat>, cs: seq<nat>, p: nat, w: nat, n: nat, i: nat, qhat: nat, t: nat)
    requires i <= n && p + n < |was| == |now| && w + n < |cs|
  {
    Val(B, now[p + i + 1..p + n + 1])
      == Val(B, was[p + i + 1..p + n + 1]) - qhat * Val(B, cs[w + i + 1..w + n + 1]) + t * Pow(B, n - i)
  }

  lemma SubtractedStep(B: nat, was: seq<nat>, now: seq<nat>, cs: seq<nat>, p: nat, w: nat, n: nat, i: nat, qhat: nat, t: nat,
                       lo: nat, borrow: nat)
    requires i < n && p + n < |was| == |now| && w + n < |cs|
    requires Subtracted(B, was, now, cs, p, w, n, i + 1, qhat, t)
    requires was[p + i + 1] - cs[w + i + 1] * qhat - t == lo - borrow * B
    ensures Subtracted(B, was, now[p + i + 1 := lo], cs, p, w, n, i, qhat, borrow)
  {
    var next := now[p + i + 1 := lo];
    ValHead(B, next, p + i + 1, p + n + 1);
    ValHead(B, was, p + i + 1, p + n + 1);
    ValHead(B, cs, w + i + 1, w + n + 1);
    assert next[p + i + 2..p + n + 1] == now[p + i + 2..p + n + 1];
    SubtractColumn(B, Pow(B, n - i - 1), was[p + i + 1], cs[w + i + 1], qhat, t, lo, borrow,
                   Val(B, was[p + i + 2..p + n + 1]), Val(B, cs[w + i + 2..w + n + 1]), Val(B, now[p + i + 2..p + n + 1]));
  }

  // ----- D6: add back -----

  ghost predicate Added(B: nat, was: seq<nat>, now: seq<nat>, cs: seq<nat>, p: nat, w: nat, n: nat, i: nat, t: nat)
    requires i <= n && p + n < |was| == |now| && w + n < |cs|
  {
    Val(B, now[p + i + 1..p + n + 1]) + t * Pow(B, n - i)
      == Val(B, was[p + i + 1..p + n + 1]) + Val(B, cs[w + i + 1..w + n + 1])
  }

  lemma AddColumn(B: nat, P: nat, u: nat, v: nat, t: nat, lo: nat, carry: nat, U: nat, V: nat, X: nat)
    requires u + v + t == lo + carry * B
    requires X + t * P == U + V
    ensures lo * P + X + carry * (B * P) == u * P + U + (v * P + V)
  {
    MulDistr(u, v, P);
    MulDistr(u + v, t, P);
    MulDistr(lo, carry * B, P);
    MulAssoc(carry, B, P);
  }

  lemma AddedStep(B: nat, was: seq<nat>, now: seq<nat>, cs: seq<nat>, p: nat, w: nat, n: nat, i: nat, t: nat, lo: nat, carry: nat)
    requires i < n && p + n < |was| == |now| && w + n < |cs|
    requires Added(B, was, now, cs, p, w, n, i + 1, t)
    requires was[p + i + 1] + cs[w + i + 1] + t == lo + carry * B
    ensures Added(B, was, now[p + i + 1 := lo], cs, p, w, n, i, carry)
  {
    var next := now[p + i + 1 := lo];
    ValHead(B, next, p + i + 1, p + n + 1);
    ValHead(B, was, p + i + 1, p + n + 1);
    ValHead(B, cs, w + i + 1, w + n + 1);
    assert next[p + i + 2..p + n + 1] == now[p + i + 2..p + n + 1];
    AddColumn(B, Pow(B, n - i - 1), was[p + i + 1], cs[w + i + 1], t, lo, carry,
              Val(B, was[p + i + 2..p + n + 1]), Val(B, cs[w + i + 2..w + n + 1]), Val(B, now[p + i + 2..p + n + 1]));
  }

  lemma AddTop(B: nat, was: seq<nat>, now: seq<nat>, cs: seq<nat>, p: nat, w: nat, n: nat, t: nat, lo: nat, carry: nat)
    requires p + n < |was| == |now| && w + n < |cs|
    requires Added(B, was, now, cs, p, w, n, 0, t)
    requires was[p] + t == lo + carry * B
    requires B > 0 && AllDigits(B, now[p := lo])
    ensures Val(B, now[p := lo][p..p + n + 1])
         == (Val(B, was[p..p + n + 1]) + Val(B, cs[w + 1..w + n + 1])) % Pow(B, n + 1)
  {
    var next := now[p := lo];
    ValBound(B, next[p..p + n + 1]);
    ValHead(B, next, p, p + n + 1);
    ValHead(B, was, p, p + n + 1);
    assert next[p + 1..p + n + 1] == now[p + 1..p + n + 1];
    AddColumn(B, Pow(B, n), was[p], 0, t, lo, carry,
              Val(B, was[p + 1..p + n + 1]), Val(B, cs[w + 1..w + n + 1]), Val(B, now[p + 1..p + n + 1]));
    DivModUnique(Val(B, was[p..p + n + 1]) + Val(B, cs[w + 1..w + n + 1]), Pow(B, n + 1), carry, Val(B, next[p..p + n + 1]));
  }

  /** Step D6: add the divisor back in, dropping the carry out of the top digit. */
  method AddBack(B: nat, a: array<nat>, p: nat, c: array<nat>, w: nat, n: nat)
    requires B > 0 && a != c && p + n < a.Length && w + n < c.Length
    requires AllDigits(B, a[..]) && AllDigits(B, c[1..])
    modifies a
    ensures AllDigits(B, a[..])
    ensures a[..p] == old(a[..p]) && a[p + n + 1..] == old(a[p + n + 1..])
    ensures Val(B, a[p..p + n + 1]) == (old(Val(B, a[p..p + n + 1])) + Val(B, c[w + 1..w + n + 1])) % Pow(B, n + 1)
  {
    ghost var was, cs := a[..], c[..];
    var t := 0;
    for i := n downto 0
      invariant AllDigits(B, a[..]) && c[..] == cs
      invariant a[..p + i + 1] == was[..p + i + 1]
      invariant a[p + n + 1..] == was[p + n + 1..]
      invariant Added(B, was, a[..], cs, p, w, n, i, t)
    {
      ghost var t0, now := t, a[..];
      t := t + a[p + i + 1] + c[w + i + 1];
      Halves(B, t);
      a[p + i + 1] := LHalf(B, t);
      t := HHalf(B, t);
      assert a[..] == now[p + i + 1 := a[p + i + 1]];
      AddedStep(B, was, now, cs, p, w, n, i, t0, a[p + i + 1], t);
    }
    ghost var now, carry := a[..], HHalf(B, a[p] + t);
    Halves(B, a[p] + t);
    a[p] := LHalf(B, a[p] + t);
    assert a[..] == now[p := a[p]];
    AddTop(B, was, now, cs, p, w, n, t, a[p], carry);
  }

  // ----- One quotient digit -----

  /** The leading digits of a digit string, and the weight of what is below them. */
  lemma LeadingDigits(B: nat, s: seq<nat>)
    requires 2 <= |s| && B > 0 && AllDigits(B, s)
    ensures Val(B, s[2..]) < Pow(B, |s| - 2)
    ensures Val(B, s) == Combine(B, s[0], s[1]) * Pow(B, |s| - 2) + Val(B, s[2..])
  {
    var R := Pow(B, |s| - 2);
    ValBound(B, s[2..]);
    assert s == s[0..|s|] && s[1..] == s[1..|s|] && s[2..] == s[2..|s|];
    ValHead(B, s, 0, |s|);
    ValHead(B, s, 1, |s|);
    MulAssoc(s[0], B, R);
    MulDistr(s[0] * B, s[1], R);
  }

  /** What the leading digits say about the next quotient digit, once they are in
      the form the trial step uses. */
  lemma NextDigit(B: nat, us: seq<nat>, vs: seq<nat>, qhat: nat)
    requires 2 <= |vs| && |us| == |vs| + 1 && B > 0
    requires AllDigits(B, us) && AllDigits(B, vs) && vs[0] > 0
    requires Val(B, us) < B * Val(B, vs)
    requires qhat < B
    requires qhat * Combine(B, vs[0], vs[1]) <= Combine(B, Combine(B, us[0], us[1]), us[2])
    requires qhat + 1 < B ==> (qhat + 1) * Combine(B, vs[0], vs[1]) > Combine(B, Combine(B, us[0], us[1]), us[2])
    ensures Val(B, vs) > 0
    ensures qhat == Val(B, us) / Val(B, vs) || qhat == Val(B, us) / Val(B, vs) + 1
  {
    var R := Pow(B, |vs| - 2);
    var head, top := Combine(B, vs[0], vs[1]), Combine(B, Combine(B, us[0], us[1]), us[2]);
    LeadingDigits(B, vs);
    LeadingThree(B, us);
    MulLe(1, vs[0], B);
    MulLe(1, head, R);
    TrialDigit(B, Val(B, us), Val(B, vs), top, head, R, Val(B, us[3..]), Val(B, vs[2..]), qhat);
  }

  lemma LeadingThree(B: nat, s: seq<nat>)
    requires 3 <= |s| && B > 0 && AllDigits(B, s)
    ensures Val(B, s[3..]) < Pow(B, |s| - 3)
    ensures Val(B, s) == Combine(B, Combine(B, s[0], s[1]), s[2]) * Pow(B, |s| - 3) + Val(B, s[3..])
  {
    var R := Pow(B, |s| - 3);
    var hi := Combine(B, s[0], s[1]);
    ValBound(B, s[3..]);
    LeadingDigits(B, s);
    assert s[2..][1..] == s[3..];
    MulAssoc(hi, B, R);
    MulDistr(hi * B, s[2], R);
  }

  /** The leading dividend digit never exceeds the leading divisor digit. */
  lemma LeadingOrdered(B: nat, us: seq<nat>, vs: seq<nat>)
    requires 1 <= |vs| && |us| == |vs| + 1 && B > 0
    requires AllDigits(B, us) && AllDigits(B, vs)
    requires Val(B, us) < B * Val(B, vs)
    ensures us[0] <= vs[0]
  {
    ValBound(B, vs[1..]);
    if us[0] > vs[0] {
      Dominates(B, Pow(B, |vs| - 1), us[0], vs[0], Val(B, us), Val(B, vs));
    }
  }

  lemma Dominates(B: nat, P: nat, u0: nat, v0: nat, U: nat, V: nat)
    requires u0 > v0
    requires U >= u0 * (B * P)
    requires V <= v0 * P + P
    ensures U >= B * V
  {
    calc {
      B * V;
    <= { MulLe(V, v0 * P + P, B); }
      B * (v0 * P + P);
    == { MulDistr(v0, 1, P); }
      B * ((v0 + 1) * P);
    == { MulAssoc(v0 + 1, B, P); MulAssoc(B, v0 + 1, P); }
      (v0 + 1) * (B * P);
    <= { MulLe(v0 + 1, u0, B * P); }
      u0 * (B * P);
    <=
      U;
    }
  }

  /** No borrow: the trial digit was right. */
  lemma DigitWasRight(U: nat, V: nat, q: nat)
    requires V > 0
    requires q == U / V || q == U / V + 1
    requires U - q * V >= 0
    ensures q == U / V && U - q * V == U % V
  {
    var d := U / V;
    assert U == d * V + U % V;
    MulDistr(d, 1, V);
  }

  /** A borrow: the trial digit was one too large, and adding the divisor back to
      the wrapped difference gives the remainder. */
  lemma DigitWasOneTooLarge(U: nat, V: nat, q: nat, X: nat, M: nat)
    requires 0 < V <= M
    requires q == U / V || q == U / V + 1
    requires X == U - q * V + M && X < M
    ensures q == U / V + 1 && (X + V) % M == U % V
  {
    var d := U / V;
    assert U == d * V + U % V;
    MulDistr(d, 1, V);
    DivModUnique(X + V, M, 1, U % V);
  }

  /** Steps D3 to D6: one quotient digit, leaving the remainder in place. */
  method DivideDigit(B: nat, a: array<nat>, p: nat, c: array<nat>, w: nat, n: nat) returns (qhat: nat)
    requires a != c && n >= 2 && p + n < a.Length && w + n < c.Length
    requires B > 0 && AllDigits(B, a[..]) && AllDigits(B, c[1..]) && c[w + 1] > 0
    requires Val(B, a[p..p + n + 1]) < B * Val(B, c[w + 1..w + n + 1])
    modifies a
    ensures AllDigits(B, a[..]) && qhat < B
    ensures a[..p] == old(a[..p]) && a[p + n + 1..] == old(a[p + n + 1..])
    ensures Val(B, c[w + 1..w + n + 1]) > 0
    ensures qhat == old(Val(B, a[p..p + n + 1])) / Val(B, c[w + 1..w + n + 1])
    ensures Val(B, a[p..p + n + 1]) == old(Val(B, a[p..p + n + 1])) % Val(B, c[w + 1..w + n + 1])
  {
    ghost var us, vs := a[p..p + n + 1], c[w + 1..w + n + 1];
    LeadingOrdered(B, us, vs);
    qhat := TrialQuotient(B, a[p], a[p + 1], a[p + 2], c[w + 1], c[w + 2]);
    NextDigit(B, us, vs, qhat);
    var t := MultiplySubtract(B, a, p, c, w, n, qhat);
    ghost var U, V := Val(B, us), Val(B, vs);
    if HHalf(B, t) != 0 {
      ValBound(B, vs);
      ValBound(B, a[p..p + n + 1]);
      MulLe(1, B, Pow(B, n));
      DigitWasOneTooLarge(U, V, qhat, Val(B, a[p..p + n + 1]), Pow(B, n + 1));
      qhat := qhat - 1;
      AddBack(B, a, p, c, w, n);
    } else {
      DigitWasRight(U, V, qhat);
    }
  }
}
