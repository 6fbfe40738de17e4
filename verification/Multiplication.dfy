/** `__lmulq` and `__muldi3`: Knuth's three-multiplication scheme with carries and
    borrows propagated by hand, for any digit width. */
module Multiplication {
  import opened Words
  import opened QDivRem
  import opened SignedDivision

  /** The low half of a word moved to the upper half: the low word of x * B. */
  function LhUp(B: nat, x: nat): (r: nat)
    requires B > 0
    ensures r < B * B
  {
    (x * B) % (B * B)
  }

  /** x * B as two words. */
  lemma ShiftedWord(B: nat, x: nat)
    requires B > 0 && x < B * B
    ensures x * B == HHalf(B, x) * (B * B) + LhUp(B, x)
    ensures HHalf(B, x) < B
  {
    var hi, lo := HHalf(B, x), LHalf(B, x);
    Halves(B, x);
    HighHalf(B, x);
    MulDistr(lo, hi * B, B);
    MulAssoc(hi, B, B);
    MulLe(lo + 1, B, B);
    MulDistr(lo, 1, B);
    DivModUnique(x * B, B * B, hi, lo * B);
  }

  /** Adding a two-word number: the wrapped low word is below an operand exactly when
      there was a carry. */
  lemma AddWithCarry(W: nat, h: nat, l: nat, y1: nat, y0: nat)
    requires l < W && y0 < W
    ensures var l' := (l + y0) % W;
            var h' := (h + y1 + (if l' < l then 1 else 0)) % W;
            h' * W + l' == (h * W + l + (y1 * W + y0)) % (W * W)
  {
    var l' := (l + y0) % W;
    if l + y0 < W {
      DivModUnique(l + y0, W, 0, l + y0);
    } else {
      DivModUnique(l + y0, W, 1, l + y0 - W);
    }
    var c := if l' < l then 1 else 0;
    MulDistr(h, y1, W);
    MulDistr(h + y1, c, W);
    HighWord(W, h + y1 + c, l');
  }

  lemma SubtractWithBorrow(W: nat, h: nat, l: nat, y1: nat, y0: nat)
    requires l < W && y0 < W
    ensures var l' := (l - y0) % W;
            var h' := (h - (y1 + (if l' > l then 1 else 0))) % W;
            h' * W + l' == (h * W + l - (y1 * W + y0)) % (W * W)
  {
    var l' := (l - y0) % W;
    if l >= y0 {
      DivModUnique(l - y0, W, 0, l - y0);
    } else {
      DivModUnique(l - y0, W, -1, l - y0 + W);
    }
    var c := if l' > l then 1 else 0;
    MulDistr(h, y1, W);
    MulDistr(h - y1, c, W);
    HighWord(W, h - (y1 + c), l');
  }

  /** Wrapping the high word wraps the two-word number. */
  lemma HighWord(W: nat, x: int, l: nat)
    requires l < W
    ensures (x % W) * W + l == (x * W + l) % (W * W)
  {
    var q, r := x / W, x % W;
    assert x == q * W + r;
    MulDistr(q * W, r, W);
    MulAssoc(q, W, W);
    MulLe(r + 1, W, W);
    MulDistr(r, 1, W);
    DivModUnique(x * W + l, W * W, q, r * W + l);
  }

  /** The absolute difference of two words and whether it was turned around. */
  function Diff(x: nat, y: nat): (r: (nat, bool))
    ensures x - y == if r.1 then 0 - r.0 else r.0
  {
    if x >= y then (x - y, false) else (y - x, true)
  }

  /** Knuth's identity: three half-width products make the full one. */
  lemma ThreeProducts(n: nat, u1: nat, u0: nat, v1: nat, v0: nat)
    ensures (u1 * n + u0) * (v1 * n + v0)
         == u1 * v1 * (n * n) + u1 * v1 * n + (u1 - u0) * (v0 - v1) * n + u0 * v0 * n + u0 * v0
  {
    var p, q, r, s := u1 * v1, u1 * v0, u0 * v1, u0 * v0;
    assert (u1 - u0) * (v0 - v1) == q - p - s + r by {
      MulDistr(u1, u0, v0 - v1);
    }
    calc {
      (u1 * n + u0) * (v1 * n + v0);
    == { MulDistr(u1 * n, u0, v1 * n + v0); }
      u1 * n * (v1 * n + v0) + u0 * (v1 * n + v0);
    ==
      u1 * n * (v1 * n) + u1 * n * v0 + u0 * (v1 * n) + s;
    == { MulAssoc(u1, n, v1 * n); MulAssoc(n, v1, n); MulAssoc(u1, v1, n * n); MulAssoc(v1, n, n);
         MulAssoc(u1, n, v0); MulAssoc(u1, v0, n); MulAssoc(u0, v1, n); }
      p * (n * n) + q * n + r * n + s;
    }
    MulDistr(q, p, n);
    MulDistr(q - p, s, n);
    MulDistr(q - p - s, r, n);
  }

  /** `__lmulq`: the exact double-width product of two words, although every
      intermediate sum may wrap. */
  method LMulQ(B: nat, u: nat, v: nat) returns (prod: nat)
    requires B > 1 && u < B * B && v < B * B
    ensures prod == u * v
  {
    var u1, u0, v1, v0 := HHalf(B, u), LHalf(B, u), HHalf(B, v), LHalf(B, v);
    Halves(B, u);
    Halves(B, v);
    HighHalf(B, u);
    HighHalf(B, v);
    HalfProduct(B, u0, v0);
    var low := Wrap(B, u0 * v0);
    if u1 == 0 && v1 == 0 {
      return low;
    }
    var high, mid, neg := OuterProducts(B, u1, u0, v1, v0);
    ghost var m: int := if neg then 0 - (mid as int) else mid;
    WeightedSum(B, u, v, u1, u0, v1, v0, high, m, low);
    prod := CombineProducts(B, high, mid, low, neg);
    HalfProduct(B * B, u, v);
  }

  /** The high product and the middle one, whose sign is kept beside it. */
  method OuterProducts(B: nat, u1: nat, u0: nat, v1: nat, v0: nat) returns (high: nat, mid: nat, neg: bool)
    requires u1 < B && u0 < B && v1 < B && v0 < B
    ensures high < B * B && mid < B * B
    ensures high == u1 * v1
    ensures (if neg then 0 - mid else mid) == (u1 - u0) * (v0 - v1)
  {
    var (udiff, negu) := Diff(u1, u0);
    var (vdiff, negv) := Diff(v0, v1);
    neg := negu != negv;
    HalfProduct(B, udiff, vdiff);
    DiffProduct(u1, u0, v1, v0);
    mid := Wrap(B, udiff * vdiff);
    HalfProduct(B, u1, v1);
    high := Wrap(B, u1 * v1);
  }

  /** The second half of `__lmulq`: the three products at their weights. */
  method CombineProducts(B: nat, high: nat, mid: nat, low: nat, neg: bool) returns (prod: nat)
    requires B > 0 && high < B * B && mid < B * B && low < B * B
    ensures prod == Wrap(B * B, Weighted(B, high, if neg then 0 - mid else mid, low))
  {
    var prodh, prodl := Wrap(B, high + HHalf(B, high)), LhUp(B, high);
    ghost var P1 := prodh * (B * B) + prodl;
    FirstTerm(B, high);
    prodh, prodl := AddShifted(B, prodh, prodl, mid, neg);
    ghost var P2 := prodh * (B * B) + prodl;
    prodh, prodl := AddShifted(B, prodh, prodl, low, false);
    ghost var P3 := prodh * (B * B) + prodl;
    AddLow(B, prodh, prodl, low);
    prodl := Wrap(B, prodl + low);
    prodh := Wrap(B, prodh + (if prodl < low then 1 else 0));
    prod := prodh * (B * B) + prodl;
    ghost var N, x, y := B * B * (B * B), high * (B * B) + high * B, (if neg then 0 - mid else mid) * B;
    NextSum(N, x, y, P1, P2);
    NextSum(N, x + y, low * B, P2, P3);
    NextSum(N, x + y + low * B, low, P3, prod);
  }

  function Weighted(B: nat, high: int, mid: int, low: int): int
  {
    high * (B * B) + high * B + mid * B + low * B + low
  }

  lemma NextSum(N: nat, x: int, y: int, P: int, Q: int)
    requires N > 0
    requires P == x % N && Q == (P + y) % N
    ensures Q == (x + y) % N
  {
    ModAdd(x, y, N);
  }

  /** The sign of the middle product, from the signs of the two differences. */
  lemma DiffProduct(u1: nat, u0: nat, v1: nat, v0: nat)
    ensures var (x, nx) := Diff(u1, u0); var (y, ny) := Diff(v0, v1);
            (u1 - u0) * (v0 - v1) == if nx != ny then 0 - x * y else x * y
  {
    NegMul(Diff(u1, u0).0, Diff(v0, v1).0);
  }

  /** prod += x << N, or prod -= x << N when neg is set. */
  method AddShifted(B: nat, prodh: nat, prodl: nat, x: nat, neg: bool) returns (h: nat, l: nat)
    requires B > 0 && prodl < B * B && x < B * B
    ensures h < B * B && l < B * B
    ensures h * (B * B) + l
         == (prodh * (B * B) + prodl + (if neg then 0 - x else x) * B) % (B * B * (B * B))
  {
    ShiftedWord(B, x);
    if neg {
      l := Wrap(B, prodl - LhUp(B, x));
      h := Wrap(B, prodh - (HHalf(B, x) + (if l > prodl then 1 else 0)));
      SubtractWithBorrow(B * B, prodh, prodl, HHalf(B, x), LhUp(B, x));
      NegMul(x, B);
    } else {
      l := Wrap(B, prodl + LhUp(B, x));
      h := Wrap(B, prodh + HHalf(B, x) + (if l < prodl then 1 else 0));
      AddWithCarry(B * B, prodh, prodl, HHalf(B, x), LhUp(B, x));
    }
  }

  lemma AddLow(B: nat, h: nat, l: nat, x: nat)
    requires B > 0 && l < B * B && x < B * B
    ensures var l' := Wrap(B, l + x);
            Wrap(B, h + (if l' < x then 1 else 0)) * (B * B) + l' == (h * (B * B) + l + x) % (B * B * (B * B))
  {
    AddWithCarry(B * B, h, x, 0, l);
  }

  lemma HalfProduct(B: nat, x: nat, y: nat)
    requires x < B && y < B
    ensures x * y < B * B && Wrap(B, x * y) == x * y
  {
    MulLe(x, B, y);
    MulStrict(y, B, B);
    DivModUnique(x * y, B * B, 0, x * y);
  }

  /** The word pair the code starts from is high at both of its weights. */
  lemma FirstTerm(B: nat, high: nat)
    requires B > 0 && high < B * B
    ensures Wrap(B, high + HHalf(B, high)) * (B * B) + LhUp(B, high) == (high * (B * B) + high * B) % (B * B * (B * B))
  {
    ShiftedWord(B, high);
    HighWord(B * B, high + HHalf(B, high), LhUp(B, high));
    MulDistr(high, HHalf(B, high), B * B);
  }

  /** The weighted sum of the three products is the product. */
  lemma WeightedSum(B: nat, u: nat, v: nat, u1: nat, u0: nat, v1: nat, v0: nat, high: int, mid: int, low: int)
    requires u == u0 + u1 * B && v == v0 + v1 * B
    requires high == u1 * v1 && mid == (u1 - u0) * (v0 - v1) && low == u0 * v0
    ensures Weighted(B, high, mid, low) == u * v
  {
    ThreeProducts(B, u1, u0, v1, v0);
  }

  // ----- `__muldi3` -----

  /** The low two words of the product: only the middle words of the three products
      matter, and they may wrap. */
  method MulMagnitudes(B: nat, u: nat, v: nat) returns (prod: nat)
    requires B > 1 && u < B * B * (B * B) && v < B * B * (B * B)
    ensures prod == Wrap(B * B, u * v)
  {
    var W := B * B;
    var u1, u0, v1, v0 := HHalf(W, u), LHalf(W, u), HHalf(W, v), LHalf(W, v);
    Halves(W, u);
    Halves(W, v);
    var low := LMulQ(B, u0, v0);
    HalfProduct(W, u0, v0);
    if u1 == 0 && v1 == 0 {
      return low;
    }
    prod := MiddleAndLow(W, u, v, u1, u0, v1, v0, low);
  }

  /** The two words of the result, from the words of the operands. */
  method MiddleAndLow(W: nat, ghost u: nat, ghost v: nat, u1: nat, u0: nat, v1: nat, v0: nat, low: nat) returns (prod: nat)
    requires W > 0 && u == u0 + u1 * W && v == v0 + v1 * W && low == u0 * v0
    ensures prod == Wrap(W, u * v)
  {
    var (udiff, negu) := Diff(u1, u0);
    var (vdiff, negv) := Diff(v0, v1);
    var mid := udiff * vdiff % W;
    var high := u1 * v1 % W;
    var lowH, lowL := HHalf(W, low), LHalf(W, low);
    var x: int := high + (if negu != negv then 0 - (mid as int) else mid) + lowL + lowH;
    prod := x % W * W + lowL;
    HighWord(W, x, lowL);
    DiffProduct(u1, u0, v1, v0);
    Halves(W, low);
    MiddleWord(W, u, v, u1, u0, v1, v0, udiff * vdiff, negu != negv, lowH, lowL);
  }

  /** What the middle word leaves out is a multiple of the double word. */
  lemma MiddleWord(W: nat, u: nat, v: nat, u1: nat, u0: nat, v1: nat, v0: nat, p: nat, neg: bool, lowH: nat, lowL: nat)
    requires W > 0 && u == u0 + u1 * W && v == v0 + v1 * W
    requires (u1 - u0) * (v0 - v1) == if neg then 0 - p else p
    requires u0 * v0 == lowL + lowH * W
    ensures ((u1 * v1 % W + (if neg then 0 - (p % W) else p % W) + lowL + lowH) * W + lowL) % (W * W) == (u * v) % (W * W)
  {
    var P, m: int := u1 * v1, if neg then 0 - (p as int) else p;
    ThreeProducts(W, u1, u0, v1, v0);
    MulDistr(lowL, lowH * W, W);
    MulAssoc(lowH, W, W);
    MiddleRest(W, P, p, neg, lowH, lowL, m);
    var x: int := P % W + (if neg then 0 - (p % W) else p % W) + lowL + lowH;
    var k: int := P / W + (if neg then 0 - (p / W) else p / W);
    Dropped(W, P, m, lowH, lowL, x, k, u * v);
  }

  lemma MiddleRest(W: nat, P: nat, p: nat, neg: bool, lowH: nat, lowL: nat, m: int)
    requires W > 0 && m == if neg then 0 - (p as int) else p
    ensures P + m + lowL + lowH == (P % W + (if neg then 0 - (p % W) else p % W) + lowL + lowH)
                                   + (P / W + (if neg then 0 - (p / W) else p / W)) * W
  {
    MulDistr(P / W, if neg then 0 - (p / W) else p / W, W);
    NegMul(p / W, W);
  }

  lemma Dropped(W: nat, P: nat, m: int, lowH: nat, lowL: nat, x: int, k: int, uv: nat)
    requires W > 0
    requires uv == P * (W * W) + P * W + m * W + (lowL * W + lowH * (W * W)) + (lowL + lowH * W)
    requires P + m + lowL + lowH == x + k * W
    ensures (x * W + lowL) % (W * W) == uv % (W * W)
  {
    calc {
      uv;
    == { MulDistr(P, m, W); MulDistr(P + m, lowL, W); MulDistr(P + m + lowL, lowH, W); }
      P * (W * W) + lowH * (W * W) + (P + m + lowL + lowH) * W + lowL;
    == { MulDistr(x, k * W, W); MulAssoc(k, W, W); }
      P * (W * W) + lowH * (W * W) + x * W + k * (W * W) + lowL;
    == { MulDistr(P, lowH, W * W); MulDistr(P + lowH, k, W * W); }
      x * W + lowL + (P + lowH + k) * (W * W);
    }
    ModShift(x * W + lowL, W * W, P + lowH + k);
  }

  /** `__muldi3`: the product modulo the size of a long long, for every pair of
      operands, the most negative one included. */
  method MulDi3(h: nat, a: int, b: int) returns (r: int)
    requires h > 0 && InRange(Pow(Base(h), 4), a) && InRange(Pow(Base(h), 4), b)
    ensures r == Signed(Pow(Base(h), 4), (a * b) % Pow(Base(h), 4))
    ensures 0 - Pow(Base(h), 4) <= 2 * r < Pow(Base(h), 4) && exists k :: r == a * b + Multiple(k, Pow(Base(h), 4))
  {
    var B := Base(h);
    var M := Pow(B, 4);
    EvenPower(h);
    PowFour(B);
    Magnitude(M, a);
    Magnitude(M, b);
    var u, v, negall := a % M, b % M, false;
    if a < 0 {
      u, negall := Negate(M, u), true;
    }
    if b < 0 {
      v, negall := Negate(M, v), !negall;
    }
    assert B == 2 * Pow(2, h - 1) >= 2;
    var prod := MulMagnitudes(B, u, v);
    SignOfProduct(M, a, b, prod);
    r := Signed(M, if negall then Negate(M, prod) else prod);
    SignedIsCongruent(M, a * b);
  }

  function Multiple(k: int, M: nat): int
  {
    k * M
  }

  /** The signed value of a number's word differs from it by whole words. */
  lemma SignedIsCongruent(M: nat, x: int)
    requires M > 0
    ensures var r := Signed(M, x % M); 0 - M <= 2 * r < M && exists k :: r == x + Multiple(k, M)
  {
    var q, w := x / M, x % M;
    assert x == q * M + w;
    MulDistr(0 - q, 1, M);
    if 2 * w < M {
      assert w == x + Multiple(0 - q, M);
    } else {
      assert w - M == x + Multiple(0 - q - 1, M);
    }
  }

  lemma SignOfProduct(M: nat, a: int, b: int, prod: nat)
    requires M > 0 && prod == (Abs(a) * Abs(b)) % M
    ensures (a * b) % M == if (a < 0) != (b < 0) then Negate(M, prod) else prod
  {
    var p := Abs(a) * Abs(b);
    NegMul(a, b);
    if (a < 0) != (b < 0) {
      assert 0 - prod == 0 - p + p / M * M;
      ModShift(0 - p, M, p / M);
    }
  }
}
