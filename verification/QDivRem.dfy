/** `__qdivrem`: unsigned division of four-digit numbers, for any digit width. */
module QDivRem {
  import opened Words
  import opened Digits
  import opened Shifts
  import opened LongDivision

  datatype Division = DivideByZero | Quotient(quot: nat, rem: nat)

  // ----- Splitting into digits and putting back together -----

  /** `union uu` read as two ints, each read as two halves. */
  method Split(B: nat, x: nat, a: array<nat>)
    requires B > 0 && x < Pow(B, 4) && a.Length == 5
    modifies a
    ensures a[0] == old(a[0])
    ensures AllDigits(B, a[1..]) && Val(B, a[1..]) == x
  {
    var hi, lo := x / (B * B), x % (B * B);
    a[1], a[2] := HHalf(B, hi), LHalf(B, hi);
    a[3], a[4] := HHalf(B, lo), LHalf(B, lo);
    Halves(B, hi);
    Halves(B, lo);
    SplitWord(B, x);
    assert a[1..] == [a[1], a[2], a[3], a[4]];
    FourDigits(B, a[1], a[2], a[3], a[4]);
    TwoWords(B, x);
  }

  lemma PowFour(B: nat)
    ensures Pow(B, 1) == B && Pow(B, 2) == B * B && Pow(B, 3) == B * (B * B) && Pow(B, 4) == (B * B) * (B * B)
  {
    assert Pow(B, 1) == B * Pow(B, 0);
    assert Pow(B, 2) == B * Pow(B, 1);
    assert Pow(B, 3) == B * Pow(B, 2);
    assert Pow(B, 4) == B * Pow(B, 3);
    MulAssoc(B, B, B * B);
  }

  lemma SplitWord(B: nat, x: nat)
    requires B > 0 && x < Pow(B, 4)
    ensures x / (B * B) < B * B && HHalf(B, x / (B * B)) < B && HHalf(B, x % (B * B)) < B
  {
    PowFour(B);
    var W := B * B;
    assert x == x / W * W + x % W;
    MulLt(x / W, W, W);
    HighHalf(B, x / W);
    HighHalf(B, x % W);
  }

  lemma HighHalf(B: nat, x: nat)
    requires B > 0 && x < B * B
    ensures HHalf(B, x) < B
  {
    Halves(B, x);
    MulLt(HHalf(B, x), B, B);
  }

  lemma TwoWords(B: nat, x: nat)
    requires B > 0
    ensures x == x / (B * B) * (B * B) + x % (B * B)
  {
  }

  lemma FourDigits(B: nat, a: nat, b: nat, c: nat, d: nat)
    ensures Val(B, [a, b, c, d]) == Combine(B, a, b) * (B * B) + Combine(B, c, d)
  {
    assert [a, b] == [a] + [b] && [] + [a] == [a];
    assert [a, b, c] == [a, b] + [c] && [a, b, c, d] == [a, b, c] + [d];
    ValSnoc(B, [], a);
    ValSnoc(B, [a], b);
    ValSnoc(B, [a, b], c);
    ValSnoc(B, [a, b, c], d);
    MulDistr(Combine(B, a, b) * B, c, B);
    MulAssoc(Combine(B, a, b), B, B);
  }

  /** The four low cells of an array, reassembled as a `long long`. */
  function Join(B: nat, a: array<nat>): (x: nat)
    requires a.Length == 5
    reads a
  {
    Combine(B, a[1], a[2]) * (B * B) + Combine(B, a[3], a[4])
  }

  lemma JoinIsVal(B: nat, a: array<nat>)
    requires a.Length == 5
    ensures Join(B, a) == Val(B, a[1..])
  {
    assert a[1..] == [a[1], a[2], a[3], a[4]];
    FourDigits(B, a[1], a[2], a[3], a[4]);
  }

  // ----- One-digit divisor (exercise 16) -----

  lemma ShortStep(B: nat, t: nat, x: nat, q: nat, r: nat, d: nat)
    requires t > 0 && x == q * t + r
    ensures x * B + d == (q * B + Combine(B, r, d) / t) * t + Combine(B, r, d) % t
  {
    var y := Combine(B, r, d);
    MulDistr(q * t, r, B);
    MulDistr(q * B, y / t, t);
    MulAssoc(q, t, B);
    MulAssoc(q, B, t);
    assert y == y / t * t + y % t;
  }

  /** One digit of exercise 16: x and y are the digits of dividend and quotient so far. */
  method ShortDigit(B: nat, t: nat, r: nat, d: nat, ghost x: nat, ghost y: nat) returns (q: nat, r': nat)
    requires t > 0 && d < B && r < t && x == y * t + r
    ensures Combine(B, x, d) == Combine(B, y, q) * t + r' && r' < t
  {
    var rbj := Combine(B, r, d);
    q, r' := rbj / t, rbj % t;
    ShortStep(B, t, x, y, r, d);
  }

  method ShortDivide(B: nat, u1: nat, u2: nat, u3: nat, u4: nat, t: nat) returns (quot: nat, rem: nat)
    requires u1 < B && u2 < B && u3 < B && u4 < B && t > 0
    ensures Combine(B, u1, u2) * (B * B) + Combine(B, u3, u4) == quot * t + rem
    ensures rem < t
  {
    var q1, r1 := u1 / t, u1 % t;
    FirstShort(u1, t);
    var q2, r2 := ShortDigit(B, t, r1, u2, u1, q1);
    ghost var x2, y2 := Combine(B, u1, u2), Combine(B, q1, q2);
    var q3, r3 := ShortDigit(B, t, r2, u3, x2, y2);
    var q4, r4 := ShortDigit(B, t, r3, u4, Combine(B, x2, u3), Combine(B, y2, q3));
    rem := r4;
    quot := Combine(B, q1, q2) * (B * B) + Combine(B, q3, q4);
    Regroup(B, x2, u3, u4);
    Regroup(B, y2, q3, q4);
  }

  lemma FirstShort(u: nat, t: nat)
    requires t > 0
    ensures u == u / t * t + u % t && u % t < t
  {
  }

  lemma Regroup(B: nat, x: nat, c: nat, d: nat)
    ensures Combine(B, Combine(B, x, c), d) == x * (B * B) + Combine(B, c, d)
  {
    MulDistr(x * B, c, B);
    MulAssoc(x, B, B);
  }

  // ----- Normalization (D1) -----

  lemma {:induction false} PowMonotone(b: nat, m: nat, n: nat)
    requires b > 0 && m <= n
    ensures Pow(b, m) <= Pow(b, n)
  {
    PowAdd(b, m, n - m);
    MulLe(1, Pow(b, n - m), Pow(b, m));
  }

  lemma PowStrict(b: nat, m: nat, n: nat)
    requires b > 1 && Pow(b, m) < Pow(b, n)
    ensures m < n
  {
    if n <= m {
      PowMonotone(b, n, m);
    }
  }

  /** How far the divisor must be shifted to bring its top bit into place. */
  method NormalShift(h: nat, v1: nat) returns (d: nat)
    requires h > 0 && 0 < v1 < Base(h)
    ensures d < h
    ensures Base(h) <= 2 * (v1 * Pow(2, d))
    ensures v1 < Pow(2, h - d)
  {
    var B := Base(h);
    assert B == 2 * Pow(2, h - 1);
    d := 0;
    var t := v1;
    while t < B / 2
      invariant t == v1 * Pow(2, d) && t < B && t > 0
      decreases B - t
    {
      DoubleShift(v1, d);
      t := 2 * t;
      d := d + 1;
    }
    ShiftFits(h, v1, d);
  }

  lemma DoubleShift(v1: nat, d: nat)
    ensures 2 * (v1 * Pow(2, d)) == v1 * Pow(2, d + 1)
  {
    MulAssoc(2, v1, Pow(2, d));
    MulAssoc(v1, 2, Pow(2, d));
  }

  lemma ShiftFits(h: nat, v1: nat, d: nat)
    requires 0 < v1 && v1 * Pow(2, d) < Base(h)
    ensures d < h && v1 < Pow(2, h - d)
  {
    MulLe(1, v1, Pow(2, d));
    PowStrict(2, d, h);
    PowAdd(2, h - d, d);
    MulLt(v1, Pow(2, h - d), Pow(2, d));
  }

  // ----- The digit loop (D2 to D7) -----

  /** Before digit j: the quotient so far times the divisor, at its weight, plus the
      digits still in u, is the dividend; and the next digit will fit. */
  ghost predicate DigitsDone(B: nat, us: seq<nat>, qs: seq<nat>, N: nat, V: nat, uo: nat, n: nat, m: nat, j: nat)
    requires |us| == 5 && |qs| == 5 && uo + m + n == 4 && j <= m + 1 && n >= 1
  {
    forall k: int {:trigger Spelled(k)} :: k == 0 ==>
      && N == Val(B, qs[4 - m..4 - m + j]) * V * Pow(B, m + 1 - j) + Val(B, us[uo + j..])
      && Val(B, us[uo + j..uo + j + n]) < V
  }

  lemma DigitsSpelled(B: nat, us: seq<nat>, qs: seq<nat>, N: nat, V: nat, uo: nat, n: nat, m: nat, j: nat)
    requires |us| == 5 && |qs| == 5 && uo + m + n == 4 && j <= m + 1 && n >= 1
    requires DigitsDone(B, us, qs, N, V, uo, n, m, j)
    ensures N == Val(B, qs[4 - m..4 - m + j]) * V * Pow(B, m + 1 - j) + Val(B, us[uo + j..])
    ensures Val(B, us[uo + j..uo + j + n]) < V
  {
    assert Spelled(0);
  }

  /** The remainder fits n digits, so the top one is zero. */
  lemma RemainderFits(B: nat, us: seq<nat>, k: nat, n: nat, V: nat)
    requires k + n < |us| && Val(B, us[k..k + n + 1]) < V <= Pow(B, n)
    ensures us[k] == 0 && Val(B, us[k + 1..k + n + 1]) == Val(B, us[k..k + n + 1])
  {
    ValHead(B, us, k, k + n + 1);
    SmallTop(us[k], Pow(B, n), Val(B, us[k + 1..k + n + 1]));
  }

  lemma SmallTop(x: nat, P: nat, rest: nat)
    requires x * P + rest < P
    ensures x == 0 && x * P == 0
  {
    if x > 0 {
      MulLe(1, x, P);
    }
  }

  /** Splitting the digits still in u at the window of n + 1 digits. */
  lemma Window(B: nat, us: seq<nat>, k: nat, n: nat)
    requires k + n < |us|
    ensures Val(B, us[k..]) == Val(B, us[k..k + n + 1]) * Pow(B, |us| - k - n - 1) + Val(B, us[k + n + 1..])
  {
    assert us[k..] == us[k..k + n + 1] + us[k + n + 1..];
    ValConcat(B, us[k..k + n + 1], us[k + n + 1..]);
  }

  lemma DigitStep(B: nat, us: seq<nat>, us': seq<nat>, qs: seq<nat>, N: nat, V: nat, uo: nat, n: nat, m: nat, j: nat, q: nat)
    requires |us| == |us'| == 5 && |qs| == 5 && uo + m + n == 4 && j <= m && n >= 1
    requires B > 0 && AllDigits(B, us') && 0 < V <= Pow(B, n)
    requires DigitsDone(B, us, qs, N, V, uo, n, m, j)
    requires us'[uo + j + n + 1..] == us[uo + j + n + 1..]
    requires q == Val(B, us[uo + j..uo + j + n + 1]) / V
    requires Val(B, us'[uo + j..uo + j + n + 1]) == Val(B, us[uo + j..uo + j + n + 1]) % V
    ensures us'[uo + j] == 0
    ensures DigitsDone(B, us', qs[4 - m + j := q], N, V, uo, n, m, j + 1)
  {
    DigitsSpelled(B, us, qs, N, V, uo, n, m, j);
    var k := uo + j;
    var U, R := Val(B, us[k..k + n + 1]), Val(B, us'[k..k + n + 1]);
    RemainderFits(B, us', k, n, V);
    Window(B, us, k, n);
    Window(B, us', k + 1, n - 1);
    assert Val(B, us'[k + 1..]) == R * Pow(B, m - j) + Val(B, us[k + n + 1..]);
    QuotientStep(B, qs, N, V, m, j, U, R, q, Val(B, us[k + n + 1..]));
  }

  lemma QuotientStep(B: nat, qs: seq<nat>, N: nat, V: nat, m: nat, j: nat, U: nat, R: nat, q: nat, rest: nat)
    requires |qs| == 5 && j <= m <= 4 && V > 0
    requires N == Val(B, qs[4 - m..4 - m + j]) * V * Pow(B, m + 1 - j) + (U * Pow(B, m - j) + rest)
    requires q == U / V && R == U % V
    ensures N == Val(B, qs[4 - m + j := q][4 - m..4 - m + j + 1]) * V * Pow(B, m - j) + (R * Pow(B, m - j) + rest)
  {
    assert qs[4 - m + j := q][4 - m..4 - m + j + 1] == qs[4 - m..4 - m + j] + [q];
    ValSnoc(B, qs[4 - m..4 - m + j], q);
    DigitArith(B, Pow(B, m - j), N, Val(B, qs[4 - m..4 - m + j]), V, U, R, q, rest);
  }

  lemma DigitArith(B: nat, P: nat, N: nat, Q: nat, V: nat, U: nat, R: nat, q: nat, rest: nat)
    requires V > 0
    requires N == Q * V * (B * P) + (U * P + rest)
    requires q == U / V && R == U % V
    ensures N == (Q * B + q) * V * P + (R * P + rest)
  {
    assert U == q * V + R;
    MulDistr(q * V, R, P);
    MulDistr(Q * B, q, V);
    MulDistr(Q * B * V, q * V, P);
    calc {
      Q * V * (B * P);
    == { MulAssoc(Q * V, B, P); }
      Q * V * B * P;
    == { MulAssoc(Q, V, B); MulAssoc(Q, B, V); }
      Q * B * V * P;
    }
  }

  /** Fewer leading digits than the divisor: the top n digits of the shifted
      dividend are below the shifted divisor. */
  lemma FirstWindow(B: nat, S: nat, us: seq<nat>, N: nat, V: nat, uo: nat, n: nat, m: nat)
    requires |us| == 5 && uo + m + n == 4 && n >= 1 && B > 0 && S > 0
    requires Val(B, us[uo..]) == N * S
    requires N < Pow(B, m + n)
    requires V >= Pow(B, n - 1)
    ensures Val(B, us[uo..uo + n]) < V * S
  {
    var W, P := Val(B, us[uo..uo + n]), Pow(B, m + 1);
    assert us[uo..] == us[uo..uo + n] + us[uo + n..];
    ValConcat(B, us[uo..uo + n], us[uo + n..]);
    PowAdd(B, n - 1, m + 1);
    WindowArith(W, S, P, Pow(B, n - 1), N, V);
  }

  lemma WindowArith(W: nat, S: nat, P: nat, K: nat, N: nat, V: nat)
    requires S > 0 && W * P <= N * S && N < K * P && K <= V
    ensures W < V * S
  {
    MulStrict(N, K * P, S);
    MulAssoc(K, P, S);
    MulAssoc(K, S, P);
    MulLt(W, K * S, P);
    MulLe(K, V, S);
  }

  /** Steps D2 to D7: all the quotient digits; u ends up holding the remainder. */
  method DigitLoop(B: nat, u: array<nat>, v: array<nat>, q: array<nat>, uo: nat, vo: nat, n: nat, m: nat)
    requires u.Length == v.Length == q.Length == 5 && u != v && u != q && v != q
    requires uo + m + n == 4 && vo + n == 4 && n >= 2
    requires B > 0 && AllDigits(B, u[..]) && AllDigits(B, v[1..]) && v[vo + 1] > 0
    requires forall k :: 0 <= k < uo ==> u[k] == 0
    requires Val(B, u[uo..uo + n]) < Val(B, v[vo + 1..])
    modifies u, q
    ensures AllDigits(B, u[..])
    ensures q[..4 - m] == old(q[..4 - m])
    ensures forall k :: 0 <= k <= uo + m ==> u[k] == 0
    ensures old(Val(B, u[uo..])) == Val(B, q[4 - m..]) * Val(B, v[vo + 1..]) + Val(B, u[uo + m + 1..])
    ensures Val(B, u[uo + m + 1..]) < Val(B, v[vo + 1..])
  {
    ghost var N, V, qs := Val(B, u[uo..]), Val(B, v[vo + 1..]), q[..];
    NoneDone(B, u[..], q[..], N, V, uo, n, m);
    for j := 0 to m + 1
      invariant AllDigits(B, u[..]) && V == Val(B, v[vo + 1..])
      invariant q[..4 - m] == qs[..4 - m]
      invariant forall k :: 0 <= k < uo + j ==> u[k] == 0
      invariant DigitsDone(B, u[..], q[..], N, V, uo, n, m, j)
    {
      OneDigit(B, u, v, q, uo, vo, n, m, j, N, V);
    }
    AllDone(B, u[..], q[..], N, V, uo, n, m);
    assert q[4 - m..] == q[..][4 - m..] && u[uo + m + 1..] == u[..][uo + m + 1..];
  }

  lemma NoneDone(B: nat, us: seq<nat>, qs: seq<nat>, N: nat, V: nat, uo: nat, n: nat, m: nat)
    requires |us| == 5 && |qs| == 5 && uo + m + n == 4 && n >= 1
    requires N == Val(B, us[uo..]) && Val(B, us[uo..uo + n]) < V
    ensures DigitsDone(B, us, qs, N, V, uo, n, m, 0)
  {
    assert qs[4 - m..4 - m] == [];
    assert Val(B, []) == 0;
    ZeroTerm(V, Pow(B, m + 1));
    assert N == Val(B, qs[4 - m..4 - m + 0]) * V * Pow(B, m + 1 - 0) + Val(B, us[uo + 0..]);
  }

  lemma ZeroTerm(V: nat, P: nat)
    ensures 0 * V * P == 0
  {
  }

  lemma AllDone(B: nat, us: seq<nat>, qs: seq<nat>, N: nat, V: nat, uo: nat, n: nat, m: nat)
    requires |us| == 5 && |qs| == 5 && uo + m + n == 4 && n >= 1
    requires DigitsDone(B, us, qs, N, V, uo, n, m, m + 1)
    ensures N == Val(B, qs[4 - m..]) * V + Val(B, us[uo + m + 1..])
    ensures Val(B, us[uo + m + 1..]) < V
  {
    DigitsSpelled(B, us, qs, N, V, uo, n, m, m + 1);
    assert Pow(B, 0) == 1;
    assert qs[4 - m..] == qs[4 - m..4 - m + m + 1];
    assert us[uo + m + 1..] == us[uo + m + 1..uo + m + 1 + n];
  }

  /** The body of the digit loop. */
  method OneDigit(B: nat, u: array<nat>, v: array<nat>, q: array<nat>, uo: nat, vo: nat, n: nat, m: nat, j: nat,
                  ghost N: nat, ghost V: nat)
    requires u.Length == v.Length == q.Length == 5 && u != v && u != q && v != q
    requires uo + m + n == 4 && vo + n == 4 && n >= 2 && j <= m
    requires B > 0 && AllDigits(B, u[..]) && AllDigits(B, v[1..]) && v[vo + 1] > 0
    requires V == Val(B, v[vo + 1..])
    requires DigitsDone(B, u[..], q[..], N, V, uo, n, m, j)
    modifies u, q
    ensures AllDigits(B, u[..])
    ensures u[..uo + j] == old(u[..uo + j]) && u[uo + j] == 0
    ensures q[..4 - m + j] == old(q[..4 - m + j])
    ensures DigitsDone(B, u[..], q[..], N, V, uo, n, m, j + 1)
  {
    ghost var us, qs := u[..], q[..];
    DigitsSpelled(B, us, qs, N, V, uo, n, m, j);
    assert v[vo + 1..] == v[vo + 1..vo + n + 1];
    ValBound(B, v[vo + 1..]);
    Shifted(B, us, uo + j, n, V);
    assert us[uo + j..uo + j + n + 1] == u[uo + j..uo + j + n + 1];
    var d := DivideDigit(B, u, uo + j, v, vo, n);
    q[4 - m + j] := d;
    assert q[..] == qs[4 - m + j := d];
    assert u[..][uo + j..uo + j + n + 1] == u[uo + j..uo + j + n + 1];
    assert u[..][uo + j + n + 1..] == u[uo + j + n + 1..];
    DigitStep(B, us, u[..], qs, N, V, uo, n, m, j, d);
  }

  /** The next window: n digits below the divisor, and one more digit. */
  lemma Shifted(B: nat, us: seq<nat>, k: nat, n: nat, V: nat)
    requires k + n < |us| && AllDigits(B, us)
    requires Val(B, us[k..k + n]) < V
    ensures Val(B, us[k..k + n + 1]) < B * V
  {
    assert us[k..k + n + 1] == us[k..k + n] + [us[k + n]];
    ValSnoc(B, us[k..k + n], us[k + n]);
    MulLe(Val(B, us[k..k + n]) + 1, V, B);
    MulDistr(Val(B, us[k..k + n]), 1, B);
  }

  /** Undoing the normalization: the shifted division is the division. */
  lemma Denormalize(U: nat, V: nat, S: nat, Q: nat, R: nat)
    requires V > 0 && S > 0
    requires U * S == Q * (V * S) + R && R < V * S
    ensures R % S == 0 && U == Q * V + R / S && R / S < V
  {
    var r := U - Q * V;
    MulAssoc(Q, V, S);
    MulDistr(U, Q * V, S);
    assert R == r * S;
    MulLt(-1, r, S);
    MulLt(r, V, S);
    DivModUnique(R, S, r, 0);
  }

  // ----- The whole division -----

  lemma LeadingZeros(B: nat, s: seq<nat>, i: nat, k: nat)
    requires i <= k <= |s|
    requires forall l :: i <= l < k ==> s[l] == 0
    ensures Val(B, s[i..]) == Val(B, s[k..])
  {
    assert s[i..] == s[i..k] + s[k..];
    ValConcat(B, s[i..k], s[k..]);
    ValZeros(B, s[i..k]);
  }

  /** A nonzero leading digit makes the number at least its weight, and conversely. */
  lemma LeadingWeight(B: nat, s: seq<nat>, k: nat)
    requires k < |s| && B > 0 && AllDigits(B, s[k..])
    ensures s[k] > 0 <==> Val(B, s[k..]) >= Pow(B, |s| - k - 1)
  {
    assert s[k..] == s[k..|s|] && s[k + 1..] == s[k + 1..|s|];
    ValHead(B, s, k, |s|);
    ValBound(B, s[k + 1..]);
    if s[k] > 0 {
      MulLe(1, s[k], Pow(B, |s| - k - 1));
    }
  }

  /** Step D1: shift both numbers left so that the divisor's top bit is set. */
  method Normalize(h: nat, u: array<nat>, v: array<nat>, uo: nat, vo: nat, n: nat, m: nat) returns (d: nat)
    requires h > 0 && u.Length == v.Length == 5 && u != v && uo + m + n == 4 && vo + n == 4 && n >= 2
    requires AllDigits(Base(h), u[..]) && AllDigits(Base(h), v[1..])
    requires v[vo + 1] > 0 && u[uo] == 0
    modifies u, v
    ensures d < h
    ensures AllDigits(Base(h), u[..]) && AllDigits(Base(h), v[1..])
    ensures u[..uo] == old(u[..uo])
    ensures Val(Base(h), u[uo..]) == old(Val(Base(h), u[uo..])) * Pow(2, d)
    ensures Val(Base(h), v[vo + 1..]) == old(Val(Base(h), v[vo + 1..])) * Pow(2, d)
  {
    var B := Base(h);
    assert v[vo + 1] == v[1..][vo] < B;
    d := NormalShift(h, v[vo + 1]);
    var S, T := Pow(2, d), Pow(2, h - d);
    PowAdd(2, d, h - d);
    if d > 0 {
      ghost var us, vs := u[..], v[..];
      assert us[uo..] == u[uo..uo + (m + n) + 1];
      assert vs[vo + 1..] == v[vo + 1..vo + 1 + (n - 1) + 1];
      ShiftLeft(B, S, T, u, uo, m + n);
      ShiftLeft(B, S, T, v, vo + 1, n - 1);
      assert u[uo..] == u[uo..uo + (m + n) + 1];
      assert v[vo + 1..] == v[vo + 1..vo + 1 + (n - 1) + 1];
      Rejoin(B, us, u[..], uo);
      Rejoin(B, vs[1..], v[1..], vo);
    }
  }

  lemma Rejoin(B: nat, s: seq<nat>, t: seq<nat>, k: nat)
    requires k <= |s| == |t| && AllDigits(B, s) && s[..k] == t[..k] && AllDigits(B, t[k..])
    ensures AllDigits(B, t)
  {
    assert t == t[..k] + t[k..];
    assert forall i :: 0 <= i < k ==> t[i] == t[..k][i] == s[..k][i];
  }

  /** The remainder, shifted back down into the low digits of u. */
  method TakeRemainder(h: nat, u: array<nat>, k: nat, d: nat) returns (rem: nat)
    requires u.Length == 5 && k < 4 && d < h
    requires forall i :: 0 <= i <= k ==> u[i] == 0
    modifies u
    ensures rem == old(Val(Base(h), u[k + 1..])) / Pow(2, d)
  {
    var B := Base(h);
    ghost var R := Val(B, u[k + 1..]);
    LeadingZeros(B, u[..], k, k + 1);
    assert u[..][k..] == u[k..] && u[..][k + 1..] == u[k + 1..];
    if d > 0 {
      PowAdd(2, d, h - d);
      ShiftRight(B, Pow(2, d), Pow(2, h - d), u, k);
      assert forall i :: 0 <= i < k ==> u[i] == u[..k][i];
    }
    assert Pow(2, 0) == 1;
    assert u[..][1..] == u[1..] && u[..][k + 1..] == u[k + 1..];
    assert forall i :: 0 <= i <= k ==> u[i] == 0;
    if k > 0 {
      LeadingZeros(B, u[..], 1, k + 1);
    }
    JoinIsVal(B, u);
    rem := Join(B, u);
  }

  /** Program D, once the sizes of the two numbers are known. */
  method LongDivide(h: nat, u: array<nat>, v: array<nat>, uo: nat, vo: nat, n: nat, m: nat) returns (quot: nat, rem: nat)
    requires h > 0 && u.Length == v.Length == 5 && u != v && uo + m + n == 4 && vo + n == 4 && n >= 2
    requires AllDigits(Base(h), u[..]) && AllDigits(Base(h), v[1..])
    requires v[vo + 1] > 0
    requires forall k :: 0 <= k <= uo ==> u[k] == 0
    modifies u, v
    ensures old(Val(Base(h), u[1..])) == quot * old(Val(Base(h), v[vo + 1..])) + rem
    ensures rem < old(Val(Base(h), v[vo + 1..]))
  {
    var B := Base(h);
    ghost var U, V := Val(B, u[1..]), Val(B, v[vo + 1..]);
    Sizes(B, u[..], v[..], uo, vo, n, m);
    var q := new nat[5];
    for i := 4 - m downto 0
      invariant forall k :: i <= k < 4 - m ==> q[k] == 0
      invariant u[..] == old(u[..]) && v[..] == old(v[..])
    {
      q[i] := 0;
    }
    var d := Normalize(h, u, v, uo, vo, n, m);
    ghost var S := Pow(2, d);
    Normalized(B, S, u[..], v[..], U, V, uo, vo, n, m);
    quot := DivideNormalized(B, u, v, q, uo, vo, n, m);
    Denormalize(U, V, S, quot, Val(B, u[uo + m + 1..]));
    rem := TakeRemainder(h, u, uo + m, d);
  }

  /** Steps D2 to D7, and the quotient put together. */
  method DivideNormalized(B: nat, u: array<nat>, v: array<nat>, q: array<nat>, uo: nat, vo: nat, n: nat, m: nat) returns (quot: nat)
    requires u.Length == v.Length == q.Length == 5 && u != v && u != q && v != q
    requires uo + m + n == 4 && vo + n == 4 && n >= 2
    requires B > 0 && AllDigits(B, u[..]) && AllDigits(B, v[1..]) && v[vo + 1] > 0
    requires forall k :: 0 <= k < uo ==> u[k] == 0
    requires forall k :: 0 <= k < 4 - m ==> q[k] == 0
    requires Val(B, u[uo..uo + n]) < Val(B, v[vo + 1..])
    modifies u, q
    ensures forall k :: 0 <= k <= uo + m ==> u[k] == 0
    ensures old(Val(B, u[uo..])) == quot * Val(B, v[vo + 1..]) + Val(B, u[uo + m + 1..])
    ensures Val(B, u[uo + m + 1..]) < Val(B, v[vo + 1..])
  {
    DigitLoop(B, u, v, q, uo, vo, n, m);
    assert forall k :: 0 <= k < 4 - m ==> q[k] == q[..4 - m][k];
    LeadingZeros(B, q[..], 1, 4 - m);
    assert q[..][1..] == q[1..] && q[..][4 - m..] == q[4 - m..];
    JoinIsVal(B, q);
    quot := Join(B, q);
  }

  lemma Sizes(B: nat, us: seq<nat>, vs: seq<nat>, uo: nat, vo: nat, n: nat, m: nat)
    requires |us| == |vs| == 5 && uo + m + n == 4 && vo + n == 4 && n >= 1
    requires B > 0 && AllDigits(B, us) && AllDigits(B, vs[1..]) && vs[vo + 1] > 0
    requires forall k :: 0 <= k <= uo ==> us[k] == 0
    ensures Val(B, us[1..]) == Val(B, us[uo..]) < Pow(B, m + n)
    ensures Val(B, vs[vo + 1..]) >= Pow(B, n - 1)
  {
    LeadingZeros(B, us, 0, uo);
    LeadingZeros(B, us, 0, 1);
    LeadingZeros(B, us, 0, uo + 1);
    ValBound(B, us[uo + 1..]);
    assert vs[vo + 1..] == vs[1..][vo..];
    LeadingWeight(B, vs, vo + 1);
  }

  lemma Normalized(B: nat, S: nat, us: seq<nat>, vs: seq<nat>, U: nat, V: nat, uo: nat, vo: nat, n: nat, m: nat)
    requires |us| == |vs| == 5 && uo + m + n == 4 && vo + n == 4 && n >= 1
    requires B > 0 && S > 0 && AllDigits(B, vs[1..])
    requires U < Pow(B, m + n) && V >= Pow(B, n - 1)
    requires Val(B, us[uo..]) == U * S && Val(B, vs[vo + 1..]) == V * S
    ensures vs[vo + 1] > 0
    ensures Val(B, us[uo..uo + n]) < Val(B, vs[vo + 1..])
  {
    MulLe(1, S, V);
    assert vs[vo + 1..] == vs[1..][vo..];
    LeadingWeight(B, vs, vo + 1);
    FirstWindow(B, S, us, U, V, uo, n, m);
  }

  /** Count the divisor's digits; vo is how far the pointer v has moved when they
      are counted, or stays one short when there is a single digit. */
  method DivisorSize(B: nat, v: array<nat>) returns (n: nat, vo: nat)
    requires B > 0 && v.Length == 5 && AllDigits(B, v[1..]) && Val(B, v[1..]) > 0
    ensures n == 1 ==> Val(B, v[1..]) == v[4]
    ensures n != 1 ==> n >= 2 && vo + n == 4 && v[vo + 1] > 0 && Val(B, v[1..]) == Val(B, v[vo + 1..])
  {
    n, vo := 4, 0;
    assert v[..][1..] == v[1..];
    while v[vo + 1] == 0
      invariant vo + n == 4 && 2 <= n
      invariant forall k :: 1 <= k <= vo ==> v[k] == 0
      decreases n
    {
      n := n - 1;
      if n == 1 {
        LeadingZeros(B, v[..], 1, 4);
        assert v[..][4..] == [] + [v[4]];
        ValSnoc(B, [], v[4]);
        return;
      }
      vo := vo + 1;
    }
    LeadingZeros(B, v[..], 1, vo + 1);
    assert v[..][vo + 1..] == v[vo + 1..];
  }

  /** Skip the dividend's leading zeros; there are at least n digits left. */
  method DividendSize(B: nat, u: array<nat>, n: nat) returns (m: nat, uo: nat)
    requires B > 1 && u.Length == 5 && AllDigits(B, u[..]) && u[0] == 0 && 1 <= n <= 4
    requires Val(B, u[1..]) >= Pow(B, n - 1)
    ensures uo + m + n == 4
    ensures forall k :: 0 <= k <= uo ==> u[k] == 0
  {
    m, uo := 4 - n, 0;
    while u[uo + 1] == 0
      invariant uo + m + n == 4
      invariant forall k :: 0 <= k <= uo ==> u[k] == 0
      decreases m
    {
      LeadingZeros(B, u[..], 1, uo + 2);
      assert u[..][1..] == u[1..];
      EnoughDigits(B, u[..], uo + 2, n, Val(B, u[1..]));
      m := m - 1;
      uo := uo + 1;
    }
  }

  /** `__qdivrem`. */
  method QDivRem(h: nat, ull: nat, vll: nat) returns (r: Division)
    requires h > 0 && ull < Pow(Base(h), 4) && vll < Pow(Base(h), 4)
    ensures r.DivideByZero? <==> vll == 0
    ensures r.Quotient? ==> ull == r.quot * vll + r.rem && r.rem < vll
  {
    if vll == 0 {
      return DivideByZero;
    }
    if ull < vll {
      return Quotient(0, ull);
    }
    var B := Base(h);
    var u, v := new nat[5], new nat[5];
    u[0] := 0;
    Split(B, ull, u);
    Split(B, vll, v);
    assert forall k :: 0 <= k < 5 ==> u[k] == if k == 0 then 0 else u[1..][k - 1];
    var n, vo := DivisorSize(B, v);
    var quot, rem;
    if n == 1 {
      JoinIsVal(B, u);
      quot, rem := ShortDivide(B, u[1], u[2], u[3], u[4], v[4]);
    } else {
      assert v[vo + 1..] == v[..][vo + 1..] == v[1..][vo..];
      LeadingWeight(B, v[..], vo + 1);
      var m, uo := DividendSize(B, u, n);
      quot, rem := LongDivide(h, u, v, uo, vo, n, m);
    }
    return Quotient(quot, rem);
  }

  /** The dividend is no shorter than the divisor. */
  lemma EnoughDigits(B: nat, us: seq<nat>, k: nat, n: nat, x: nat)
    requires k <= |us| && n >= 1 && B > 1 && AllDigits(B, us[k..])
    requires Val(B, us[k..]) == x >= Pow(B, n - 1)
    ensures n <= |us| - k
  {
    ValBound(B, us[k..]);
    PowStrict(B, n - 1, |us| - k);
  }
}
