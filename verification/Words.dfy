/** Machine words of a two-digit width, as the compiler support library sees
    them: an `unsigned int` holds two digits of base B, a `long long` holds four. */
module Words {

  function Pow(b: nat, e: nat): (r: nat)
    ensures b > 0 ==> r > 0
  {
    if e == 0 then 1 else b * Pow(b, e - 1)
  }

  /** The digit base: two to the number of bits in half an int. */
  function Base(halfBits: nat): (r: nat)
    ensures r > 0
  {
    Pow(2, halfBits)
  }

  /** The value an `unsigned int` holds after arithmetic wraps around. */
  function Wrap(B: nat, x: int): (r: nat)
    requires B > 0
    ensures r < B * B
  {
    x % (B * B)
  }

  function HHalf(B: nat, x: nat): nat
    requires B > 0
  {
    x / B
  }

  function LHalf(B: nat, x: nat): (r: nat)
    requires B > 0
    ensures r < B
  {
    x % B
  }

  /** Two digits side by side; the bits do not overlap because b is a digit. */
  function Combine(B: nat, a: nat, b: nat): nat
  {
    a * B + b
  }

  lemma {:induction false} PowAdd(b: nat, m: nat, n: nat)
    ensures Pow(b, m + n) == Pow(b, m) * Pow(b, n)
  {
    if m != 0 {
      PowAdd(b, m - 1, n);
      assert Pow(b, m + n) == b * Pow(b, m - 1 + n);
      MulAssoc(b, Pow(b, m - 1), Pow(b, n));
    }
  }

  lemma MulAssoc(a: int, b: int, c: int)
    ensures a * b * c == a * (b * c)
  {
  }

  lemma MulDistr(a: int, b: int, c: int)
    ensures (a + b) * c == a * c + b * c
    ensures (a - b) * c == a * c - b * c
  {
  }

  lemma MulLe(a: int, b: int, c: nat)
    requires a <= b
    ensures a * c <= b * c
  {
  }

  lemma MulStrict(a: int, b: int, c: nat)
    requires a < b && c > 0
    ensures a * c < b * c
  {
    MulLe(a + 1, b, c);
    MulDistr(a, 1, c);
  }

  lemma MulLt(a: int, b: int, c: nat)
    requires a * c < b * c
    ensures a < b
  {
    if b <= a {
      MulLe(b, a, c);
    }
  }

  /** Division and remainder are determined by their defining equation. */
  lemma DivModUnique(x: int, d: nat, q: int, r: int)
    requires x == q * d + r
    requires 0 <= r < d
    ensures x / d == q
    ensures x % d == r
  {
    var q' := x / d;
    var r' := x % d;
    assert x == q' * d + r';
    if q' < q {
      MulLe(q' + 1, q, d);
    } else if q < q' {
      MulLe(q + 1, q', d);
    }
  }

  lemma Halves(B: nat, x: nat)
    requires B > 0
    ensures x == LHalf(B, x) + HHalf(B, x) * B
  {
  }

  /** The signed value of a word of M possible values, in two's complement. */
  function Signed(M: nat, x: nat): int
  {
    if 2 * x < M then x else x - M
  }

  predicate InRange(M: nat, a: int)
  {
    0 - M <= 2 * a < M
  }

  lemma SignedOfMod(M: nat, a: int)
    requires M > 0 && M % 2 == 0 && InRange(M, a)
    ensures Signed(M, a % M) == a
  {
    if a >= 0 {
      DivModUnique(a, M, 0, a);
    } else {
      DivModUnique(a, M, -1, a + M);
    }
  }

  lemma ModShift(x: int, M: nat, k: int)
    requires M > 0
    ensures (x + k * M) % M == x % M
  {
    MulDistr(x / M, k, M);
    DivModUnique(x + k * M, M, x / M + k, x % M);
  }

  lemma ModAdd(x: int, y: int, M: nat)
    requires M > 0
    ensures (x % M + y) % M == (x + y) % M
  {
    ModShift(x + y, M, -(x / M));
  }

  /** Arithmetic facts that must not be multiplied out everywhere are stated for the
      k that is 0; mentioning `Spelled` multiplies them out. */
  predicate Spelled(k: int)
  {
    true
  }

  lemma NotEmpty(a: set<int>)
    ensures a == {} || exists x :: x in a
  {
    assert (forall x :: x !in a) ==> a == {};
  }
}
