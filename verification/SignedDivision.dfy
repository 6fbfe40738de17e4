/** `__divdi3` and `__moddi3`: signed division on top of `__qdivrem`. */
module SignedDivision {
  import opened Words
  import opened QDivRem

  datatype Result = Trap | Value(v: int)

  function Abs(a: int): nat
  {
    if a < 0 then -a else a
  }

  /** Division that truncates toward zero, and the remainder that goes with it. */
  function TruncDiv(a: int, b: int): int
    requires b != 0
  {
    var q := Abs(a) / Abs(b);
    if (a < 0) != (b < 0) then -q else q
  }

  function TruncMod(a: int, b: int): int
    requires b != 0
  {
    var r := Abs(a) % Abs(b);
    if a < 0 then -r else r
  }

  /** The law of section 6.5.5 of ISO/IEC 9899:1999, with the remainder smaller than
      the divisor and of the dividend's sign; it leaves one choice only. */
  lemma TruncLaw(a: int, b: int)
    requires b != 0
    ensures TruncDiv(a, b) * b + TruncMod(a, b) == a
    ensures Remainder(a, b, TruncMod(a, b))
  {
    SignLaw(a, b, Abs(a) / Abs(b), Abs(a) % Abs(b));
  }

  lemma SignLaw(a: int, b: int, q: nat, r: nat)
    requires Abs(a) == q * Abs(b) + r
    ensures (if (a < 0) != (b < 0) then 0 - q else q) * b + (if a < 0 then 0 - r else r) == a
  {
    NegMul(q, b);
  }

  ghost predicate Remainder(a: int, b: int, r: int)
  {
    && (if b < 0 then b < r < -b else -b < r < b)
    && (a >= 0 ==> r >= 0) && (a <= 0 ==> r <= 0)
  }

  lemma NegMul(x: int, y: int)
    ensures (-x) * y == -(x * y) && x * (-y) == -(x * y) && (-x) * (-y) == x * y
  {
  }

  lemma TruncUnique(a: int, b: int, q: int, r: int)
    requires b != 0 && q * b + r == a && Remainder(a, b, r)
    ensures q == TruncDiv(a, b) && r == TruncMod(a, b)
  {
    TruncLaw(a, b);
    var k := TruncDiv(a, b) - q;
    MulDistr(TruncDiv(a, b), q, b);
    assert k * b == r - TruncMod(a, b);
    NegMul(k, Abs(b));
    if k > 0 {
      MulLe(1, k, Abs(b));
    } else if k < 0 {
      MulLe(k, -1, Abs(b));
    }
  }

  lemma EvenMul(x: nat, y: nat)
    requires x % 2 == 0
    ensures (x * y) % 2 == 0
  {
    MulAssoc(2, x / 2, y);
    assert x * y == 2 * (x / 2 * y);
  }

  lemma EvenPower(h: nat)
    requires h > 0
    ensures Pow(Base(h), 4) % 2 == 0 && Pow(Base(h), 4) > 2
  {
    var B := Base(h);
    assert B == 2 * Pow(2, h - 1) >= 2;
    PowFour(B);
    EvenMul(B, B);
    EvenMul(B * B, B * B);
    MulLe(2, B, B);
    MulLe(4, B * B, B * B);
  }

  /** Unary minus on an unsigned long long of M values. */
  function Negate(M: nat, x: nat): (r: nat)
    requires M > 0
    ensures r < M
  {
    (0 - x) % M
  }

  lemma Magnitude(M: nat, a: int)
    requires M > 2 && M % 2 == 0 && InRange(M, a)
    ensures a >= 0 ==> a % M == a
    ensures a < 0 ==> Negate(M, a % M) == -a
  {
    if a >= 0 {
      DivModUnique(a, M, 0, a);
    } else {
      DivModUnique(a, M, -1, a + M);
      DivModUnique(0 - (a + M), M, -1, -a);
    }
  }

  /** `__divdi3`. The one quotient that does not fit, MIN / -1, wraps back to MIN. */
  method DivDi3(h: nat, a: int, b: int) returns (r: Result)
    requires h > 0 && InRange(Pow(Base(h), 4), a) && InRange(Pow(Base(h), 4), b)
    ensures r.Trap? <==> b == 0
    ensures b != 0 ==> r.v == Signed(Pow(Base(h), 4), TruncDiv(a, b) % Pow(Base(h), 4))
    ensures b != 0 && !(b == -1 && 2 * a == 0 - Pow(Base(h), 4)) ==> r.v == TruncDiv(a, b)
    ensures b == -1 && 2 * a == 0 - Pow(Base(h), 4) ==> r.v == a
  {
    var M := Pow(Base(h), 4);
    EvenPower(h);
    Magnitude(M, a);
    Magnitude(M, b);
    var ua, ub, neg := a % M, b % M, false;
    if a < 0 {
      ua, neg := Negate(M, ua), !neg;
    }
    if b < 0 {
      ub, neg := Negate(M, ub), !neg;
    }
    var d := QDivRem.QDivRem(h, ua, ub);
    if d.DivideByZero? {
      return Trap;
    }
    var uq := d.quot;
    if neg {
      uq := Negate(M, uq);
    }
    QuotientWord(M, a, b, d.quot, d.rem);
    return Value(Signed(M, uq));
  }

  /** The word `__divdi3` ends with, from the magnitudes' quotient. */
  lemma QuotientWord(M: nat, a: int, b: int, q: nat, r: nat)
    requires M > 2 && M % 2 == 0 && InRange(M, a) && InRange(M, b) && b != 0
    requires Abs(a) == q * Abs(b) + r && r < Abs(b)
    ensures var w := if (a < 0) != (b < 0) then Negate(M, q) else q;
            && Signed(M, w) == Signed(M, TruncDiv(a, b) % M)
            && (if b == -1 && 2 * a == 0 - M then Signed(M, w) == a else Signed(M, w) == TruncDiv(a, b))
  {
    DivModUnique(Abs(a), Abs(b), q, r);
    SmallQuotient(Abs(a), Abs(b));
    QuotientRange(M, a, b, q);
    WordOf(M, (a < 0) != (b < 0), q);
  }

  lemma WordOf(M: nat, neg: bool, q: nat)
    requires M > 2 && M % 2 == 0 && 2 * q <= M
    ensures var x := if neg then 0 - q else q;
            var w := if neg then Negate(M, q) else q;
            && x % M == w
            && (InRange(M, x) ==> Signed(M, w) == x)
            && (!neg && 2 * q == M ==> Signed(M, w) == 0 - q)
  {
    if neg {
      if q > 0 {
        DivModUnique(0 - q, M, -1, M - q);
      }
    } else {
      DivModUnique(q, M, 0, q);
    }
  }

  lemma QuotientRange(M: nat, a: int, b: int, q: nat)
    requires M > 2 && InRange(M, a) && InRange(M, b) && b != 0
    requires q <= Abs(a) && (Abs(b) == 1 ==> q == Abs(a)) && (Abs(b) >= 2 ==> 2 * q <= Abs(a))
    ensures 2 * q <= M
    ensures !(b == -1 && 2 * a == 0 - M) ==> InRange(M, if (a < 0) != (b < 0) then 0 - q else q)
  {
  }

  lemma SmallQuotient(x: nat, y: nat)
    requires y > 0
    ensures x / y <= x
    ensures y == 1 ==> x / y == x
    ensures y >= 2 ==> 2 * (x / y) <= x
  {
    var q := x / y;
    assert x == q * y + x % y;
    if y >= 2 {
      MulLe(2, y, q);
    }
  }

  /** `__moddi3`. */
  method ModDi3(h: nat, a: int, b: int) returns (r: Result)
    requires h > 0 && InRange(Pow(Base(h), 4), a) && InRange(Pow(Base(h), 4), b)
    ensures r.Trap? <==> b == 0
    ensures b != 0 ==> r.v == TruncMod(a, b)
  {
    var M := Pow(Base(h), 4);
    EvenPower(h);
    Magnitude(M, a);
    Magnitude(M, b);
    var ua, ub, neg := a % M, b % M, false;
    if a < 0 {
      ua, neg := Negate(M, ua), !neg;
    }
    if b < 0 {
      ub := Negate(M, ub);
    }
    var d := QDivRem.QDivRem(h, ua, ub);
    if d.DivideByZero? {
      return Trap;
    }
    DivModUnique(ua, ub, d.quot, d.rem);
    TruncLaw(a, b);
    var ur := d.rem;
    DivModUnique(ur, M, 0, ur);
    if neg {
      ur := Negate(M, ur);
    }
    SignedOfMod(M, TruncMod(a, b));
    return Value(Signed(M, ur));
  }
}
