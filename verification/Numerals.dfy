/** Numbers as text in bases up to 16, and reading them back with atoi. */
module Numerals {
  import opened Words

  const DIGITS := "0123456789abcdef"

  /** The value of a digit character, or -1. */
  function DigitValue(c: char): int
  {
    if '0' <= c <= '9' then c as int - '0' as int
    else if 'a' <= c <= 'f' then c as int - 'a' as int + 10
    else -1
  }

  lemma DigitsInOrder(d: nat)
    requires d < 16
    ensures DigitValue(DIGITS[d]) == d
  {
    assert DIGITS[0] == '0' && DIGITS[1] == '1' && DIGITS[2] == '2' && DIGITS[3] == '3';
    assert DIGITS[4] == '4' && DIGITS[5] == '5' && DIGITS[6] == '6' && DIGITS[7] == '7';
    assert DIGITS[8] == '8' && DIGITS[9] == '9' && DIGITS[10] == 'a' && DIGITS[11] == 'b';
    assert DIGITS[12] == 'c' && DIGITS[13] == 'd' && DIGITS[14] == 'e' && DIGITS[15] == 'f';
  }

  /** Text that is all digits of the base. */
  ghost predicate IsNumeral(s: string, base: nat)
  {
    forall i :: 0 <= i < |s| ==> 0 <= DigitValue(s[i]) < base
  }

  /** The number a text of digits denotes. */
  function Value(s: string, base: nat): int
  {
    if |s| == 0 then 0 else Value(s[..|s| - 1], base) * base + DigitValue(s[|s| - 1])
  }

  /** The bases printf prints in. */
  predicate IsBase(base: nat)
  {
    base == 8 || base == 10 || base == 16
  }

  function Quot(n: nat, base: nat): (q: nat)
    requires IsBase(base)
    ensures q > 0 ==> q < n
  {
    if base == 8 then n / 8 else if base == 10 then n / 10 else n / 16
  }

  function Rem(n: nat, base: nat): (r: nat)
    requires IsBase(base)
    ensures r < base <= 16
  {
    if base == 8 then n % 8 else if base == 10 then n % 10 else n % 16
  }

  lemma DivisionLaw(n: nat, base: nat)
    requires IsBase(base)
    ensures Quot(n, base) == n / base && Rem(n, base) == n % base && Quot(n, base) * base + Rem(n, base) == n
  {
  }

  /** The text the conversion loop produces, most significant digit first. */
  function Numeral(n: nat, base: nat): string
    requires IsBase(base)
    decreases n
  {
    if Quot(n, base) == 0 then [DIGITS[Rem(n, base)]]
    else Numeral(Quot(n, base), base) + [DIGITS[Rem(n, base)]]
  }

  lemma ValueSnoc(s: string, c: char, base: nat)
    ensures Value(s + [c], base) == Value(s, base) * base + DigitValue(c)
  {
    assert (s + [c])[..|s + [c]| - 1] == s;
  }

  /** The printed digits denote the number. */
  lemma {:induction false} NumeralDenotes(n: nat, base: nat)
    requires IsBase(base)
    ensures Value(Numeral(n, base), base) == n
    decreases n
  {
    var c := DIGITS[Rem(n, base)];
    DigitsInOrder(Rem(n, base));
    DivisionLaw(n, base);
    if Quot(n, base) == 0 {
      ValueSnoc([], c, base);
    } else {
      NumeralDenotes(Quot(n, base), base);
      ValueSnoc(Numeral(Quot(n, base), base), c, base);
    }
  }

  /** They are digits of the base, with no needless zero in front. */
  lemma {:induction false} NumeralShape(n: nat, base: nat)
    requires IsBase(base)
    ensures IsNumeral(Numeral(n, base), base) && |Numeral(n, base)| > 0
    ensures n > 0 ==> Numeral(n, base)[0] != '0'
    decreases n
  {
    DigitsInOrder(Rem(n, base));
    if Quot(n, base) > 0 {
      NumeralShape(Quot(n, base), base);
    }
  }

  /** A number below 8 to the k + 1 needs at most k + 1 digits; in a bigger base no more. */
  lemma {:induction false} NumeralLength(n: nat, base: nat, k: nat)
    requires IsBase(base) && n < 8 * Pow(8, k)
    ensures |Numeral(n, base)| <= k + 1
    decreases k
  {
    if Quot(n, base) > 0 && k > 0 {
      NumeralLength(Quot(n, base), base, k - 1);
    }
  }

  /** And at least k + 1 when it is that big. */
  lemma {:induction false} NumeralAtLeast(n: nat, k: nat)
    requires n >= Pow(8, k)
    ensures |Numeral(n, 8)| >= k + 1
    decreases n
  {
    if k > 0 {
      NumeralAtLeast(Quot(n, 8), k - 1);
    }
  }

  const MAX_UINT64: nat := 0xffff_ffff_ffff_ffff

  lemma EightTo22()
    ensures Pow(8, 21) == 0x8000_0000_0000_0000 && Pow(8, 22) == 0x4_0000_0000_0000_0000
  {
    assert Pow(8, 4) == 4096;
    PowAdd(8, 4, 4);
    PowAdd(8, 8, 8);
    PowAdd(8, 16, 4);
    PowAdd(8, 20, 1);
    PowAdd(8, 21, 1);
  }

  /** Every 64-bit number in base 8, 10 or 16 fits 22 digits; the largest needs them
      all in base 8. */
  lemma FitsTheBuffer(n: nat, base: nat)
    requires n <= MAX_UINT64 && IsBase(base)
    ensures |Numeral(n, base)| <= 22
    ensures |Numeral(MAX_UINT64, 8)| == 22
  {
    EightTo22();
    NumeralLength(n, base, 21);
    NumeralLength(MAX_UINT64, 8, 21);
    NumeralAtLeast(MAX_UINT64, 21);
  }

  // ----- Values of longer texts -----

  lemma {:induction false} ValueConcat(a: string, b: string, base: nat)
    ensures Value(a + b, base) == Value(a, base) * Pow(base, |b|) + Value(b, base)
    decreases |b|
  {
    if |b| == 0 {
      assert a + b == a;
    } else {
      var h, d := b[..|b| - 1], DigitValue(b[|b| - 1]);
      assert (a + b)[..|a + b| - 1] == a + h;
      ValueConcat(a, h, base);
      MulDistr(Value(a, base) * Pow(base, |h|), Value(h, base), base);
      PowSwap(Value(a, base), base, |h|);
    }
  }

  lemma PowSwap(v: int, base: nat, e: nat)
    ensures v * Pow(base, e) * base == v * Pow(base, e + 1)
  {
    MulAssoc(v, Pow(base, e), base);
  }

  function Repeat(c: char, k: nat): (s: string)
    ensures |s| == k && forall i :: 0 <= i < k ==> s[i] == c
  {
    seq(k, i => c)
  }

  lemma {:induction false} ValueOfZeros(k: nat, base: nat)
    ensures Value(Repeat('0', k), base) == 0
  {
    if k > 0 {
      assert Repeat('0', k)[..k - 1] == Repeat('0', k - 1);
      ValueOfZeros(k - 1, base);
    }
  }

  // ----- atoi -----

  const WORD := 0x1_0000_0000

  /** What a 32-bit word means as an int. */
  function AsInt(x: int): (r: int)
    requires 0 <= x < WORD
  {
    if x < WORD / 2 then x else x - WORD
  }

  predicate IsSpace(c: char)
  {
    c == ' ' || c == '\t'
  }

  predicate IsDecimal(c: char)
  {
    '0' <= c <= '9'
  }

  /** Where the text goes on after leading blanks. */
  function AfterSpace(s: string): (i: nat)
    ensures i <= |s| && (i < |s| ==> !IsSpace(s[i])) && forall k :: 0 <= k < i ==> IsSpace(s[k])
  {
    if |s| > 0 && IsSpace(s[0]) then 1 + AfterSpace(s[1..]) else 0
  }

  /** How many decimal digits the text starts with. */
  function DigitCount(s: string): (i: nat)
    ensures i <= |s| && (i < |s| ==> !IsDecimal(s[i])) && forall k :: 0 <= k < i ==> IsDecimal(s[k])
  {
    if |s| > 0 && IsDecimal(s[0]) then 1 + DigitCount(s[1..]) else 0
  }

  /** The number denoted by the digits the text starts with. */
  function LeadingNumber(u: string): int
  {
    Value(u[..DigitCount(u)], 10)
  }

  /** The int a number becomes in 32-bit arithmetic, negated or not. */
  function Finished(neg: bool, v: int): int
  {
    AsInt((if neg then -v else v) % WORD)
  }

  /** The number meant by a sign, if any, and the digits after it. */
  function SignedNumber(t: string): int
  {
    var neg := |t| > 0 && t[0] == '-';
    Finished(neg, LeadingNumber(if neg || (|t| > 0 && t[0] == '+') then t[1..] else t))
  }

  /** The number a text means to atoi. */
  function Meaning(s: string): int
  {
    SignedNumber(s[AfterSpace(s)..])
  }

  const DECIMALS := "0123456789"

  lemma Listed(c: char)
    ensures IsDecimal(c) ==> 0 <= DigitValue(c) < |DECIMALS| && DECIMALS[DigitValue(c)] == c
    ensures forall k :: 0 <= k < |DECIMALS| ==> IsDecimal(DECIMALS[k]) && DigitValue(DECIMALS[k]) == k
  {
    assert DECIMALS[0] == '0' && DECIMALS[1] == '1' && DECIMALS[2] == '2' && DECIMALS[3] == '3' && DECIMALS[4] == '4';
    assert DECIMALS[5] == '5' && DECIMALS[6] == '6' && DECIMALS[7] == '7' && DECIMALS[8] == '8' && DECIMALS[9] == '9';
  }

  /** The digit atoi finds with strchr, or -1. The terminating NUL is not reached. */
  method FindDigit(c: char) returns (digit: int)
    ensures digit == if IsDecimal(c) then DigitValue(c) else -1
  {
    Listed(c);
    for i := 0 to |DECIMALS|
      invariant forall k :: 0 <= k < i ==> DECIMALS[k] != c
    {
      if DECIMALS[i] == c {
        return i;
      }
    }
    digit := -1;
  }

  method SkipSpace(s: string) returns (i: nat)
    ensures i == AfterSpace(s)
  {
    i := 0;
    while i < |s| && IsSpace(s[i])
      invariant 0 <= i <= |s| && AfterSpace(s) == i + AfterSpace(s[i..])
    {
      assert s[i..][1..] == s[i + 1..];
      i := i + 1;
    }
  }

  /** atoi, on a string without its terminating NUL. */
  method Atoi(s: string) returns (r: int)
    ensures r == Meaning(s)
  {
    var i := SkipSpace(s);
    ghost var t := s[i..];
    var neg := i < |s| && s[i] == '-';
    if i < |s| && (s[i] == '-' || s[i] == '+') {
      i := i + 1;
    }
    assert s[i..] == if neg || (|t| > 0 && t[0] == '+') then t[1..] else t;
    var val := AtoiDigits(s, i);
    NegModulo(LeadingNumber(s[i..]));
    r := AsInt(if neg then (0 - val) % WORD else val);
  }

  lemma NegModulo(v: int)
    ensures (0 - v % WORD) % WORD == (-v) % WORD
  {
    assert v == v / WORD * WORD + v % WORD;
    ModShift(-v, WORD, v / WORD);
  }

  /** The first k characters of u are digits, and val is their number in a word. */
  ghost predicate Scanned(u: string, k: nat, val: int)
  {
    k <= |u| && forall i: int {:trigger Spelled(i)} :: i == 0 ==>
      DigitCount(u) == k + DigitCount(u[k..]) && val == Value(u[..k], 10) % WORD
  }

  lemma ScanStarts(u: string)
    ensures Scanned(u, 0, 0)
  {
    assert u[0..] == u && u[..0] == "" && Value("", 10) == 0;
    assert DigitCount(u) == 0 + DigitCount(u[0..]) && 0 == Value(u[..0], 10) % WORD;
  }

  lemma ScanGoesOn(u: string, k: nat, val: int)
    requires Scanned(u, k, val) && k < |u| && IsDecimal(u[k])
    ensures Scanned(u, k + 1, (val * 10 + DigitValue(u[k])) % WORD)
  {
    assert Spelled(0);
    assert u[..k + 1] == u[..k] + [u[k]] && u[k..][1..] == u[k + 1..];
    ValueSnoc(u[..k], u[k], 10);
    ModStep(Value(u[..k], 10), DigitValue(u[k]));
  }

  lemma ScanEnds(u: string, k: nat, val: int)
    requires Scanned(u, k, val) && (k < |u| ==> !IsDecimal(u[k]))
    ensures val == LeadingNumber(u) % WORD && 0 <= val < WORD
  {
    assert Spelled(0);
    assert k < |u| ==> u[k..][0] == u[k];
    assert DigitCount(u[k..]) == 0;
    assert u[..DigitCount(u)] == u[..k];
  }

  /** The digit loop: unsigned arithmetic that wraps. */
  method AtoiDigits(s: string, start: nat) returns (val: int)
    requires start <= |s|
    ensures val == LeadingNumber(s[start..]) % WORD && 0 <= val < WORD
  {
    ghost var u := s[start..];
    val := 0;
    var i := start;
    ScanStarts(u);
    while i < |s|
      invariant start <= i <= |s| && Scanned(u, i - start, val)
    {
      var digit := FindDigit(s[i]);
      assert u[i - start] == s[i];
      if digit == -1 {
        break;
      }
      ScanGoesOn(u, i - start, val);
      val := (val * 10 + digit) % WORD;
      i := i + 1;
    }
    ScanEnds(u, i - start, val);
  }

  lemma ModStep(v: int, d: int)
    ensures (v % WORD * 10 + d) % WORD == (v * 10 + d) % WORD
  {
    assert v == v / WORD * WORD + v % WORD;
    ModShift(v % WORD * 10 + d, WORD, v / WORD * 10);
  }
}
