/** Number output of printf, and what atoi makes of it. */
module Printf {
  import opened Words
  import opened Numerals

  datatype Size = IntSize | LongSize | LongLongSize

  // ----- The text of a field -----

  /** A field of at least `width` characters: blanks go in front of the prefixes, zeros
      behind them, and left-aligned text is filled up behind. */
  function Field(prefix: string, prefix2: string, stuff: string, width: int, left: bool, fill: char): string
  {
    var len := |prefix| + |prefix2| + |stuff|;
    var pad := Repeat(fill, if width > len then width - len else 0);
    if left then prefix + prefix2 + stuff + pad
    else if fill == '0' then prefix + prefix2 + pad + stuff
    else pad + prefix + prefix2 + stuff
  }

  function BaseOf(ch: char): (b: nat)
    ensures IsBase(b)
  {
    if ch == 'd' || ch == 'u' then 10 else if ch == 'o' then 8 else 16
  }

  function BasePrefix(ch: char, alt: bool): string
  {
    if !(alt || ch == 'p') then "" else if BaseOf(ch) == 16 then "0x" else if BaseOf(ch) == 8 then "0" else ""
  }

  /** What a conversion prints. */
  function Conversion(ch: char, arg: int, alt: bool, width: int, left: bool, fill: char): string
  {
    Field(if ch == 'd' && arg < 0 then "-" else "", BasePrefix(ch, alt), Numeral(if arg < 0 then -arg else arg, BaseOf(ch)), width, left, fill)
  }

  predicate IsConversion(ch: char)
  {
    ch == 'd' || ch == 'o' || ch == 'u' || ch == 'p' || ch == 'x'
  }

  predicate IsModifier(ch: char)
  {
    ch == '#' || ch == '-' || ch == 'l' || '0' <= ch <= '9'
  }

  /** The values an argument of this conversion and size can have; long is int-sized. */
  predicate ArgOk(ch: char, size: Size, arg: int)
  {
    if ch == 'd' && size.LongLongSize? then -0x8000_0000_0000_0000 <= arg < 0x8000_0000_0000_0000
    else if ch == 'd' then -0x8000_0000 <= arg < 0x8000_0000
    else if size.LongLongSize? && ch != 'p' then 0 <= arg <= MAX_UINT64
    else 0 <= arg < WORD
  }

  /** What va_arg hands over: nothing, a number, a string, a null pointer or a char. */
  datatype Arg = Nothing | Number(n: int) | Text(s: string) | Null | Character(c: char)

  /** The argument is what the character after a % calls for. */
  predicate Matches(ch: char, size: Size, arg: Arg)
  {
    if IsConversion(ch) then arg.Number? && ArgOk(ch, size, arg.n)
    else if ch == 's' then arg.Text? || arg.Null?
    else ch == 'c' ==> arg.Character?
  }

  /** The text of %s and %c, and of a character that is no conversion. A NUL character
      ends the text it is put in. */
  function Shown(ch: char, arg: Arg): string
    requires Matches(ch, IntSize, arg) && !IsConversion(ch)
  {
    if ch == 's' then (if arg.Null? then "(null)" else arg.s)
    else if ch == 'c' then (if arg.c == '\0' then "" else [arg.c])
    else [ch]
  }

  // ----- What is printed, told from the text alone -----

  /** Some stuff, filled up to a width. */
  ghost predicate FilledWith(text: string, stuff: string, width: int, left: bool, fill: char, pad: string)
  {
    && (forall i :: 0 <= i < |pad| ==> pad[i] == fill)
    && |text| == (if width > |stuff| then width else |stuff|)
    && text == if left then stuff + pad else pad + stuff
  }

  ghost predicate Filled(text: string, stuff: string, width: int, left: bool, fill: char)
  {
    exists pad: string :: FilledWith(text, stuff, width, left, fill, pad)
  }

  /** Digits of a number as they are written down: of the base, in lower case, and with no
      needless zero in front. */
  ghost predicate Written(digits: string, n: int, base: nat)
  {
    && IsNumeral(digits, base) && |digits| > 0 && Value(digits, base) == n && (|digits| > 1 ==> digits[0] != '0')
    && forall i :: 0 <= i < |digits| ==> '0' <= digits[i] <= '9' || 'a' <= digits[i] <= 'f'
  }

  /** The text is that number: sign, prefix and digits, filled up in front with blanks,
      behind the prefixes with zeros, or behind the number with either. */
  ghost predicate PrintedAs(text: string, ch: char, n: int, alt: bool, width: int, left: bool, fill: char, digits: string, pad: string)
  {
    var sign := if ch == 'd' && n < 0 then "-" else "";
    var prefix := if ch == 'p' || (ch == 'x' && alt) then "0x" else if ch == 'o' && alt then "0" else "";
    var len := |sign| + |prefix| + |digits|;
    && Written(digits, if n < 0 then -n else n, if ch == 'x' || ch == 'p' then 16 else if ch == 'o' then 8 else 10)
    && (forall i :: 0 <= i < |pad| ==> pad[i] == fill)
    && |text| == (if width > len then width else len)
    && text == if left then sign + prefix + digits + pad else if fill == '0' then sign + prefix + pad + digits else pad + sign + prefix + digits
  }

  ghost predicate Printed(text: string, ch: char, n: int, alt: bool, width: int, left: bool, fill: char)
  {
    exists digits: string, pad: string :: PrintedAs(text, ch, n, alt, width, left, fill, digits, pad)
  }

  lemma NumeralIsWritten(n: nat, base: nat)
    requires IsBase(base)
    ensures Written(Numeral(n, base), n, base)
  {
    NumeralDenotes(n, base);
    NumeralShape(n, base);
    var t := Numeral(n, base);
    forall i | 0 <= i < |t|
      ensures '0' <= t[i] <= '9' || 'a' <= t[i] <= 'f'
    {
      assert DigitValue(t[i]) >= 0;
    }
  }

  lemma ConversionIsPrinted(ch: char, n: int, alt: bool, width: int, left: bool, fill: char)
    requires IsConversion(ch)
    ensures Printed(Conversion(ch, n, alt, width, left, fill), ch, n, alt, width, left, fill)
  {
    var m: nat := if n < 0 then -n else n;
    NumeralIsWritten(m, BaseOf(ch));
    var digits := Numeral(m, BaseOf(ch));
    var pad := FieldShape(if ch == 'd' && n < 0 then "-" else "", BasePrefix(ch, alt), digits, width, left, fill);
    assert PrintedAs(Conversion(ch, n, alt, width, left, fill), ch, n, alt, width, left, fill, digits, pad);
  }

  lemma FieldShape(prefix: string, prefix2: string, stuff: string, width: int, left: bool, fill: char) returns (pad: string)
    ensures forall i :: 0 <= i < |pad| ==> pad[i] == fill
    ensures var text, len := Field(prefix, prefix2, stuff, width, left, fill), |prefix| + |prefix2| + |stuff|;
            && |text| == (if width > len then width else len)
            && text == if left then prefix + prefix2 + stuff + pad else if fill == '0' then prefix + prefix2 + pad + stuff else pad + prefix + prefix2 + stuff
  {
    var len := |prefix| + |prefix2| + |stuff|;
    pad := Repeat(fill, if width > len then width - len else 0);
  }

  lemma FieldIsFilled(stuff: string, width: int, left: bool, fill: char)
    ensures Filled(Field("", "", stuff, width, left, fill), stuff, width, left, fill)
  {
    var pad := Repeat(fill, if width > |stuff| then width - |stuff| else 0);
    assert FilledWith(Field("", "", stuff, width, left, fill), stuff, width, left, fill, pad);
  }

  /** A number is written down in one way only. */
  lemma {:induction false} WrittenOnce(a: string, b: string, n: int, base: nat)
    requires base >= 2 && Written(a, n, base) && Written(b, n, base)
    ensures a == b
    decreases |a|
  {
    var h, g := a[..|a| - 1], b[..|b| - 1];
    var d, e := DigitValue(a[|a| - 1]), DigitValue(b[|b| - 1]);
    ValueSize(h, base);
    ValueSize(g, base);
    SameSplit(Value(h, base), d, Value(g, base), e, base);
    if |a| > 1 && |b| > 1 {
      assert h[0] == a[0] && g[0] == b[0];
      WrittenOnce(h, g, Value(h, base), base);
    }
    SameDigit(a[|a| - 1], b[|b| - 1]);
    assert a == h + [a[|a| - 1]] && b == g + [b[|b| - 1]];
  }

  lemma SameDigit(c: char, d: char)
    requires DigitValue(c) == DigitValue(d) >= 0
    ensures c == d
  {
  }

  lemma SameSplit(h: int, d: int, g: int, e: int, base: nat)
    requires h * base + d == g * base + e && 0 <= d < base && 0 <= e < base
    ensures h == g && d == e
  {
    MulDistr(h, -g, base);
    if h > g {
      AtLeastOnce(h - g, base);
    } else if g > h {
      AtLeastOnce(g - h, base);
    }
  }

  lemma AtLeastOnce(k: int, base: nat)
    requires k >= 1
    ensures k * base >= base && (0 - k) * base <= 0 - base
  {
    MulDistr(k - 1, 1, base);
  }

  /** Digits without a leading zero denote a positive number. */
  lemma {:induction false} ValueSize(s: string, base: nat)
    requires IsNumeral(s, base) && base >= 2
    ensures Value(s, base) >= 0 && (|s| > 0 && s[0] != '0' ==> Value(s, base) > 0)
  {
    if |s| > 0 {
      var h := s[..|s| - 1];
      ValueSize(h, base);
      assert |h| > 0 ==> h[0] == s[0];
      SumOfDigits(Value(h, base), base, DigitValue(s[|s| - 1]));
      assert DigitValue(s[|s| - 1]) == 0 ==> s[|s| - 1] == '0';
    }
  }

  lemma SumOfDigits(h: int, base: nat, d: int)
    requires h >= 0 && d >= 0 && base >= 2
    ensures h * base + d >= 0 && (h > 0 || d > 0 ==> h * base + d > 0)
  {
  }

  /** So the description fits one text. */
  lemma PrintedOnce(t: string, u: string, ch: char, n: int, alt: bool, width: int, left: bool, fill: char)
    requires Printed(t, ch, n, alt, width, left, fill) && Printed(u, ch, n, alt, width, left, fill)
    ensures t == u
  {
    var d, p :| PrintedAs(t, ch, n, alt, width, left, fill, d, p);
    var e, q :| PrintedAs(u, ch, n, alt, width, left, fill, e, q);
    WrittenOnce(d, e, if n < 0 then -n else n, if ch == 'x' || ch == 'p' then 16 else if ch == 'o' then 8 else 10);
    SameDigitsSameText(t, u, ch, n, alt, width, left, fill, d, p, q);
  }

  lemma SameDigitsSameText(t: string, u: string, ch: char, n: int, alt: bool, width: int, left: bool, fill: char, d: string, p: string, q: string)
    requires PrintedAs(t, ch, n, alt, width, left, fill, d, p) && PrintedAs(u, ch, n, alt, width, left, fill, d, q)
    ensures t == u
  {
    assert |t| == |u|;
    assert p == q;
  }

  const NUMBER_BUF_SIZE := 23

  /** The flags between a % and its conversion. */
  datatype Flags = Flags(alt: bool, left: bool, size: Size, spacing: nat, fill: char)

  function AfterModifier(f: Flags, ch: char): Flags
    requires IsModifier(ch)
  {
    if ch == '#' then f.(alt := true)
    else if ch == '-' then f.(left := true)
    else if ch == 'l' then f.(size := if f.size.LongSize? then LongLongSize else LongSize)
    else
      var (spacing, fill) := AfterDigit(f.spacing, f.fill, ch);
      f.(spacing := spacing, fill := fill)
  }

  // ----- The conversion loop -----

  /** `written` is what the loop has produced while xnum is left of num. */
  ghost predicate Converted(num: nat, base: nat, xnum: nat, more: bool, written: string)
    requires IsBase(base)
  {
    forall i: int {:trigger Spelled(i)} :: i == 0 ==> Numeral(num, base) == (if more then Numeral(xnum, base) else "") + written
  }

  lemma ConversionStarts(num: nat, base: nat)
    requires IsBase(base)
    ensures Converted(num, base, num, true, "")
  {
    assert Numeral(num, base) + "" == Numeral(num, base);
  }

  lemma ConversionStep(num: nat, base: nat, xnum: nat, written: string)
    requires IsBase(base) && Converted(num, base, xnum, true, written) && num <= MAX_UINT64
    ensures xnum % base < 16 && Converted(num, base, xnum / base, xnum / base > 0, [DIGITS[xnum % base]] + written)
    ensures |written| < 22
  {
    assert Spelled(0);
    DivisionLaw(xnum, base);
    FitsTheBuffer(num, base);
    NumeralUnfolds(xnum, base);
    var head, c := if Quot(xnum, base) > 0 then Numeral(Quot(xnum, base), base) else "", [DIGITS[Rem(xnum, base)]];
    assert head + c + written == head + (c + written);
  }

  lemma ConversionEnds(num: nat, base: nat, xnum: nat, written: string)
    requires IsBase(base) && Converted(num, base, xnum, false, written)
    ensures written == Numeral(num, base)
  {
    assert Spelled(0);
  }

  /** The state of one printf. */
  class Printer {
    var out: string
    var inPct: bool
    var size: Size
    var num: nat
    var sign: bool
    var spacing: nat
    var rightspc: bool
    var fillchar: char
    var base: nat
    var baseprefix: bool
    var altformat: bool

    /** Between fields everything is reset. */
    ghost predicate Fresh()
      reads this
    {
      && !inPct && size == IntSize && num == 0 && !sign && spacing == 0 && !rightspc && fillchar == ' ' && base == 0
      && !baseprefix && !altformat
    }

    ghost function FlagsNow(): Flags
      reads this
    {
      Flags(altformat, rightspc, size, spacing, fillchar)
    }

    constructor ()
      ensures Fresh() && out == ""
    {
      out := "";
      inPct, size, num, sign, spacing, rightspc, fillchar, base, baseprefix, altformat :=
        false, IntSize, 0, false, 0, false, ' ', 0, false, false;
    }

    method EndField()
      modifies this
      ensures Fresh() && out == old(out)
    {
      inPct, size, num, sign, spacing, rightspc, fillchar, base, baseprefix, altformat :=
        false, IntSize, 0, false, 0, false, ' ', 0, false, false;
    }

    method Print(txt: string)
      modifies this`out
      ensures out == old(out) + txt
    {
      out := out + txt;
    }

    method Fill(spc: nat)
      modifies this`out
      ensures out == old(out) + Repeat(fillchar, spc)
    {
      for i := 0 to spc
        invariant out == old(out) + Repeat(fillchar, i)
      {
        assert Repeat(fillchar, i + 1) == Repeat(fillchar, i) + [fillchar];
        Print([fillchar]);
      }
    }

    method PrintStuff(prefix: string, prefix2: string, stuff: string)
      modifies this`out
      ensures out == old(out) + Field(prefix, prefix2, stuff, spacing, rightspc, fillchar)
    {
      var len := |prefix| + |prefix2| + |stuff|;
      var spc := if spacing > len then spacing - len else 0;
      if spc > 0 && !rightspc && fillchar != '0' {
        Fill(spc);
      }
      Print(prefix);
      Print(prefix2);
      if spc > 0 && !rightspc && fillchar == '0' {
        Fill(spc);
      }
      Print(stuff);
      if spc > 0 && rightspc {
        Fill(spc);
      }
      FieldParts(old(out), out, prefix, prefix2, stuff, Repeat(fillchar, spc), spacing, rightspc, fillchar);
    }

    /** The conversion loop works from right to left in a buffer of 23 characters, and
        never leaves it. */
    method NumberText() returns (text: string)
      requires num <= MAX_UINT64 && IsBase(base)
      ensures text == Numeral(num, base)
    {
      var buf := new char[NUMBER_BUF_SIZE];
      var x := NUMBER_BUF_SIZE - 1;
      buf[x] := '\0';
      x := x - 1;
      var xnum: nat := num;
      var more := true;
      ConversionStarts(num, base);
      assert buf[22..22] == "";
      while more
        invariant -1 <= x <= 21 && Converted(num, base, xnum, more, buf[x + 1..22])
        decreases x
      {
        ghost var written := buf[x + 1..22];
        ConversionStep(num, base, xnum, written);
        buf[x] := DIGITS[xnum % base];
        assert buf[x..22] == [DIGITS[xnum % base]] + written;
        x := x - 1;
        xnum := xnum / base;
        more := xnum > 0;
      }
      ConversionEnds(num, base, xnum, buf[x + 1..22]);
      text := buf[x + 1..22];
    }

    /** Fetch the argument; -signednum is the two's complement negation. */
    method GetNum(ch: char, arg: int)
      requires ArgOk(ch, size, arg) && !sign
      modifies this`num, this`sign
      ensures num == (if arg < 0 then -arg else arg) <= MAX_UINT64 && sign == (ch == 'd' && arg < 0)
    {
      if ch == 'd' && arg < 0 {
        sign, num := true, -arg;
      } else {
        num := arg;
      }
    }

    method SetBase(ch: char)
      requires IsConversion(ch) && !baseprefix
      modifies this`base, this`baseprefix
      ensures base == BaseOf(ch) && baseprefix == (altformat || ch == 'p')
      ensures (ch == 'd' || ch == 'u' ==> base == 10) && (ch == 'x' || ch == 'p' ==> base == 16) && (ch == 'o' ==> base == 8)
    {
      match ch {
        case 'd' => base := 10;
        case 'u' => base := 10;
        case 'x' => base := 16;
        case 'p' => base := 16;
        case _ => base := 8;
      }
      if altformat || ch == 'p' {
        baseprefix := true;
      }
    }

    method PrintNum()
      requires num <= MAX_UINT64 && IsBase(base)
      modifies this`out
      ensures out == old(out) + Field(if sign then "-" else "",
                                      if baseprefix && base == 16 then "0x" else if baseprefix && base == 8 then "0" else "",
                                      Numeral(num, base), spacing, rightspc, fillchar)
    {
      var text := NumberText();
      var bprefix := if baseprefix && base == 16 then "0x" else if baseprefix && base == 8 then "0" else "";
      PrintStuff(if sign then "-" else "", bprefix, text);
    }

    method Modifier(ch: char)
      requires IsModifier(ch)
      modifies this`altformat, this`rightspc, this`size, this`spacing, this`fillchar
      ensures FlagsNow() == AfterModifier(old(FlagsNow()), ch)
    {
      match ch
      case '#' => altformat := true;
      case '-' => rightspc := true;
      case 'l' => size := if size.LongSize? then LongLongSize else LongSize;
      case '0' =>
        if spacing > 0 {
          spacing := spacing * 10;
        } else {
          fillchar := '0';
        }
      case _ => spacing := spacing * 10 + (ch as int - '0' as int);
    }

    /** A whole conversion: fetch, convert, print, reset. */
    method SendNumber(ch: char, arg: int)
      requires IsConversion(ch) && ArgOk(ch, size, arg) && !sign && !baseprefix
      modifies this
      ensures Fresh() && out == old(out) + Conversion(ch, arg, old(altformat), old(spacing), old(rightspc), old(fillchar))
      ensures Printed(out[|old(out)|..], ch, arg, old(altformat), old(spacing), old(rightspc), old(fillchar))
    {
      ghost var text := Conversion(ch, arg, altformat, spacing, rightspc, fillchar);
      ConversionIsPrinted(ch, arg, altformat, spacing, rightspc, fillchar);
      SendConverted(ch, arg);
      assert out[|old(out)|..] == text;
    }

    method SendConverted(ch: char, arg: int)
      requires IsConversion(ch) && ArgOk(ch, size, arg) && !sign && !baseprefix
      modifies this
      ensures Fresh() && out == old(out) + Conversion(ch, arg, old(altformat), old(spacing), old(rightspc), old(fillchar))
    {
      GetNum(ch, arg);
      SetBase(ch);
      PrintNum();
      EndField();
    }

    /** %s, %c and characters that are no conversion. */
    method SendText(ch: char, arg: Arg)
      requires Matches(ch, IntSize, arg) && !IsConversion(ch)
      modifies this
      ensures Fresh() && |old(out)| <= |out| && out[..|old(out)|] == old(out)
      ensures Filled(out[|old(out)|..],
                     if ch == 's' && arg.Null? then "(null)"
                     else if ch == 's' then arg.s
                     else if ch == 'c' && arg.c == '\0' then ""
                     else if ch == 'c' then [arg.c]
                     else [ch],
                     old(spacing), old(rightspc), old(fillchar))
    {
      ghost var text := Field("", "", Shown(ch, arg), spacing, rightspc, fillchar);
      FieldIsFilled(Shown(ch, arg), spacing, rightspc, fillchar);
      PrintStuff("", "", Shown(ch, arg));
      EndField();
      assert out[|old(out)|..] == text && out[..|old(out)|] == old(out);
    }

    /** One character of the format; arg is the argument a conversion takes. The text of %s
        ends where its NUL is. */
    method Send(ch: char, arg: Arg)
      requires ch != '\0' && (inPct ==> IsModifier(ch) || Matches(ch, size, arg))
      requires inPct && IsConversion(ch) ==> !sign && !baseprefix
      modifies this
      ensures !old(inPct) && ch != '%' ==> out == old(out) + [ch] && !inPct && (old(Fresh()) ==> Fresh())
      ensures !old(inPct) && ch == '%' ==> out == old(out) && inPct && FlagsNow() == old(FlagsNow())
      ensures (!old(inPct) && ch == '%') || (old(inPct) && IsModifier(ch)) ==> sign == old(sign) && baseprefix == old(baseprefix)
      ensures old(inPct) && IsConversion(ch) ==>
                Fresh() && out == old(out) + Conversion(ch, arg.n, old(altformat), old(spacing), old(rightspc), old(fillchar))
      ensures old(inPct) && IsModifier(ch) ==> out == old(out) && inPct && FlagsNow() == AfterModifier(old(FlagsNow()), ch)
      ensures |old(out)| <= |out| && out[..|old(out)|] == old(out)
      ensures old(inPct) && IsConversion(ch) ==>
                Printed(out[|old(out)|..], ch, arg.n, old(altformat), old(spacing), old(rightspc), old(fillchar))
      ensures old(inPct) && !IsConversion(ch) && !IsModifier(ch) ==>
                && Fresh()
                && Filled(out[|old(out)|..],
                          if ch == 's' && arg.Null? then "(null)"
                          else if ch == 's' then arg.s
                          else if ch == 'c' && arg.c == '\0' then ""
                          else if ch == 'c' then [arg.c]
                          else [ch],
                          old(spacing), old(rightspc), old(fillchar))
    {
      if !inPct && ch != '%' {
        Print([ch]);
      } else if !inPct {
        inPct := true;
      } else if IsModifier(ch) {
        Modifier(ch);
      } else if IsConversion(ch) {
        SendNumber(ch, arg.n);
      } else {
        SendText(ch, arg);
      }
    }
  }

  lemma FieldParts(was: string, now: string, prefix: string, prefix2: string, stuff: string, pad: string, width: int, left: bool, fill: char)
    requires |pad| == if width > |prefix| + |prefix2| + |stuff| then width - (|prefix| + |prefix2| + |stuff|) else 0
    requires pad == Repeat(fill, |pad|)
    requires now == was + (if |pad| > 0 && !left && fill != '0' then pad else "") + prefix + prefix2
                    + (if |pad| > 0 && !left && fill == '0' then pad else "") + stuff + (if |pad| > 0 && left then pad else "")
    ensures now == was + Field(prefix, prefix2, stuff, width, left, fill)
  {
  }

  lemma NumeralUnfolds(n: nat, base: nat)
    requires IsBase(base)
    ensures Numeral(n, base) == (if Quot(n, base) > 0 then Numeral(Quot(n, base), base) else "") + [DIGITS[Rem(n, base)]]
  {
  }

  // ----- Field widths -----

  /** A digit among the modifiers: part of the width, or the zero flag. */
  function AfterDigit(spacing: nat, fill: char, ch: char): (nat, char)
    requires '0' <= ch <= '9'
  {
    if ch == '0' && spacing == 0 then (0, '0') else (spacing * 10 + DigitValue(ch), fill)
  }

  function AfterModifiers(f: Flags, s: string): Flags
    requires forall i :: 0 <= i < |s| ==> IsDecimal(s[i])
  {
    if |s| == 0 then f
    else
      assert IsDecimal(s[|s| - 1]);
      AfterModifier(AfterModifiers(f, s[..|s| - 1]), s[|s| - 1])
  }

  /** The digits of a width are read as that width, and leave the other flags alone. */
  lemma {:induction false} WidthIsRead(f: Flags, s: string)
    requires (forall i :: 0 <= i < |s| ==> IsDecimal(s[i])) && (|s| > 0 ==> s[0] != '0') && f.spacing == 0
    ensures (|s| > 0 ==> Value(s, 10) > 0) && Value(s, 10) >= 0 && AfterModifiers(f, s) == f.(spacing := Value(s, 10))
  {
    if |s| > 0 {
      var h := s[..|s| - 1];
      assert |h| > 0 ==> h[0] == s[0];
      WidthIsRead(f, h);
    }
  }

  predicate AllDecimal(ds: string)
  {
    |ds| > 0 && forall k :: 0 <= k < |ds| ==> IsDecimal(ds[k])
  }

  lemma NumeralIsDecimal(n: nat)
    ensures AllDecimal(Numeral(n, 10)) && (n > 0 ==> Numeral(n, 10)[0] != '0')
  {
    NumeralShape(n, 10);
  }

  /** Send the digits of a width, one character at a time. */
  method SendWidth(p: Printer, width: nat)
    requires p.inPct && !p.sign && !p.baseprefix && p.spacing == 0 && width > 0
    modifies p
    ensures p.inPct && !p.sign && !p.baseprefix && p.out == old(p.out)
    ensures p.FlagsNow() == old(p.FlagsNow()).(spacing := width)
  {
    var digits := Numeral(width, 10);
    ghost var f := p.FlagsNow();
    NumeralIsDecimal(width);
    NumeralDenotes(width, 10);
    var i := 0;
    while i < |digits|
      invariant 0 <= i <= |digits| && p.inPct && !p.sign && !p.baseprefix && p.out == old(p.out)
      invariant p.FlagsNow() == AfterModifiers(f, digits[..i])
    {
      assert digits[..i + 1][..i] == digits[..i];
      p.Send(digits[i], Nothing);
      i := i + 1;
    }
    assert digits[..i] == digits;
    WidthIsRead(f, digits);
  }

  /** printf of one number: a %, any of the flags '#', '-' and '0', a width (0 for none), up
      to two 'l' and the conversion. A long is no bigger than an int, a long long has 64 bits
      and a pointer 32. */
  method PrintField(p: Printer, alt: bool, left: bool, zero: bool, width: nat, ls: nat, ch: char, n: int)
    requires p.Fresh() && ls <= 2 && (ch == 'd' || ch == 'u' || ch == 'x' || ch == 'o' || ch == 'p')
    requires ch == 'd' && ls < 2 ==> -0x8000_0000 <= n < 0x8000_0000
    requires ch == 'd' && ls == 2 ==> -0x8000_0000_0000_0000 <= n < 0x8000_0000_0000_0000
    requires ch != 'd' && (ls < 2 || ch == 'p') ==> 0 <= n <= 0xffff_ffff
    requires ch != 'd' && ls == 2 && ch != 'p' ==> 0 <= n <= 0xffff_ffff_ffff_ffff
    modifies p
    ensures p.Fresh() && |old(p.out)| <= |p.out| && p.out[..|old(p.out)|] == old(p.out)
    ensures Printed(p.out[|old(p.out)|..], ch, n, alt, width, left, if zero then '0' else ' ')
  {
    SendFlags(p, alt, left, zero);
    if width > 0 {
      SendWidth(p, width);
    }
    SendSize(p, ls);
    assert p.FlagsNow() == Flags(alt, left, if ls == 0 then IntSize else if ls == 1 then LongSize else LongLongSize, width, if zero then '0' else ' ');
    p.Send(ch, Number(n));
  }

  method SendFlags(p: Printer, alt: bool, left: bool, zero: bool)
    requires p.Fresh()
    modifies p
    ensures p.inPct && !p.sign && !p.baseprefix && p.out == old(p.out)
    ensures p.FlagsNow() == Flags(alt, left, IntSize, 0, if zero then '0' else ' ')
  {
    p.Send('%', Nothing);
    if alt {
      p.Send('#', Nothing);
    }
    if left {
      p.Send('-', Nothing);
    }
    if zero {
      p.Send('0', Nothing);
    }
  }

  method SendSize(p: Printer, ls: nat)
    requires p.inPct && !p.sign && !p.baseprefix && p.size == IntSize && ls <= 2
    modifies p
    ensures p.inPct && !p.sign && !p.baseprefix && p.out == old(p.out)
    ensures p.FlagsNow() == old(p.FlagsNow()).(size := if ls == 0 then IntSize else if ls == 1 then LongSize else LongLongSize)
  {
    if ls > 0 {
      p.Send('l', Nothing);
    }
    if ls > 1 {
      p.Send('l', Nothing);
    }
  }

  // ----- atoi of what %d prints -----

  ghost predicate AllBlank(s: string)
  {
    forall k :: 0 <= k < |s| ==> s[k] == ' ' || s[k] == '\t'
  }

  predicate NoDecimal(tail: string)
  {
    |tail| > 0 ==> !IsDecimal(tail[0])
  }

  lemma SpaceEnds(blanks: string, rest: string)
    requires AllBlank(blanks) && (|rest| > 0 ==> !IsSpace(rest[0]))
    ensures AfterSpace(blanks + rest) == |blanks| && (blanks + rest)[|blanks|..] == rest
  {
    var s := blanks + rest;
    assert |rest| > 0 ==> s[|blanks|] == rest[0];
    assert forall k :: 0 <= k < |blanks| ==> s[k] == blanks[k];
  }

  lemma LeadingIs(ds: string, tail: string)
    requires (forall k :: 0 <= k < |ds| ==> IsDecimal(ds[k])) && NoDecimal(tail)
    ensures LeadingNumber(ds + tail) == Value(ds, 10)
  {
    var s := ds + tail;
    assert forall k :: 0 <= k < |ds| ==> s[k] == ds[k];
    assert |tail| > 0 ==> s[|ds|] == tail[0];
    assert s[..|ds|] == ds;
  }

  /** The text does not begin with a sign or a blank. */
  predicate Plain(u: string)
  {
    |u| > 0 ==> !IsSpace(u[0]) && u[0] != '-' && u[0] != '+'
  }

  predicate IsSign(sign: string)
  {
    |sign| == 0 || (|sign| == 1 && (sign[0] == '-' || sign[0] == '+'))
  }

  predicate Negates(sign: string)
  {
    |sign| == 1 && sign[0] == '-'
  }

  lemma SignedIs(sign: string, u: string)
    requires IsSign(sign) && (|sign| == 0 ==> Plain(u))
    ensures SignedNumber(sign + u) == Finished(Negates(sign), LeadingNumber(u))
    ensures |sign + u| > 0 ==> !IsSpace((sign + u)[0])
  {
    var t := sign + u;
    assert (if |sign| == 0 then t else t[1..]) == u;
  }

  /** The int that differs from the number by whole words. */
  ghost predicate WrapsTo(x: int, r: int)
  {
    -0x8000_0000 <= r <= 0x7fff_ffff && exists k :: r == WholeWords(x, k)
  }

  function WholeWords(x: int, k: int): int
  {
    x + k * 0x1_0000_0000
  }

  lemma FinishedWraps(neg: bool, v: int)
    ensures WrapsTo(if neg then -v else v, Finished(neg, v))
  {
    var r, x := Finished(neg, v), if neg then -v else v;
    assert x == x / WORD * WORD + x % WORD;
    assert r == WholeWords(x, (if x % WORD == r then 0 else -1) - x / WORD);
  }

  /** What atoi makes of any blanks, a sign or none, digits or none, and anything after them
      that is no digit: the number, taken into 32 bits. */
  lemma MeaningIs(blanks: string, sign: string, ds: string, tail: string)
    requires AllBlank(blanks) && IsSign(sign) && NoDecimal(tail)
    requires (forall k :: 0 <= k < |ds| ==> '0' <= ds[k] <= '9') && (|sign| == |ds| == 0 ==> Plain(tail))
    ensures Meaning(blanks + sign + ds + tail) == Finished(Negates(sign), Value(ds, 10))
    ensures WrapsTo(if |sign| == 1 && sign[0] == '-' then -Value(ds, 10) else Value(ds, 10), Meaning(blanks + sign + ds + tail))
  {
    FinishedWraps(Negates(sign), Value(ds, 10));
    SignedMeaning(blanks, sign, ds, tail);
    Regrouped(blanks, sign, ds, tail);
    SameMeaning(blanks + sign + ds + tail, blanks + (sign + (ds + tail)));
  }

  lemma SameMeaning(s: string, t: string)
    requires s == t
    ensures Meaning(s) == Meaning(t)
  {
  }

  lemma SignedMeaning(blanks: string, sign: string, ds: string, tail: string)
    requires AllBlank(blanks) && IsSign(sign) && NoDecimal(tail)
    requires (forall k :: 0 <= k < |ds| ==> IsDecimal(ds[k])) && (|sign| == |ds| == 0 ==> Plain(tail))
    ensures Meaning(blanks + (sign + (ds + tail))) == Finished(Negates(sign), Value(ds, 10))
  {
    LeadingIs(ds, tail);
    if |sign| == 0 {
      OpensPlain(ds, tail);
    }
    SignedIs(sign, ds + tail);
    MeaningSkips(blanks, sign + (ds + tail));
  }

  lemma MeaningSkips(blanks: string, rest: string)
    requires AllBlank(blanks) && (|rest| > 0 ==> !IsSpace(rest[0]))
    ensures Meaning(blanks + rest) == SignedNumber(rest)
  {
    SpaceEnds(blanks, rest);
  }

  lemma OpensPlain(ds: string, tail: string)
    requires (forall k :: 0 <= k < |ds| ==> IsDecimal(ds[k])) && (|ds| == 0 ==> Plain(tail))
    ensures Plain(ds + tail)
  {
    if |ds| == 0 {
      assert ds + tail == tail;
    } else {
      assert (ds + tail)[0] == ds[0];
    }
  }

  lemma Regrouped(a: string, b: string, c: string, d: string)
    ensures a + b + c + d == a + (b + (c + d))
  {
  }

  /** Signed ints survive the trip through a 32-bit word. */
  lemma WordTrip(n: int)
    requires -0x8000_0000 <= n < 0x8000_0000
    ensures AsInt(n % WORD) == n
  {
  }

  /** Zeros put behind the digits multiply the number. */
  lemma TrailingZeros(num: string, k: nat)
    requires AllDecimal(num)
    ensures AllDecimal(num + Repeat('0', k)) && Value(num + Repeat('0', k), 10) == Value(num, 10) * Pow(10, k)
  {
    ValueConcat(num, Repeat('0', k), 10);
    ValueOfZeros(k, 10);
  }

  lemma LeadingZeros(num: string, k: nat)
    requires AllDecimal(num)
    ensures AllDecimal(Repeat('0', k) + num) && Value(Repeat('0', k) + num, 10) == Value(num, 10)
  {
    ValueConcat(Repeat('0', k), num, 10);
    ValueOfZeros(k, 10);
  }

  /** The number that a field with digits num means. */
  function FieldMeaning(neg: bool, num: string, width: int, left: bool, fill: char): int
  {
    Meaning(Field(if neg then "-" else "", "", num, width, left, fill))
  }

  function Padding(neg: bool, num: string, width: int): nat
  {
    var len := (if neg then 1 else 0) + |num|;
    if width > len then width - len else 0
  }

  lemma FilledLeft(neg: bool, num: string, width: int, fill: char)
    requires AllDecimal(num) && (fill == ' ' || fill == '0')
    ensures FieldMeaning(neg, num, width, false, fill) == Finished(neg, Value(num, 10))
  {
    var k, sign := Padding(neg, num, width), if neg then "-" else "";
    var s := Field(sign, "", num, width, false, fill);
    if fill == '0' {
      assert s == Repeat(' ', 0) + sign + (Repeat('0', k) + num) + "";
      LeadingZeros(num, k);
      MeaningIs(Repeat(' ', 0), sign, Repeat('0', k) + num, "");
    } else {
      assert s == Repeat(' ', k) + sign + num + "";
      MeaningIs(Repeat(' ', k), sign, num, "");
    }
  }

  lemma FilledRight(neg: bool, num: string, width: int, fill: char)
    requires AllDecimal(num) && (fill == ' ' || fill == '0')
    ensures FieldMeaning(neg, num, width, true, fill) ==
            Finished(neg, if fill == '0' then Value(num, 10) * Pow(10, Padding(neg, num, width)) else Value(num, 10))
  {
    var k, sign := Padding(neg, num, width), if neg then "-" else "";
    var s := Field(sign, "", num, width, true, fill);
    if fill == '0' {
      assert s == Repeat(' ', 0) + sign + (num + Repeat('0', k)) + "";
      TrailingZeros(num, k);
      MeaningIs(Repeat(' ', 0), sign, num + Repeat('0', k), "");
    } else {
      assert s == Repeat(' ', 0) + sign + num + Repeat(' ', k);
      MeaningIs(Repeat(' ', 0), sign, num, Repeat(' ', k));
    }
  }

  // ----- The combination of '-' and '0' -----

  /** An odd factor does not help a number be divisible by a power of two. */
  lemma {:induction false} OddFactor(m: int, o: int, e: nat, t: int) returns (s: int)
    requires o % 2 == 1 && m * o == Pow(2, e) * t
    ensures m == Pow(2, e) * s
    decreases e
  {
    if e == 0 {
      s := m;
    } else {
      var P := Pow(2, e - 1);
      Halve(m, o, P, t);
      s := OddFactor(m / 2, o, e - 1, t);
      Double(m, P, s);
    }
  }

  lemma Double(m: int, P: int, s: int)
    requires m == 2 * (m / 2) && m / 2 == P * s
    ensures m == (2 * P) * s
  {
    MulAssoc(2, P, s);
  }

  lemma Halve(m: int, o: int, P: int, t: int)
    requires o % 2 == 1 && m * o == (2 * P) * t
    ensures m == 2 * (m / 2) && m / 2 * o == P * t
  {
    MulAssoc(2, P, t);
    EvenProduct(m, o, P * t);
    MulAssoc(2, m / 2, o);
  }

  lemma EvenProduct(m: int, o: int, x: int)
    requires o % 2 == 1 && m * o == 2 * x
    ensures m % 2 == 0
  {
    var h, g := m / 2, o / 2;
    assert m == 2 * h + m % 2 && o == 2 * g + 1;
    if m % 2 == 1 {
      MulDistr(2 * h, 1, o);
      MulAssoc(2, h, o);
      OddIsNotEven(h * o + g, x);
    }
  }

  lemma OddIsNotEven(y: int, x: int)
    ensures 2 * y + 1 != 2 * x
  {
  }

  lemma {:induction false} TenToIsEven(k: nat)
    requires k > 0
    ensures Pow(10, k) % 2 == 0 && Pow(10, k) > 0
  {
    MulAssoc(2, 5, Pow(10, k - 1));
    EvenTwice(5 * Pow(10, k - 1));
  }

  lemma EvenTwice(x: int)
    ensures (2 * x) % 2 == 0
  {
  }

  lemma TwoTo32()
    ensures Pow(2, 32) == WORD
  {
    assert Pow(2, 4) == 16;
    PowAdd(2, 4, 4);
    PowAdd(2, 8, 8);
    PowAdd(2, 16, 16);
  }

  /** Multiplied by a power of ten, no nonzero int means itself again. */
  lemma ScaledIsDifferent(n: int, k: nat)
    requires -0x8000_0000 <= n < 0x8000_0000 && k > 0 && AsInt((n * Pow(10, k)) % WORD) == n
    ensures n == 0
  {
    var x, p := n * Pow(10, k), Pow(10, k);
    var t := Wraps(x, n);
    TenToIsEven(k);
    Factored(n, p, t);
    TwoTo32();
    var s := OddFactor(n, p - 1, 32, t);
    assert n == WORD * s;
  }

  /** Ints that are the same word differ by whole words. */
  lemma Wraps(x: int, n: int) returns (t: int)
    requires -0x8000_0000 <= n < 0x8000_0000 && AsInt(x % WORD) == n
    ensures x - n == t * WORD
  {
    var q := x / WORD;
    assert x == q * WORD + x % WORD;
    t := if n == x % WORD then q else q + 1;
  }

  lemma Factored(n: int, p: int, t: int)
    requires n * p - n == t * WORD
    ensures n * (p - 1) == WORD * t
  {
  }

  /** atoi of what %d prints is the number itself, at any width, with any flags -- except
      when '-' and '0' together put zeros behind a number that is not zero. */
  lemma RoundTrip(n: int, width: int, left: bool, zero: bool)
    requires -0x8000_0000 <= n < 0x8000_0000
    ensures var fill, m := if zero then '0' else ' ', if n < 0 then -n else n;
            Meaning(Conversion('d', n, false, width, left, fill)) == n
            <==> !left || !zero || width <= (if n < 0 then 1 else 0) + |Numeral(m, 10)| || n == 0
  {
    var fill := if zero then '0' else ' ';
    var m: nat := if n < 0 then -n else n;
    NumeralIsDecimal(m);
    NumeralDenotes(m, 10);
    WordTrip(n);
    RoundTripText(n, m, Numeral(m, 10), width, left, fill);
  }

  lemma RoundTripText(n: int, m: nat, num: string, width: int, left: bool, fill: char)
    requires -0x8000_0000 <= n < 0x8000_0000 && m == (if n < 0 then -n else n) && (fill == ' ' || fill == '0')
    requires AllDecimal(num) && Value(num, 10) == m
    ensures FieldMeaning(n < 0, num, width, left, fill) == n
            <==> !left || fill != '0' || width <= (if n < 0 then 1 else 0) + |num| || n == 0
  {
    var k := Padding(n < 0, num, width);
    FinishedIs(n, m);
    if !left {
      FilledLeft(n < 0, num, width, fill);
    } else {
      FilledRight(n < 0, num, width, fill);
      ScaledMeaning(n, m, k);
    }
  }

  lemma FinishedIs(n: int, m: nat)
    requires -0x8000_0000 <= n < 0x8000_0000 && m == if n < 0 then -n else n
    ensures Finished(n < 0, m) == n
  {
    WordTrip(n);
  }

  lemma ScaledMeaning(n: int, m: nat, k: nat)
    requires -0x8000_0000 <= n < 0x8000_0000 && m == if n < 0 then -n else n
    ensures Finished(n < 0, m * Pow(10, k)) == n <==> k == 0 || n == 0
  {
    SignedScale(n, m, Pow(10, k));
    WordTrip(n);
    if k > 0 && AsInt((n * Pow(10, k)) % WORD) == n {
      ScaledIsDifferent(n, k);
    }
  }

  lemma SignedScale(n: int, m: nat, p: nat)
    requires m == if n < 0 then -n else n
    ensures (if n < 0 then -(m * p) else m * p) == n * p
    ensures n == 0 ==> n * p == 0
    ensures p == 1 ==> n * p == n
  {
  }
}
