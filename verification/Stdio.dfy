/**
 The C library's formatted output (apps/nimbos/c/lib/stdio.c) with `f` equal to stdout
 and a `write` that takes everything it is given.
 */
module Stdio {
  import opened Numerals
  import opened CString

  const LINE_WIDTH := 256
  const TWO63 := 0x8000_0000_0000_0000
  const TWO64 := 0x1_0000_0000_0000_0000

  // -------------------------------------------------------- the line buffer

  /** What `write` has been given, and what is still in the line buffer. */
  datatype Output = Output(written: string, pending: string)

  function EmitChar(v: Output, c: char): Output {
    if |v.pending| + 1 == LINE_WIDTH || c == '\n' then Output(v.written + v.pending + [c], [])
    else Output(v.written, v.pending + [c])
  }

  function Emit(v: Output, s: string): Output {
    if s == [] then v else EmitChar(Emit(v, s[..|s| - 1]), s[|s| - 1])
  }

  predicate Tidy(v: Output) {
    |v.pending| < LINE_WIDTH && '\n' !in v.pending
  }

  /** No character is lost, added or reordered, and the buffer is left short and without a newline. */
  lemma {:induction false} EmitConserves(v: Output, s: string)
    requires Tidy(v)
    ensures Emit(v, s).written + Emit(v, s).pending == v.written + v.pending + s
    ensures Tidy(Emit(v, s))
  {
    if s != [] {
      var front, last := s[..|s| - 1], s[|s| - 1];
      EmitConserves(v, front);
      assert s == front + [last];
      var w := Emit(v, front);
      assert EmitChar(w, last).written + EmitChar(w, last).pending == w.written + w.pending + [last];
      assert v.written + v.pending + s == v.written + v.pending + front + [last];
    }
  }

  /** How the output is cut into calls does not matter. */
  lemma {:induction false} EmitConcat(v: Output, s: string, t: string)
    ensures Emit(v, s + t) == Emit(Emit(v, s), t)
  {
    if t == [] {
      assert s + t == s;
    } else {
      var u := s + t;
      assert u[..|u| - 1] == s + t[..|t| - 1];
      EmitConcat(v, s, t[..|t| - 1]);
    }
  }

  /** How many of `n` characters fill whole lines. */
  function WholeLines(n: nat): (m: nat)
    ensures m <= n < m + LINE_WIDTH && m % LINE_WIDTH == 0
  {
    n / LINE_WIDTH * LINE_WIDTH
  }

  lemma NextLine(n: nat)
    ensures WholeLines(n + 1) == if n + 1 == WholeLines(n) + LINE_WIDTH then n + 1 else WholeLines(n)
  {
  }

  lemma EmitOne(w: Output, c: char, text: string, lines: nat)
    requires c != '\n' && lines <= |text| < lines + LINE_WIDTH && w.pending == text[lines..]
    ensures EmitChar(w, c).pending == (text + [c])[if |text| + 1 == lines + LINE_WIDTH then |text| + 1 else lines..]
  {
  }

  /** Text without a newline stays pending except for whole lines of 256 characters. */
  lemma {:induction false} EmitPlain(v: Output, s: string, text: string)
    requires Tidy(v) && '\n' !in s && text == v.pending + s
    ensures Emit(v, s).pending == text[WholeLines(|text|)..]
    decreases |s|
  {
    if s == [] {
      assert text == v.pending;
    } else {
      var front, c := s[..|s| - 1], s[|s| - 1];
      LastOfText(v.pending, s, text);
      EmitPlain(v, front, text[..|text| - 1]);
      NextLine(|text| - 1);
      EmitOne(Emit(v, front), c, text[..|text| - 1], WholeLines(|text| - 1));
    }
  }

  lemma LastOfText(pending: string, s: string, text: string)
    requires s != [] && text == pending + s
    ensures text[..|text| - 1] == pending + s[..|s| - 1] && text == text[..|text| - 1] + [s[|s| - 1]]
  {
  }

  lemma NewlineFlushes(v: Output, s: string)
    ensures Emit(v, s + ['\n']).pending == []
  {
    assert (s + ['\n'])[..|s|] == s;
  }

  lemma NothingBefore(t: string)
    ensures [] + t == t
  {
  }

  /** After a newline only what follows it can be pending. */
  lemma EmitLine(v: Output, s: string, t: string)
    requires '\n' !in t
    ensures Emit(v, s + ['\n'] + t).pending == t[WholeLines(|t|)..]
  {
    var line := s + ['\n'];
    EmitConcat(v, line, t);
    NewlineFlushes(v, s);
    NothingBefore(t);
    EmitPlain(Emit(v, line), t, t);
  }

  // --------------------------------------------------------------- numbers

  /** What `printint` prints: `value` is a signed 64-bit number, read as unsigned when `sign` is false. */
  function IntText(value: int, base: nat, sign: bool): string
    requires 2 <= base <= 16 && -TWO63 <= value < TWO63
  {
    if sign && value < 0 then "-" + Digits(-value, base) else Digits(value % TWO64, base)
  }

  /** `s` is the numeral of `v`, after a minus sign exactly when `v` is negative. */
  predicate IsSigned(s: string, v: int, base: nat) {
    if v < 0 then s != [] && s[0] == '-' && IsNumeral(s[1..], -v, base) else IsNumeral(s, v, base)
  }

  /** The text of a number denotes it, or as an unsigned 64-bit number when it is taken so. */
  lemma IntTextDenotes(value: int, base: nat, sign: bool)
    requires 2 <= base <= 16 && -TWO63 <= value < TWO63
    ensures IsSigned(IntText(value, base, sign), if sign then value else value % TWO64, base)
  {
    if sign && value < 0 {
      SignedText(-value, base);
    } else {
      SignedText(value % TWO64, base);
    }
  }

  lemma SignedText(x: nat, base: nat)
    requires 2 <= base <= 16
    ensures IsSigned(Digits(x, base), x, base) && (x > 0 ==> IsSigned("-" + Digits(x, base), 0 - x, base))
  {
    DigitsAreNumeral(x, base);
    assert ("-" + Digits(x, base))[1..] == Digits(x, base);
  }

  /** A signed decimal text, read by `atoi`, denotes the number. */
  lemma SignedDenotes(s: string, v: int)
    requires IsSigned(s, v, 10)
    ensures IsCString(s + "\0") && Denoted(s + "\0") == v
  {
    if v < 0 {
      NumeralDenotes("-", s[1..], -v);
      MinusText(s);
    } else {
      NumeralDenotes("", s, v);
      MinusText(s);
    }
  }

  lemma MinusText(s: string)
    ensures s != [] && s[0] == '-' ==> "-" + s[1..] == s
    ensures "" + s == s
  {
  }

  lemma NumeralDenotes(sign: string, digits: string, x: nat)
    requires (sign == "" || sign == "-") && IsNumeral(digits, x, 10)
    ensures var text := sign + digits + "\0";
            IsCString(text) && Denoted(text) == if sign == "-" then 0 - x else x
  {
    forall i | 0 <= i < |digits| ensures '0' <= digits[i] <= '9' {
      DecimalDigit(digits[i]);
    }
    NumeralText(sign, digits);
    PartsDenote(sign + digits + "\0", "", sign, digits, "\0");
  }

  lemma DecimalDigit(c: char)
    requires c in DIGITS && DigitValue(c) < 10
    ensures '0' <= c <= '9'
  {
  }

  lemma NumeralText(sign: string, digits: string)
    requires sign == "" || sign == "-"
    requires forall i :: 0 <= i < |digits| ==> '0' <= digits[i] <= '9'
    ensures IsCString(sign + digits + "\0") && "" + sign + digits + "\0" == sign + digits + "\0"
  {
  }

  /** What `printint` prints in decimal for an `int`, read back by `atoi`, is the same `int`. */
  lemma AtoiUndoesPrintInt(v: int)
    requires INT_MIN <= v <= INT_MAX
    ensures var text := IntText(v, 10, true) + "\0";
            IsCString(text) && Fit(Denoted(text)) == Defined(v)
  {
    IntTextDenotes(v, 10, true);
    SignedDenotes(IntText(v, 10, true), v);
  }

  /** What `printptr` prints: sixteen hexadecimal digits. */
  function PtrText(value: nat): string
    requires value < TWO64
  {
    PowersOfSixteen();
    "0x" + HexText(value, 16)
  }

  lemma PtrTextDenotes(value: nat)
    requires value < TWO64
    ensures |PtrText(value)| == 18 && Value(PtrText(value)[2..], 16) == value
    ensures forall j :: 2 <= j < 18 ==> PtrText(value)[j] in DIGITS
  {
    PowersOfSixteen();
    HexTextDenotes(value, 16);
    HexTextDigits(value, 16);
    assert PtrText(value)[2..] == HexText(value, 16);
  }

  /** `text` holds the last digits of `value`; those of `x` are to come, in front of it, above `reserve`. */
  ghost predicate DigitsLeft(value: nat, base: nat, reserve: nat, i: nat, x: nat, text: string)
    requires 10 <= base <= 16
  {
    reserve <= i && x < Pow(10, i - reserve) && Digits(value, base) == Leading(x, base) + text
  }

  lemma FirstDigitLeft(value: nat, base: nat, reserve: nat)
    requires 10 <= base <= 16 && reserve < 20 && value < Pow(10, 20 - reserve)
    ensures DigitsLeft(value, base, reserve, 19, Left(value, base), [Printed(value, base)] + [])
  {
    DigitStep(value, base, 20 - reserve);
    assert [Printed(value, base)] + [] == [Printed(value, base)];
  }

  lemma NextDigitLeft(value: nat, base: nat, reserve: nat, i: nat, x: nat, text: string)
    requires 10 <= base <= 16 && x > 0 && DigitsLeft(value, base, reserve, i, x, text)
    ensures i > 0 && Left(x, base) < x
    ensures DigitsLeft(value, base, reserve, i - 1, Left(x, base), [Printed(x, base)] + text)
  {
    DigitStep(x, base, i - reserve);
    assert Leading(Left(x, base), base) + [Printed(x, base)] + text
        == Leading(Left(x, base), base) + ([Printed(x, base)] + text);
  }

  /**
   The digit loop of `printint`, filling the 20-character buffer from its end.  The index stays at
   or above `reserve` because each division removes a decimal digit.
   */
  method FillDigits(buf: array<char>, value: nat, base: nat, reserve: nat) returns (i: nat)
    requires buf.Length == 21 && 10 <= base <= 16 && reserve < 20 && value < Pow(10, 20 - reserve)
    modifies buf
    ensures reserve <= i < 20 && buf[i..20] == Digits(value, base)
  {
    i := 20;
    i := PutDigit(buf, i, Printed(value, base), []);
    var x: nat := Left(value, base);
    FirstDigitLeft(value, base, reserve);
    ghost var text := [Printed(value, base)] + [];
    while x != 0
      invariant i < 20 && buf[i..20] == text && DigitsLeft(value, base, reserve, i, x, text)
      decreases x
    {
      NextDigitLeft(value, base, reserve, i, x, text);
      i := PutDigit(buf, i, Printed(x, base), text);
      text := [Printed(x, base)] + text;
      x := Left(x, base);
    }
    assert [] + text == text;
  }

  /** One more digit in front of those in the buffer. */
  method PutDigit(buf: array<char>, i: nat, c: char, ghost text: string) returns (i': nat)
    requires buf.Length == 21 && 0 < i <= 20 && buf[i..20] == text
    modifies buf
    ensures i' == i - 1 && buf[i'..20] == [c] + text
  {
    i' := i - 1;
    buf[i'] := c;
  }

  /** The loop of `printptr`: the leading digit is read and shifted out sixteen times. */
  method HexDigits(value: nat) returns (buf: string)
    requires value < TWO64
    ensures buf == PtrText(value)
  {
    PowersOfSixteen();
    buf := "0x";
    var cur: nat := value;
    ghost var tail := HexText(value, 16);
    assert StillToPrint(tail, 16, cur);
    for j := 0 to 16
      invariant StillToPrint(tail, 16 - j, cur)
      invariant buf + tail == PtrText(value)
    {
      tail := HexStep(tail, 16 - j, cur);
      buf := buf + [DigitChar(cur / 0x1000_0000_0000_0000)];
      cur := cur * 16 % TWO64;
    }
    assert tail == [];
  }

  class Stdout {
    const buffer: array<char>
    var bufferLen: nat
    var written: string

    ghost predicate Valid()
      reads this, buffer
    {
      buffer.Length == LINE_WIDTH && bufferLen < LINE_WIDTH && '\n' !in buffer[..bufferLen]
    }

    ghost function View(): Output
      requires Valid()
      reads this, buffer
    {
      Output(written, buffer[..bufferLen])
    }

    constructor ()
      ensures Valid() && View() == Output([], []) && fresh(buffer)
    {
      buffer := new char[LINE_WIDTH](_ => '\0');
      bufferLen, written := 0, [];
    }

    /** `out`: appends `s`; the result counts the characters handed to `write`. */
    method Out(s: string) returns (ret: nat)
      requires Valid()
      modifies this, buffer
      ensures Valid() && View() == Emit(old(View()), s)
      ensures ret == |written| - |old(written)|
    {
      ghost var v := View();
      ret := 0;
      for i := 0 to |s|
        invariant Valid() && View() == Emit(v, s[..i])
        invariant ret == |written| - |v.written|
      {
        assert s[..i + 1][..i] == s[..i];
        var c := s[i];
        buffer[bufferLen] := c;
        bufferLen := bufferLen + 1;
        assert buffer[..bufferLen] == buffer[..bufferLen - 1] + [c];
        if bufferLen == LINE_WIDTH || c == '\n' {
          var r := bufferLen;
          written := written + buffer[..bufferLen];
          bufferLen := 0;
          ret := ret + r;
        }
      }
      assert s[..|s|] == s;
    }

    method PutChar(c: char)
      requires Valid()
      modifies this, buffer
      ensures Valid() && View() == Emit(old(View()), [c])
    {
      var _ := Out([c]);
    }

    /** `printint`: for every 64-bit value the 20-character buffer is large enough, sign included. */
    method PrintInt(value: int, base: nat, sign: bool)
      requires Valid() && 10 <= base <= 16 && -TWO63 <= value < TWO63
      modifies this, buffer
      ensures Valid() && View() == Emit(old(View()), IntText(value, base, sign))
    {
      var neg := sign && value < 0;
      var x := if neg then -value else value % TWO64;
      var buf := new char[21](_ => '\0');
      PowersOfTen();
      var i := FillDigits(buf, x, base, if neg then 1 else 0);
      if neg {
        ghost var digits := buf[i..20];
        i := i - 1;
        buf[i] := '-';
        assert buf[i..20] == "-" + digits;
      }
      var _ := Out(buf[i..20]);
    }

    /** `printptr` */
    method PrintPtr(value: nat)
      requires Valid() && value < TWO64
      modifies this, buffer
      ensures Valid() && View() == Emit(old(View()), PtrText(value))
    {
      var text := HexDigits(value);
      var _ := Out(text);
    }
  }
}
