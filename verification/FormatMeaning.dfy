/**
 What each conversion of `fprintf` prints, said of the text itself: its numeral, its characters, or the
 sequence as it stands.  A format is read at position `i`; what follows is rendered after it.
 */
module FormatMeaning {
  import opened Numerals
  import opened CString
  import opened Stdio
  import opened Format

  /** The format has `text` at position `i`. */
  predicate At(fmt: string, i: nat, text: string) {
    IsCString(fmt) && i + |text| < |fmt| && fmt[i..i + |text|] == text
  }

  lemma CharsAt(fmt: string, i: nat, text: string, j: nat)
    requires At(fmt, i, text) && j < |text|
    ensures fmt[i + j] == text[j]
  {
    assert fmt[i..i + |text|][j] == fmt[i + j];
  }

  lemma TwoAt(fmt: string, i: nat, c: char)
    requires At(fmt, i, ['%', c])
    ensures fmt[i] == '%' && fmt[i + 1] == c
  {
    CharsAt(fmt, i, ['%', c], 0);
    CharsAt(fmt, i, ['%', c], 1);
  }

  lemma ThreeAt(fmt: string, i: nat, c: char)
    requires At(fmt, i, ['%', 'l', c])
    ensures fmt[i] == '%' && fmt[i + 1] == 'l' && fmt[i + 2] == c
  {
    CharsAt(fmt, i, ['%', 'l', c], 0);
    CharsAt(fmt, i, ['%', 'l', c], 1);
    CharsAt(fmt, i, ['%', 'l', c], 2);
  }

  /** From `i`, `text` is printed for the first argument, and then what follows position `next`. */
  ghost predicate Shows(fmt: string, i: nat, args: seq<Arg>, text: string, next: nat) {
    && args != [] && IsCString(fmt) && i < |fmt| && next < |fmt|
    && ArgsFit(fmt, i, args) && ArgsFit(fmt, next, args[1..])
    && Render(fmt, i, args) == text + Render(fmt, next, args[1..])
  }

  /** From `i`, `text` is printed without an argument, and then what follows position `next`. */
  ghost predicate Copies(fmt: string, i: nat, args: seq<Arg>, text: string, next: nat) {
    && IsCString(fmt) && i < |fmt| && next < |fmt|
    && ArgsFit(fmt, i, args) && ArgsFit(fmt, next, args)
    && Render(fmt, i, args) == text + Render(fmt, next, args)
  }

  /** A conversion that takes an argument prints its text. */
  lemma ShowsConv(fmt: string, i: nat, args: seq<Arg>, conv: Conversion, n: nat)
    requires IsCString(fmt) && i < |fmt| && fmt[i] == '%' && fmt[i + 1] != '%' && fmt[i + 1] != '\0'
    requires Conv(fmt, i) == (conv, n) && !conv.Verbatim?
    requires args != [] && Accepts(conv, args[0]) && ArgsFit(fmt, i + n, args[1..])
    ensures Shows(fmt, i, args, ArgText(conv, args[0]), i + n)
  {
  }

  lemma LongConvs(fmt: string, i: nat)
    requires IsCString(fmt) && i < |fmt| && fmt[i] == '%' && fmt[i + 1] == 'l' && i + 2 < |fmt|
    ensures fmt[i + 2] == 'u' ==> Conv(fmt, i) == (LongConv(10, false), 3)
    ensures fmt[i + 2] == 'd' ==> Conv(fmt, i) == (LongConv(10, true), 3)
    ensures fmt[i + 2] == 'x' ==> Conv(fmt, i) == (LongConv(16, true), 3)
  {
  }

  // --------------------------------------------------------------- int, long

  /** `%d`: the decimal numeral, with a minus sign for a negative number; `atoi` reads it back. */
  lemma DecimalInt(fmt: string, i: nat, args: seq<Arg>, v: int) returns (text: string)
    requires At(fmt, i, "%d") && args != [] && args[0] == Int(v) && INT_MIN <= v <= INT_MAX
    requires ArgsFit(fmt, i + 2, args[1..])
    ensures Shows(fmt, i, args, text, i + 2) && IsSigned(text, v, 10)
    ensures IsCString(text + "\0") && Denoted(text + "\0") == v
  {
    TwoAt(fmt, i, 'd');
    ShowsConv(fmt, i, args, IntConv(10, true), 2);
    text := IntText(v, 10, true);
    IntTextDenotes(v, 10, true);
    SignedDenotes(text, v);
  }

  /** `%u`: the decimal numeral of the number taken modulo 2^64. */
  lemma UnsignedInt(fmt: string, i: nat, args: seq<Arg>, v: int) returns (text: string)
    requires At(fmt, i, "%u") && args != [] && args[0] == Int(v) && INT_MIN <= v <= INT_MAX
    requires ArgsFit(fmt, i + 2, args[1..])
    ensures Shows(fmt, i, args, text, i + 2) && IsNumeral(text, v % TWO64, 10)
  {
    TwoAt(fmt, i, 'u');
    ShowsConv(fmt, i, args, IntConv(10, false), 2);
    text := IntText(v, 10, false);
    IntTextDenotes(v, 10, false);
  }

  /** `%x`: the hexadecimal numeral, with a minus sign for a negative number. */
  lemma HexInt(fmt: string, i: nat, args: seq<Arg>, v: int) returns (text: string)
    requires At(fmt, i, "%x") && args != [] && args[0] == Int(v) && INT_MIN <= v <= INT_MAX
    requires ArgsFit(fmt, i + 2, args[1..])
    ensures Shows(fmt, i, args, text, i + 2) && IsSigned(text, v, 16)
  {
    TwoAt(fmt, i, 'x');
    ShowsConv(fmt, i, args, IntConv(16, true), 2);
    text := IntText(v, 16, true);
    IntTextDenotes(v, 16, true);
  }

  /** `%ld` */
  lemma DecimalLong(fmt: string, i: nat, args: seq<Arg>, v: int) returns (text: string)
    requires At(fmt, i, "%ld") && args != [] && args[0] == Long(v) && -TWO63 <= v < TWO63
    requires ArgsFit(fmt, i + 3, args[1..])
    ensures Shows(fmt, i, args, text, i + 3) && IsSigned(text, v, 10)
    ensures IsCString(text + "\0") && Denoted(text + "\0") == v
  {
    ThreeAt(fmt, i, 'd');
    LongConvs(fmt, i);
    ShowsConv(fmt, i, args, LongConv(10, true), 3);
    text := IntText(v, 10, true);
    IntTextDenotes(v, 10, true);
    SignedDenotes(text, v);
  }

  /** `%lu` */
  lemma UnsignedLong(fmt: string, i: nat, args: seq<Arg>, v: int) returns (text: string)
    requires At(fmt, i, "%lu") && args != [] && args[0] == Long(v) && -TWO63 <= v < TWO63
    requires ArgsFit(fmt, i + 3, args[1..])
    ensures Shows(fmt, i, args, text, i + 3) && IsNumeral(text, v % TWO64, 10)
  {
    ThreeAt(fmt, i, 'u');
    LongConvs(fmt, i);
    ShowsConv(fmt, i, args, LongConv(10, false), 3);
    text := IntText(v, 10, false);
    IntTextDenotes(v, 10, false);
  }

  /** `%lx` */
  lemma HexLong(fmt: string, i: nat, args: seq<Arg>, v: int) returns (text: string)
    requires At(fmt, i, "%lx") && args != [] && args[0] == Long(v) && -TWO63 <= v < TWO63
    requires ArgsFit(fmt, i + 3, args[1..])
    ensures Shows(fmt, i, args, text, i + 3) && IsSigned(text, v, 16)
  {
    ThreeAt(fmt, i, 'x');
    LongConvs(fmt, i);
    ShowsConv(fmt, i, args, LongConv(16, true), 3);
    text := IntText(v, 16, true);
    IntTextDenotes(v, 16, true);
  }

  // -------------------------------------------------------- pointers, strings

  /** `%p`: "0x" and sixteen hexadecimal digits of the pointer. */
  lemma Pointer(fmt: string, i: nat, args: seq<Arg>, p: nat) returns (digits: string)
    requires At(fmt, i, "%p") && args != [] && args[0] == Ptr(p) && p < TWO64
    requires ArgsFit(fmt, i + 2, args[1..])
    ensures Shows(fmt, i, args, "0x" + digits, i + 2)
    ensures |digits| == 16 && Value(digits, 16) == p && forall j :: 0 <= j < 16 ==> digits[j] in DIGITS
  {
    TwoAt(fmt, i, 'p');
    PtrTextDenotes(p);
    digits := PtrText(p)[2..];
    assert PtrText(p) == "0x" + digits;
  }

  /** `%s`: the first 200 characters of the string, or all of them when there are fewer. */
  lemma Text(fmt: string, i: nat, args: seq<Arg>, s: string) returns (text: string)
    requires At(fmt, i, "%s") && args != [] && args[0] == Str(s) && IsCString(s)
    requires ArgsFit(fmt, i + 2, args[1..])
    ensures Shows(fmt, i, args, text, i + 2)
    ensures text <= s && |text| <= 200 && '\0' !in text && (|text| == 200 || text == s[..|s| - 1])
  {
    TwoAt(fmt, i, 's');
    text := s[..if 200 < |s| - 1 then 200 else |s| - 1];
  }

  /** `%s` for a null pointer. */
  lemma NullText(fmt: string, i: nat, args: seq<Arg>)
    requires At(fmt, i, "%s") && args != [] && args[0] == NullStr && ArgsFit(fmt, i + 2, args[1..])
    ensures Shows(fmt, i, args, "(null)", i + 2)
  {
    TwoAt(fmt, i, 's');
  }

  // ------------------------------------------------------------ all the rest

  /** A character that is no percent sign is printed as it is. */
  lemma Plain(fmt: string, i: nat, args: seq<Arg>, c: char)
    requires At(fmt, i, [c]) && c != '%' && ArgsFit(fmt, i + 1, args)
    ensures Copies(fmt, i, args, [c], i + 1)
  {
    CharsAt(fmt, i, [c], 0);
  }

  /** Two percent signs print one. */
  lemma Percent(fmt: string, i: nat, args: seq<Arg>)
    requires At(fmt, i, "%%") && ArgsFit(fmt, i + 2, args)
    ensures Copies(fmt, i, args, "%", i + 2)
  {
    TwoAt(fmt, i, '%');
  }

  /** A percent sign and a character that is no conversion are printed as they are. */
  lemma Unknown(fmt: string, i: nat, args: seq<Arg>, c: char)
    requires At(fmt, i, ['%', c]) && c !in "udxpsl%" && ArgsFit(fmt, i + 2, args)
    ensures Copies(fmt, i, args, ['%', c], i + 2)
  {
    TwoAt(fmt, i, c);
    assert "%" + [c] == ['%', c];
  }

  /** So are `%l` and a character that makes no conversion of it. */
  lemma UnknownLong(fmt: string, i: nat, args: seq<Arg>, c: char)
    requires At(fmt, i, ['%', 'l', c]) && c !in "udx" && ArgsFit(fmt, i + 3, args)
    ensures Copies(fmt, i, args, ['%', 'l', c], i + 3)
  {
    ThreeAt(fmt, i, c);
    assert "%l" + [c] == ['%', 'l', c];
  }

  /** And `%l` at the end. */
  lemma LongAtEnd(fmt: string, i: nat, args: seq<Arg>)
    requires At(fmt, i, "%l") && i + 3 == |fmt|
    ensures IsCString(fmt) && ArgsFit(fmt, i, args) && Render(fmt, i, args) == "%l"
  {
    TwoAt(fmt, i, 'l');
    assert "%l" + [] == "%l";
  }

  /** The end of the format prints nothing, and a percent sign before it neither. */
  lemma End(fmt: string, i: nat, args: seq<Arg>)
    requires IsCString(fmt) && i < |fmt| && (i + 1 == |fmt| || (i + 2 == |fmt| && fmt[i] == '%'))
    ensures ArgsFit(fmt, i, args) && Render(fmt, i, args) == ""
  {
  }
}
