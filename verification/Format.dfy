/**
 `fprintf` (apps/nimbos/c/lib/stdio.c) against a renderer that looks at one character, or one
 conversion, at a time.  The conversions are the ones the code knows, with the code's meaning:
 `%u` prints a negative `int` as a 64-bit number and `%x` prints it with a minus sign.
 */
module Format {
  import opened CString
  import opened Stdio

  /** One variadic argument, by the type its conversion asks for. */
  datatype Arg =
    | Int(i: int)
    | Long(l: int)
    | Ptr(p: nat)
    | Str(s: string)
    | NullStr

  datatype Conversion =
    | IntConv(base: nat, sign: bool)
    | LongConv(base: nat, sign: bool)
    | PtrConv
    | StrConv
    | Verbatim(text: string)

  /** The conversion at the `%` in position `i`, and the number of characters it takes. */
  function Conv(fmt: string, i: nat): (r: (Conversion, nat))
    requires IsCString(fmt) && i < |fmt| && fmt[i] == '%' && fmt[i + 1] != '\0'
    ensures i + r.1 < |fmt| && r.1 > 0
    ensures r.0.IntConv? || r.0.LongConv? ==> 10 <= r.0.base <= 16
  {
    match fmt[i + 1]
    case 'u' => (IntConv(10, false), 2)
    case 'd' => (IntConv(10, true), 2)
    case 'x' => (IntConv(16, true), 2)
    case 'p' => (PtrConv, 2)
    case 's' => (StrConv, 2)
    case 'l' =>
      (match fmt[i + 2]
       case 'u' => (LongConv(10, false), 3)
       case 'd' => (LongConv(10, true), 3)
       case 'x' => (LongConv(16, true), 3)
       case '\0' => (Verbatim("%l"), 2)
       case c => (Verbatim("%l" + [c]), 3))
    case c => (Verbatim("%" + [c]), 2)
  }

  predicate Accepts(conv: Conversion, arg: Arg) {
    match conv
    case IntConv(_, _) => arg.Int? && INT_MIN <= arg.i <= INT_MAX
    case LongConv(_, _) => arg.Long? && -TWO63 <= arg.l < TWO63
    case PtrConv => arg.Ptr? && arg.p < TWO64
    case StrConv => arg.NullStr? || (arg.Str? && IsCString(arg.s))
    case Verbatim(_) => false
  }

  function ArgText(conv: Conversion, arg: Arg): string
    requires Accepts(conv, arg) && (conv.IntConv? || conv.LongConv? ==> 10 <= conv.base <= 16)
  {
    match conv
    case IntConv(base, sign) => IntText(arg.i, base, sign)
    case LongConv(base, sign) => IntText(arg.l, base, sign)
    case PtrConv => PtrText(arg.p)
    case StrConv => if arg.NullStr? then "(null)" else arg.s[..if 200 < |arg.s| - 1 then 200 else |arg.s| - 1]
  }

  /** The caller supplied arguments of the types that the conversions from `i` on ask for. */
  predicate ArgsFit(fmt: string, i: nat, args: seq<Arg>)
    requires IsCString(fmt) && i < |fmt|
    decreases |fmt| - i
  {
    if fmt[i] == '\0' then true
    else if fmt[i] != '%' then ArgsFit(fmt, i + 1, args)
    else if fmt[i + 1] == '%' then ArgsFit(fmt, i + 2, args)
    else if fmt[i + 1] == '\0' then true
    else
      var (conv, n) := Conv(fmt, i);
      if conv.Verbatim? then ArgsFit(fmt, i + n, args)
      else args != [] && Accepts(conv, args[0]) && ArgsFit(fmt, i + n, args[1..])
  }

  /** What a format prints from position `i` on; a lone `%` at the end prints nothing. */
  function Render(fmt: string, i: nat, args: seq<Arg>): string
    requires IsCString(fmt) && i < |fmt| && ArgsFit(fmt, i, args)
    decreases |fmt| - i
  {
    if fmt[i] == '\0' then []
    else if fmt[i] != '%' then [fmt[i]] + Render(fmt, i + 1, args)
    else if fmt[i + 1] == '%' then "%" + Render(fmt, i + 2, args)
    else if fmt[i + 1] == '\0' then []
    else
      var (conv, n) := Conv(fmt, i);
      if conv.Verbatim? then conv.text + Render(fmt, i + n, args)
      else ArgText(conv, args[0]) + Render(fmt, i + n, args[1..])
  }

  /** From `a`, the text `fmt[a..z]` is printed and the rest is what the format prints from `s` on. */
  ghost predicate Prints(fmt: string, args: seq<Arg>, a: nat, z: nat, s: nat)
    requires IsCString(fmt) && a < |fmt| && ArgsFit(fmt, a, args)
  {
    && a <= z <= s < |fmt| && ArgsFit(fmt, s, args)
    && Render(fmt, a, args) == fmt[a..z] + Render(fmt, s, args)
  }

  lemma OnePlain(fmt: string, args: seq<Arg>, a: nat, s: nat)
    requires IsCString(fmt) && a < |fmt| && ArgsFit(fmt, a, args) && Prints(fmt, args, a, s, s)
    requires fmt[s] != '\0' && fmt[s] != '%'
    ensures Prints(fmt, args, a, s + 1, s + 1)
  {
    assert fmt[a..s + 1] == fmt[a..s] + [fmt[s]];
  }

  lemma OnePair(fmt: string, args: seq<Arg>, a: nat, z: nat, s: nat)
    requires IsCString(fmt) && a < |fmt| && ArgsFit(fmt, a, args) && Prints(fmt, args, a, z, s)
    requires fmt[s] == '%' && fmt[s + 1] == '%' && fmt[z] == '%'
    ensures Prints(fmt, args, a, z + 1, s + 2)
  {
    assert fmt[a..z + 1] == fmt[a..z] + "%";
  }

  /** The first scanning loop: plain text. */
  method ScanText(fmt: string, a: nat, ghost args: seq<Arg>) returns (s: nat)
    requires IsCString(fmt) && a < |fmt| && ArgsFit(fmt, a, args)
    ensures Prints(fmt, args, a, s, s) && (fmt[s] == '\0' || fmt[s] == '%')
  {
    s := a;
    while fmt[s] != '\0' && fmt[s] != '%'
      invariant s < |fmt| && Prints(fmt, args, a, s, s)
      decreases |fmt| - s
    {
      OnePlain(fmt, args, a, s);
      s := s + 1;
    }
  }

  /**
   The second: a run of `%%` pairs, each standing for one of the percent signs that follow the text.
   */
  method ScanPairs(fmt: string, a: nat, first: nat, ghost args: seq<Arg>) returns (s: nat, z: nat)
    requires IsCString(fmt) && a < |fmt| && ArgsFit(fmt, a, args) && Prints(fmt, args, a, first, first)
    ensures Prints(fmt, args, a, z, s) && first <= z && s - first == 2 * (z - first)
    ensures !(fmt[s] == '%' && fmt[s + 1] == '%')
  {
    s, z := first, first;
    while fmt[s] == '%' && fmt[s + 1] == '%'
      invariant first <= z <= s < |fmt| && s - first == 2 * (z - first)
      invariant forall j :: first <= j < s ==> fmt[j] == '%'
      invariant Prints(fmt, args, a, z, s)
      decreases |fmt| - s
    {
      OnePair(fmt, args, a, z, s);
      z, s := z + 1, s + 2;
    }
  }

  /** Both loops, from `a`; with nothing found the scan stands on a conversion or at the end. */
  method ScanLiteral(fmt: string, a: nat, ghost args: seq<Arg>) returns (s: nat, z: nat)
    requires IsCString(fmt) && a < |fmt| && ArgsFit(fmt, a, args)
    ensures Prints(fmt, args, a, z, s)
    ensures z == a ==> s == a && (fmt[s] == '\0' || (fmt[s] == '%' && fmt[s + 1] != '%'))
  {
    var first := ScanText(fmt, a, args);
    s, z := ScanPairs(fmt, a, first, args);
  }

  /** The arguments start with what the conversion at `i` asks for. */
  predicate Supplied(fmt: string, i: nat, args: seq<Arg>)
    requires IsCString(fmt) && i < |fmt| && fmt[i] == '%' && fmt[i + 1] != '\0'
  {
    var conv := Conv(fmt, i).0;
    conv.Verbatim? || (args != [] && Accepts(conv, args[0]))
  }

  /** What is printed by the conversion at `i`, and the arguments left after it. */
  function ConvText(fmt: string, i: nat, args: seq<Arg>): (string, seq<Arg>)
    requires IsCString(fmt) && i < |fmt| && fmt[i] == '%' && fmt[i + 1] != '\0' && Supplied(fmt, i, args)
  {
    var conv := Conv(fmt, i).0;
    if conv.Verbatim? then (conv.text, args) else (ArgText(conv, args[0]), args[1..])
  }

  lemma ConversionRenders(fmt: string, i: nat, args: seq<Arg>)
    requires IsCString(fmt) && i < |fmt| && ArgsFit(fmt, i, args)
    requires fmt[i] == '%' && fmt[i + 1] != '%' && fmt[i + 1] != '\0'
    ensures Supplied(fmt, i, args)
    ensures var (text, rest) := ConvText(fmt, i, args);
            var next := i + Conv(fmt, i).1;
            ArgsFit(fmt, next, rest) && Render(fmt, i, args) == text + Render(fmt, next, rest)
  {
  }

  lemma EmitTwo(v: Output, c: char, d: char)
    ensures Emit(Emit(v, [c]), [d]) == Emit(v, [c, d])
  {
    EmitConcat(v, [c], [d]);
    assert [c] + [d] == [c, d];
  }

  lemma EmitThree(v: Output, c: char, d: char, e: char)
    ensures Emit(Emit(Emit(v, [c]), [d]), [e]) == Emit(v, [c, d, e])
  {
    EmitTwo(v, c, d);
    EmitConcat(v, [c, d], [e]);
    assert [c, d] + [e] == [c, d, e];
  }

  /** `%l` and the character after it; the backstep keeps the scan on the terminator. */
  method ConvertLong(out: Stdout, fmt: string, i: nat, args: seq<Arg>) returns (s: int, rest: seq<Arg>)
    requires out.Valid() && IsCString(fmt) && i < |fmt| && fmt[i] == '%' && fmt[i + 1] == 'l'
    requires Supplied(fmt, i, args)
    modifies out, out.buffer
    ensures out.Valid() && out.View() == Emit(old(out.View()), ConvText(fmt, i, args).0)
    ensures s == i + Conv(fmt, i).1 - 2 && rest == ConvText(fmt, i, args).1
  {
    ghost var v := out.View();
    s, rest := i, args;
    if fmt[s + 2] == 'u' {
      out.PrintInt(rest[0].l, 10, false);
      rest := rest[1..];
    } else if fmt[s + 2] == 'd' {
      out.PrintInt(rest[0].l, 10, true);
      rest := rest[1..];
    } else if fmt[s + 2] == 'x' {
      out.PrintInt(rest[0].l, 16, true);
      rest := rest[1..];
    } else {
      out.PutChar('%');
      out.PutChar(fmt[s + 1]);
      if fmt[s + 2] != '\0' {
        out.PutChar(fmt[s + 2]);
        EmitThree(v, '%', 'l', fmt[s + 2]);
        assert "%l" + [fmt[s + 2]] == ['%', 'l', fmt[s + 2]];
      } else {
        EmitTwo(v, '%', 'l');
        s := s - 1;
      }
    }
    s := s + 1;
  }

  /** The `switch` of `fprintf` on the character after a `%`, and the step past the conversion. */
  method Convert(out: Stdout, fmt: string, i: nat, args: seq<Arg>) returns (s: nat, rest: seq<Arg>)
    requires out.Valid() && IsCString(fmt) && i < |fmt| && fmt[i] == '%' && fmt[i + 1] != '\0'
    requires Supplied(fmt, i, args)
    modifies out, out.buffer
    ensures out.Valid() && out.View() == Emit(old(out.View()), ConvText(fmt, i, args).0)
    ensures s == i + Conv(fmt, i).1 && rest == ConvText(fmt, i, args).1
  {
    ghost var v := out.View();
    var p: int := i;
    rest := args;
    match fmt[p + 1] {
      case 'u' =>
        out.PrintInt(rest[0].i, 10, false);
        rest := rest[1..];
      case 'd' =>
        out.PrintInt(rest[0].i, 10, true);
        rest := rest[1..];
      case 'x' =>
        out.PrintInt(rest[0].i, 16, true);
        rest := rest[1..];
      case 'p' =>
        out.PrintPtr(rest[0].p);
        rest := rest[1..];
      case 's' =>
        var a := if rest[0].NullStr? then "(null)\0" else rest[0].s;
        var l := Strnlen(a, 200);
        var _ := out.Out(a[..l]);
        assert rest[0].NullStr? ==> a[..l] == "(null)";
        rest := rest[1..];
      case 'l' =>
        p, rest := ConvertLong(out, fmt, i, rest);
      case c =>
        out.PutChar('%');
        out.PutChar(fmt[p + 1]);
        EmitTwo(v, '%', c);
    }
    s := p + 2;
  }

  /** The text `done` followed by what the format prints from `s` on is the whole output. */
  ghost predicate Remaining(fmt: string, args: seq<Arg>, done: string, s: nat, ap: seq<Arg>)
    requires IsCString(fmt) && ArgsFit(fmt, 0, args)
  {
    s < |fmt| && ArgsFit(fmt, s, ap) && done + Render(fmt, s, ap) == Render(fmt, 0, args)
  }

  lemma LiteralDone(fmt: string, args: seq<Arg>, done: string, a: nat, z: nat, s: nat, ap: seq<Arg>)
    requires IsCString(fmt) && ArgsFit(fmt, 0, args) && Remaining(fmt, args, done, a, ap)
    requires Prints(fmt, ap, a, z, s)
    ensures Remaining(fmt, args, done + fmt[a..z], s, ap)
  {
    assert done + (fmt[a..z] + Render(fmt, s, ap)) == done + fmt[a..z] + Render(fmt, s, ap);
  }

  lemma ConversionDone(fmt: string, args: seq<Arg>, done: string, s: nat, ap: seq<Arg>)
    requires IsCString(fmt) && ArgsFit(fmt, 0, args) && Remaining(fmt, args, done, s, ap)
    requires fmt[s] == '%' && fmt[s + 1] != '%' && fmt[s + 1] != '\0'
    ensures Supplied(fmt, s, ap)
    ensures var (text, rest) := ConvText(fmt, s, ap);
            Remaining(fmt, args, done + text, s + Conv(fmt, s).1, rest)
  {
    ConversionRenders(fmt, s, ap);
    var (text, rest) := ConvText(fmt, s, ap);
    var next := s + Conv(fmt, s).1;
    assert done + (text + Render(fmt, next, rest)) == done + text + Render(fmt, next, rest);
  }

  lemma AllDone(fmt: string, args: seq<Arg>, done: string, s: nat, ap: seq<Arg>)
    requires IsCString(fmt) && ArgsFit(fmt, 0, args) && Remaining(fmt, args, done, s, ap)
    requires fmt[s] == '\0' || (fmt[s] == '%' && fmt[s + 1] == '\0')
    ensures done == Render(fmt, 0, args)
  {
    assert done + [] == done;
  }

  /** One round of the loop; `text` is what it printed, and `more` is false on the two ways out. */
  method FormatRound(out: Stdout, fmt: string, ghost args: seq<Arg>, ghost done: string, a: nat, ap: seq<Arg>)
    returns (more: bool, s: nat, rest: seq<Arg>, ghost text: string)
    requires out.Valid() && IsCString(fmt) && ArgsFit(fmt, 0, args) && Remaining(fmt, args, done, a, ap)
    modifies out, out.buffer
    ensures out.Valid() && out.View() == Emit(old(out.View()), text)
    ensures more ==> a < s && Remaining(fmt, args, done + text, s, rest)
    ensures !more ==> done + text == Render(fmt, 0, args)
  {
    ghost var v := out.View();
    rest, text := ap, [];
    if fmt[a] == '\0' {
      AllDone(fmt, args, done, a, ap);
      return false, a, rest, [];
    }
    var z;
    s, z := ScanLiteral(fmt, a, ap);
    var _ := out.Out(fmt[a..z]);
    LiteralDone(fmt, args, done, a, z, s, ap);
    if z != a {
      return true, s, rest, fmt[a..z];
    }
    assert done + fmt[a..z] == done && Emit(v, fmt[a..z]) == v;
    if fmt[s + 1] == '\0' {
      AllDone(fmt, args, done, s, ap);
      return false, s, rest, [];
    }
    ConversionDone(fmt, args, done, s, ap);
    text := ConvText(fmt, s, ap).0;
    s, rest := Convert(out, fmt, s, ap);
    more := true;
  }

  /** `fprintf` to stdout prints exactly what the one-character-at-a-time renderer says. */
  method Fprintf(out: Stdout, fmt: string, args: seq<Arg>)
    requires out.Valid() && IsCString(fmt) && ArgsFit(fmt, 0, args)
    modifies out, out.buffer
    ensures out.Valid() && out.View() == Emit(old(out.View()), Render(fmt, 0, args))
  {
    var s, ap, more := 0, args, true;
    ghost var v, done := out.View(), [];
    while more
      invariant out.Valid() && out.View() == Emit(v, done)
      invariant more ==> Remaining(fmt, args, done, s, ap)
      invariant !more ==> done == Render(fmt, 0, args)
      decreases more, |fmt| - s
    {
      ghost var text;
      more, s, ap, text := FormatRound(out, fmt, args, done, s, ap);
      EmitConcat(v, done, text);
      done := done + text;
    }
  }
}
