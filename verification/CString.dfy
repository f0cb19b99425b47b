/**
 The string routines of the C library (apps/nimbos/c/lib/string.c).  A C string is a
 sequence whose last character is its only NUL; reading at an index is checked by Dafny,
 so a routine that verifies never reads past the terminator.
 */
module CString {
  import opened Common
  import opened Numerals

  const INT_MIN := -0x8000_0000
  const INT_MAX := 0x7fff_ffff

  predicate IsCString(s: string) {
    |s| > 0 && s[|s| - 1] == '\0' && forall i :: 0 <= i < |s| - 1 ==> s[i] != '\0'
  }

  predicate IsSpace(c: char) {
    c == ' ' || '\t' <= c <= '\r'
  }

  predicate IsDigit(c: char) {
    '0' <= c <= '9'
  }

  // -------------------------------------------------------------------- atoi

  /** Signed arithmetic in `int`: a value outside the type is undefined behaviour. */
  datatype CInt = Defined(value: int) | Overflow

  function Fit(v: int): CInt {
    if INT_MIN <= v <= INT_MAX then Defined(v) else Overflow
  }

  datatype CharClass = Space | Digit

  predicate InClass(k: CharClass, c: char) {
    if k.Space? then IsSpace(c) else IsDigit(c)
  }

  /** The number of characters of class `k` in `s` from `i` on, up to the first of another class. */
  function Span(k: CharClass, s: string, i: nat): (n: nat)
    requires i <= |s|
    ensures i + n <= |s|
    ensures forall j :: i <= j < i + n ==> InClass(k, s[j])
    ensures i + n < |s| ==> !InClass(k, s[i + n])
    decreases |s| - i
  {
    if i == |s| || !InClass(k, s[i]) then 0 else 1 + Span(k, s, i + 1)
  }

  lemma {:induction false} SpanIs(k: CharClass, s: string, i: nat, n: nat)
    requires i + n <= |s| && (forall j :: i <= j < i + n ==> InClass(k, s[j]))
    requires i + n < |s| ==> !InClass(k, s[i + n])
    ensures Span(k, s, i) == n
    decreases n
  {
    if n > 0 {
      SpanIs(k, s, i + 1, n - 1);
    }
  }

  /** Where the digits start and whether a minus sign precedes them. */
  function NumberStart(s: string): (r: (nat, bool))
    requires IsCString(s)
    ensures r.0 < |s|
  {
    var k := Span(Space, s, 0);
    if s[k] == '-' then (k + 1, true) else if s[k] == '+' then (k + 1, false) else (k, false)
  }

  /** The number written by the digits of `s` from `k` on. */
  function DigitsAt(s: string, k: nat): nat
    requires k <= |s|
  {
    Value(s[k..k + Span(Digit, s, k)], 10)
  }

  /** The integer that `s` denotes: spaces, an optional sign, decimal digits. */
  function Denoted(s: string): int
    requires IsCString(s)
  {
    var (k, neg) := NumberStart(s);
    if neg then 0 - DigitsAt(s, k) else DigitsAt(s, k)
  }

  const SPACES: string := " \t\n\U{b}\U{c}\r"

  /** The parts of a text as `atoi` takes it apart. */
  predicate Parts(text: string, spaces: string, sign: string, digits: string, rest: string) {
    && text == spaces + sign + digits + rest && IsCString(text)
    && (forall i :: 0 <= i < |spaces| ==> spaces[i] in SPACES)
    && (sign == "" || sign == "+" || sign == "-")
    && (forall i :: 0 <= i < |digits| ==> '0' <= digits[i] <= '9')
    && rest != [] && !('0' <= rest[0] <= '9')
    && (sign == "" && digits == [] ==> rest[0] !in SPACES && rest[0] != '+' && rest[0] != '-')
  }

  lemma SpaceChars(c: char)
    ensures IsSpace(c) <==> c in SPACES
  {
  }

  lemma PlacesOfParts(spaces: string, sign: string, tail: string)
    ensures var text := spaces + sign + tail;
            && (forall i :: 0 <= i < |spaces| ==> text[i] == spaces[i])
            && (sign != "" ==> text[|spaces|] == sign[0])
            && text[|spaces| + |sign|..] == tail && (tail != [] ==> text[|spaces| + |sign|] == tail[0])
  {
  }

  /** Where the digits start after spaces and a sign. */
  lemma StartAfter(text: string, k: nat, sign: string)
    requires IsCString(text) && k < |text| && (forall i :: 0 <= i < k ==> IsSpace(text[i])) && !IsSpace(text[k])
    requires if text[k] == '-' then sign == "-" else if text[k] == '+' then sign == "+" else sign == ""
    ensures NumberStart(text) == (k + |sign|, sign == "-")
  {
    SpanIs(Space, text, 0, k);
  }

  /** A text denotes the number that its digits denote, negated after a minus sign. */
  lemma PartsDenote(text: string, spaces: string, sign: string, digits: string, rest: string)
    requires Parts(text, spaces, sign, digits, rest)
    ensures Denoted(text) == if sign == "-" then 0 - Value(digits, 10) else Value(digits, 10)
  {
    PartsStart(text, spaces, sign, digits, rest);
    TailOfParts(spaces, sign, digits, rest);
    DigitsFollow(text, |spaces| + |sign|, digits, rest);
  }

  lemma TailOfParts(spaces: string, sign: string, digits: string, rest: string)
    ensures (spaces + sign + digits + rest)[|spaces| + |sign|..] == digits + rest
  {
  }

  lemma Regroup(spaces: string, sign: string, digits: string, rest: string)
    ensures spaces + sign + digits + rest == spaces + sign + (digits + rest)
  {
  }

  lemma PartsStart(text: string, spaces: string, sign: string, digits: string, rest: string)
    requires Parts(text, spaces, sign, digits, rest)
    ensures NumberStart(text) == (|spaces| + |sign|, sign == "-")
  {
    var tail := digits + rest;
    Regroup(spaces, sign, digits, rest);
    PlacesOfParts(spaces, sign, tail);
    assert tail[0] == if digits == [] then rest[0] else digits[0];
    forall i | 0 <= i < |spaces| ensures IsSpace(text[i]) {
      SpaceChars(spaces[i]);
    }
    SpaceChars(text[|spaces|]);
    StartAfter(text, |spaces|, sign);
  }

  lemma DigitsFollow(text: string, k: nat, digits: string, rest: string)
    requires k + |digits| + |rest| == |text| && text[k..] == digits + rest
    requires forall i :: 0 <= i < |digits| ==> '0' <= digits[i] <= '9'
    requires rest != [] && !('0' <= rest[0] <= '9')
    ensures DigitsAt(text, k) == Value(digits, 10)
  {
    assert forall i :: 0 <= i < |digits| ==> text[k + i] == text[k..][i] == digits[i];
    assert text[k + |digits|] == text[k..][|digits|] == rest[0];
    SpanIs(Digit, text, k, |digits|);
    assert text[k..k + |digits|] == digits;
  }

  /** Every C string has such parts. */
  lemma HasParts(text: string) returns (spaces: string, sign: string, digits: string, rest: string)
    requires IsCString(text)
    ensures Parts(text, spaces, sign, digits, rest)
  {
    var k := Span(Space, text, 0);
    var j := NumberStart(text).0;
    var e := j + Span(Digit, text, j);
    spaces, sign, digits, rest := text[..k], text[k..j], text[j..e], text[e..];
    CutInFour(text, k, j, e);
    OneSign(text, k, j);
    forall i | 0 <= i < k ensures spaces[i] in SPACES {
      SpaceChars(text[i]);
    }
    SpaceChars(text[k]);
    assert rest[0] == text[e];
  }

  lemma OneSign(text: string, k: nat, j: nat)
    requires k <= j <= k + 1 <= |text| && (j > k ==> text[k] == '+' || text[k] == '-')
    ensures text[k..j] == if j == k then "" else if text[k] == '+' then "+" else "-"
  {
  }

  lemma CutInFour(text: string, i: nat, j: nat, k: nat)
    requires i <= j <= k <= |text|
    ensures text == text[..i] + text[i..j] + text[j..k] + text[k..]
  {
  }

  lemma {:induction false} ValueIsMonotone(s: string, i: nat)
    requires i <= |s|
    ensures Value(s[..i], 10) <= Value(s, 10)
  {
    if i < |s| {
      ValueIsMonotone(s[..|s| - 1], i);
      assert s[..|s| - 1][..i] == s[..i];
    } else {
      assert s[..i] == s;
    }
  }

  lemma OneMoreDigit(s: string, k: nat, p: nat)
    requires k <= |s| && k <= p < k + Span(Digit, s, k)
    ensures Value(s[k..p + 1], 10) == 10 * Value(s[k..p], 10) + DigitValue(s[p])
    ensures Value(s[k..p + 1], 10) <= DigitsAt(s, k)
  {
    var end := k + Span(Digit, s, k);
    SliceGrows(s, k, p, end);
    ValueSnoc(s[k..p], s[p], 10);
    ValueIsMonotone(s[k..end], p + 1 - k);
  }

  lemma SliceGrows(s: string, k: nat, p: nat, end: nat)
    requires k <= p < end <= |s|
    ensures s[k..p + 1] == s[k..p] + [s[p]] && s[k..end][..p + 1 - k] == s[k..p + 1]
  {
  }

  /** The digit loop of `atoi`: it accumulates the negated value, to reach INT_MIN. */
  method AtoiDigits(s: string, k: nat) returns (r: CInt)
    requires IsCString(s) && k < |s|
    ensures r == if DigitsAt(s, k) <= 0 - INT_MIN then Defined(0 - DigitsAt(s, k)) else Overflow
  {
    var p, n := k, 0;
    while IsDigit(s[p])
      invariant k <= p < |s| && p <= k + Span(Digit, s, k)
      invariant n == 0 - Value(s[k..p], 10) && INT_MIN <= n
      decreases |s| - p
    {
      OneMoreDigit(s, k, p);
      if 10 * n < INT_MIN || 10 * n - DigitValue(s[p]) < INT_MIN {
        return Overflow;
      }
      n := 10 * n - DigitValue(s[p]);
      p := p + 1;
    }
    r := Defined(n);
  }

  /**
   `atoi` returns the denoted integer when that fits in an `int`, and overflows exactly when it
   does not: accumulating negatively loses nothing on the way, INT_MIN included.
   */
  method Atoi(s: string) returns (r: CInt)
    requires IsCString(s)
    ensures r == Fit(Denoted(s))
  {
    var p, neg := 0, false;
    while IsSpace(s[p])
      invariant p < |s| && p <= Span(Space, s, 0)
      decreases |s| - p
    {
      p := p + 1;
    }
    if s[p] == '-' {
      neg := true;
      p := p + 1;
    } else if s[p] == '+' {
      p := p + 1;
    }
    var n := AtoiDigits(s, p);
    r := if n.Overflow? || neg then n else Fit(0 - n.value);
  }

  // -------------------------------------------------------- memchr and strnlen

  /** `memchr(s, c, n)`: the offset of the first `c` among the first `n` characters, or none (-1). */
  method Memchr(s: string, c: char, n: nat) returns (p: int)
    requires n <= |s| || c in s
    ensures p >= 0 ==> p < n && p < |s| && s[p] == c && c !in s[..p]
    ensures p < 0 ==> n <= |s| && c !in s[..n]
  {
    var i := 0;
    while i < n && s[i] != c
      invariant i <= n && i <= |s| && c !in s[..i]
    {
      i := i + 1;
    }
    p := if i < n then i else -1;
  }

  method Strnlen(s: string, n: nat) returns (len: nat)
    requires IsCString(s)
    ensures len == if n < |s| - 1 then n else |s| - 1
  {
    assert s[|s| - 1] in s;
    var p := Memchr(s, '\0', n);
    len := if p >= 0 then p else n;
  }

  // ------------------------------------------------------------------ memset

  /**
   `memset` on memory whose cell `i` is at address `i`, so `dest` also decides the alignment.
   The head and tail stores cover whatever the aligned middle loop leaves out.
   */
  method Memset(mem: array<Byte>, dest: nat, c: int, n: nat)
    requires dest + n <= mem.Length
    modifies mem
    ensures forall i :: 0 <= i < mem.Length ==>
              mem[i] == if dest <= i < dest + n then c % 256 else old(mem[i])
  {
    var s, n, c := dest, n, c % 256;
    if n == 0 {
      return;
    }
    mem[s] := c;
    mem[s + n - 1] := c;
    if n <= 2 {
      return;
    }
    mem[s + 1] := c;
    mem[s + 2] := c;
    mem[s + n - 2] := c;
    mem[s + n - 3] := c;
    if n <= 6 {
      return;
    }
    mem[s + 3] := c;
    mem[s + n - 4] := c;
    if n <= 8 {
      return;
    }
    ghost var end := dest + n;
    var k := (4 - s % 4) % 4;
    s := s + k;
    n := n - k;
    n := n - n % 4;
    while n > 0
      invariant dest <= s <= s + n <= end < s + n + 4
      invariant forall i :: 0 <= i < mem.Length && !(dest <= i < end) ==> mem[i] == old(mem[i])
      invariant forall i :: dest <= i < s ==> mem[i] == c
      invariant forall i :: end - 4 <= i < end ==> mem[i] == c
    {
      mem[s] := c;
      s, n := s + 1, n - 1;
    }
  }
}
