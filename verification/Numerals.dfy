/** Positional numerals: what the digits printed by the C library denote. */
module Numerals {

  const DIGITS: string := "0123456789abcdef"

  /** The character at index `d` of the table of digits. */
  function DigitChar(d: nat): (c: char)
    requires d < 16
    ensures DigitValue(c) == d
    ensures '0' <= c <= '9' <==> d < 10
  {
    if d < 10 then ('0' as int + d) as char else ('a' as int + (d - 10)) as char
  }

  function Pow(b: nat, e: nat): nat {
    if e == 0 then 1 else b * Pow(b, e - 1)
  }

  /** The numeral of `x` without leading zeros. */
  function Digits(x: nat, base: nat): (s: string)
    requires 2 <= base <= 16
    ensures |s| > 0
  {
    if x < base then [DigitChar(x)] else Digits(x / base, base) + [DigitChar(x % base)]
  }

  function DigitValue(c: char): nat {
    if '0' <= c <= '9' then (c as int) - ('0' as int)
    else if 'a' <= c <= 'f' then (c as int) - ('a' as int) + 10
    else 0
  }

  /** The number a numeral denotes. */
  function Value(s: string, base: nat): nat {
    if s == [] then 0 else Value(s[..|s| - 1], base) * base + DigitValue(s[|s| - 1])
  }

  lemma ValueSnoc(s: string, c: char, base: nat)
    ensures Value(s + [c], base) == Value(s, base) * base + DigitValue(c)
  {
    assert (s + [c])[..|s|] == s;
  }

  lemma Quotient(x: nat, base: nat)
    requires 2 <= base <= x
    ensures x / base < x && x / base * base + x % base == x
  {
  }

  lemma QuotientPositive(x: nat, base: nat)
    requires 2 <= base <= x
    ensures 0 < x / base
  {
  }

  lemma QuotientZero(x: nat, base: nat)
    requires x < base
    ensures x / base == 0 && x % base == x
  {
  }

  lemma AppendDigit(front: string, q: nat, d: nat, base: nat)
    requires Value(front, base) == q && d < 16
    ensures Value(front + [DigitChar(d)], base) == q * base + d
  {
    ValueSnoc(front, DigitChar(d), base);
  }

  lemma {:induction false} DigitsDenote(x: nat, base: nat)
    requires 2 <= base <= 16
    ensures Value(Digits(x, base), base) == x
    decreases x
  {
    if x < base {
      AppendDigit([], 0, x, base);
      assert [] + [DigitChar(x)] == [DigitChar(x)];
    } else {
      Quotient(x, base);
      DigitsDenote(x / base, base);
      AppendDigit(Digits(x / base, base), x / base, x % base, base);
    }
  }

  /** `s` is the numeral of `x`: digits of the base, no leading zero, and the right value. */
  predicate IsNumeral(s: string, x: nat, base: nat) {
    && s != [] && (s[0] == '0' ==> |s| == 1) && Value(s, base) == x
    && (forall i :: 0 <= i < |s| ==> s[i] in DIGITS && DigitValue(s[i]) < base)
  }

  lemma FromTable(d: nat)
    requires d < 16
    ensures DigitChar(d) == DIGITS[d] && DigitChar(d) in DIGITS
  {
  }

  lemma {:induction false} DigitsAreNumeral(x: nat, base: nat)
    requires 2 <= base <= 16
    ensures IsNumeral(Digits(x, base), x, base) && (x > 0 ==> Digits(x, base)[0] != '0')
    decreases x
  {
    DigitsDenote(x, base);
    if x < base {
      FromTable(x);
    } else {
      Quotient(x, base);
      QuotientPositive(x, base);
      DigitsAreNumeral(x / base, base);
      FromTable(x % base);
    }
  }

  /** Quotient and remainder are unique. */
  lemma SameParts(q: nat, d: nat, q': nat, d': nat, base: nat)
    requires d < base && d' < base && q * base + d == q' * base + d'
    ensures q == q' && d == d'
  {
    if q < q' {
      Difference(q, q', base);
    } else if q' < q {
      Difference(q', q, base);
    }
  }

  lemma {:induction false} Difference(q: nat, q': nat, base: nat)
    requires q < q'
    ensures q * base + base <= q' * base
    decreases q'
  {
    OneMoreTimes(q' - 1, base);
    if q < q' - 1 {
      Difference(q, q' - 1, base);
    }
  }

  lemma OneMoreTimes(q: nat, base: nat)
    ensures (q + 1) * base == q * base + base
  {
  }

  lemma {:induction false} LeadingDigitCounts(s: string, base: nat)
    requires s != [] && base > 0 && s[0] in DIGITS && s[0] != '0'
    ensures Value(s, base) > 0
    decreases |s|
  {
    if |s| > 1 {
      LeadingDigitCounts(s[..|s| - 1], base);
      PositiveProduct(Value(s[..|s| - 1], base), base);
    }
  }

  lemma PositiveProduct(x: nat, y: nat)
    requires x > 0 && y > 0
    ensures x * y >= y
  {
  }

  /** A numeral is its digits but the last, which are a numeral too, and the last one. */
  lemma NumeralParts(s: string, x: nat, base: nat) returns (q: nat, d: nat)
    requires 2 <= base <= 16 && IsNumeral(s, x, base)
    ensures d == DigitValue(s[|s| - 1]) < base && x == q * base + d
    ensures |s| == 1 ==> q == 0
    ensures |s| > 1 ==> q > 0 && IsNumeral(s[..|s| - 1], q, base)
  {
    q, d := Value(s[..|s| - 1], base), DigitValue(s[|s| - 1]);
    if |s| > 1 {
      LeadingDigitCounts(s[..|s| - 1], base);
    }
  }

  /** A number has one numeral in each base. */
  lemma {:induction false} NumeralIsUnique(s: string, s': string, x: nat, base: nat)
    requires 2 <= base <= 16 && IsNumeral(s, x, base) && IsNumeral(s', x, base)
    ensures s == s'
    decreases |s|
  {
    var q, d := NumeralParts(s, x, base);
    var q', d' := NumeralParts(s', x, base);
    SameParts(q, d, q', d', base);
    SameDigit(s[|s| - 1], s'[|s'| - 1]);
    if |s| > 1 {
      NumeralIsUnique(s[..|s| - 1], s'[..|s'| - 1], q, base);
    }
    assert s == s[..|s| - 1] + [s[|s| - 1]] && s' == s'[..|s'| - 1] + [s'[|s'| - 1]];
  }

  lemma SameDigit(c: char, d: char)
    requires c in DIGITS && d in DIGITS && DigitValue(c) == DigitValue(d)
    ensures c == d
  {
  }

  lemma {:induction false} DecimalDigits(x: nat)
    ensures forall i :: 0 <= i < |Digits(x, 10)| ==> '0' <= Digits(x, 10)[i] <= '9'
  {
    if x >= 10 {
      DecimalDigits(x / 10);
    }
  }

  /** Dividing by a base of at least ten removes at least one decimal digit. */
  lemma QuotientIsShorter(x: nat, base: nat, e: nat)
    requires 10 <= base && 0 < e && x < Pow(10, e)
    ensures x / base < Pow(10, e - 1)
  {
    QuotientBelow(x, base);
  }

  lemma QuotientBelow(x: nat, base: nat)
    requires 10 <= base
    ensures 10 * (x / base) <= x
  {
    var q := x / base;
    assert q * base <= x;
    assert q * 10 <= q * base;
  }

  lemma {:induction false} PowAdd(b: nat, m: nat, n: nat)
    ensures Pow(b, m + n) == Pow(b, m) * Pow(b, n)
  {
    if m > 0 {
      PowAdd(b, m - 1, n);
      MulAssociates(b, Pow(b, m - 1), Pow(b, n));
    }
  }

  lemma MulAssociates(x: nat, y: nat, z: nat)
    ensures x * (y * z) == (x * y) * z
  {
  }

  lemma PowPositive(b: nat, e: nat)
    requires b > 0
    ensures Pow(b, e) > 0
  {
  }

  lemma SplitProduct(q: nat, p: nat, r: nat, t: nat)
    requires r < p && t > 0
    ensures (q * p + r) * t == q * (p * t) + r * t
    ensures r * t < p * t
  {
    assert (p - r) * t == p * t - r * t;
  }

  lemma TopDigit(cur: nat, q: nat, low: nat)
    requires cur == q * 0x1000_0000_0000_0000 + low && low < 0x1000_0000_0000_0000
    ensures cur / 0x1000_0000_0000_0000 == q
    ensures cur * 16 % 0x1_0000_0000_0000_0000 == 16 * low
  {
    assert cur * 16 == q * 0x1_0000_0000_0000_0000 + 16 * low;
  }

  lemma QuotientBelow16(rest: nat, p: nat)
    requires p > 0 && rest < 16 * p
    ensures rest / p < 16 && rest == rest / p * p + rest % p
  {
  }

  lemma LeadingDigit(rest: nat, p: nat, t: nat, cur: nat)
    requires p > 0 && t > 0 && p * t == 0x1000_0000_0000_0000 && rest < 16 * p && cur == rest * t
    ensures cur / 0x1000_0000_0000_0000 == rest / p < 16
    ensures cur * 16 % 0x1_0000_0000_0000_0000 == rest % p * (16 * t)
  {
    QuotientBelow16(rest, p);
    var q, r := rest / p, rest % p;
    SplitProduct(q, p, r, t);
    TopDigit(cur, q, r * t);
    assert r * (16 * t) == 16 * (r * t);
  }

  /**
   Shifting a 64-bit number left by four moves its leading hexadecimal digit out: with `k` digits
   `rest` still to come, held in the top of `cur`, the digit read is the first of `rest`.
   */
  lemma LeadingHexDigit(rest: nat, k: nat, cur: nat)
    requires 1 <= k <= 16 && rest < Pow(16, k) && cur == rest * Pow(16, 16 - k)
    ensures Pow(16, k - 1) > 0
    ensures cur / 0x1000_0000_0000_0000 == rest / Pow(16, k - 1) < 16
    ensures cur * 16 % 0x1_0000_0000_0000_0000 == rest % Pow(16, k - 1) * Pow(16, 17 - k)
  {
    PowPositive(16, k - 1);
    PowPositive(16, 16 - k);
    PowAdd(16, k - 1, 16 - k);
    PowersOfSixteen();
    LeadingDigit(rest, Pow(16, k - 1), Pow(16, 16 - k), cur);
  }

  /** The numeral of `v` with exactly `k` hexadecimal digits. */
  function HexText(v: nat, k: nat): (s: string)
    requires v < Pow(16, k)
    ensures |s| == k
  {
    if k == 0 then []
    else
      PowPositive(16, k - 1);
      QuotientBelow16(v, Pow(16, k - 1));
      [DigitChar(v / Pow(16, k - 1))] + HexText(v % Pow(16, k - 1), k - 1)
  }

  lemma ShiftSum(d: nat, p: nat, v: nat)
    ensures (d * p + v) * 16 == d * (16 * p) + v * 16
  {
  }

  lemma {:induction false} ValueCons(c: char, s: string)
    ensures Value([c] + s, 16) == DigitValue(c) * Pow(16, |s|) + Value(s, 16)
  {
    if s == [] {
      assert [c] + s == [] + [c];
      ValueSnoc([], c, 16);
    } else {
      var front, last := s[..|s| - 1], s[|s| - 1];
      ValueCons(c, front);
      assert [c] + s == ([c] + front) + [last];
      ValueSnoc([c] + front, last, 16);
      assert s == front + [last];
      ValueSnoc(front, last, 16);
      ShiftSum(DigitValue(c), Pow(16, |front|), Value(front, 16));
    }
  }

  /** A leading digit in front of a numeral of `k - 1` digits. */
  lemma LeadingHexText(d: nat, low: nat, v: nat, p: nat, tail: string)
    requires d < 16 && v == d * p + low && p == Pow(16, |tail|) && Value(tail, 16) == low
    ensures Value([DigitChar(d)] + tail, 16) == v
  {
    ValueCons(DigitChar(d), tail);
  }

  /** The first digit of a numeral and the number that the others denote. */
  lemma HexSplit(v: nat, k: nat) returns (d: nat, low: nat)
    requires k > 0 && v < Pow(16, k)
    ensures d < 16 && low < Pow(16, k - 1) && v == d * Pow(16, k - 1) + low
    ensures HexText(v, k) == [DigitChar(d)] + HexText(low, k - 1)
  {
    PowPositive(16, k - 1);
    QuotientBelow16(v, Pow(16, k - 1));
    d, low := v / Pow(16, k - 1), v % Pow(16, k - 1);
  }

  lemma {:induction false} HexTextDenotes(v: nat, k: nat)
    requires v < Pow(16, k)
    ensures Value(HexText(v, k), 16) == v
    decreases k
  {
    if k > 0 {
      var d, low := HexSplit(v, k);
      HexTextDenotes(low, k - 1);
      LeadingHexText(d, low, v, Pow(16, k - 1), HexText(low, k - 1));
    }
  }

  lemma {:induction false} HexTextDigits(v: nat, k: nat)
    requires v < Pow(16, k)
    ensures forall i :: 0 <= i < k ==> HexText(v, k)[i] in DIGITS
    decreases k
  {
    if k > 0 {
      var d, low := HexSplit(v, k);
      HexTextDigits(low, k - 1);
      FromTable(d);
    }
  }

  lemma PowersOfTen()
    ensures Pow(10, 19) == 1_0000_0000_0000_0000_000 && Pow(10, 20) == 1_0000_0000_0000_0000_0000
  {
    assert Pow(10, 5) == 100000;
    PowAdd(10, 5, 5);
    PowAdd(10, 10, 5);
    PowAdd(10, 15, 5);
  }

  lemma PowersOfSixteen()
    ensures Pow(16, 15) == 0x1000_0000_0000_0000 && Pow(16, 16) == 0x1_0000_0000_0000_0000
  {
    assert Pow(16, 3) == 0x1000;
    PowAdd(16, 3, 3);
    PowAdd(16, 6, 6);
    PowAdd(16, 12, 3);
    PowAdd(16, 15, 1);
    assert Pow(16, 1) == 16;
  }

  /** The last digit and the numeral in front of it, which is empty for a single digit. */
  function Leading(x: nat, base: nat): string
    requires 2 <= base <= 16
  {
    if x == 0 then [] else Digits(x, base)
  }

  lemma LastDigit(x: nat, base: nat)
    requires 2 <= base <= 16
    ensures Digits(x, base) == Leading(x / base, base) + [DigitChar(x % base)]
    ensures x > 0 ==> x / base < x
  {
    if x < base {
      QuotientZero(x, base);
    } else {
      Quotient(x, base);
      QuotientPositive(x, base);
    }
  }

  /** What a division of the digit loop leaves, and the digit that it prints. */
  function Left(x: nat, base: nat): nat
    requires base > 0
  {
    x / base
  }

  function Printed(x: nat, base: nat): char
    requires 0 < base <= 16
  {
    DigitChar(x % base)
  }

  /** One division of the digit loop, on a number that fits in `e` decimal digits. */
  lemma DigitStep(x: nat, base: nat, e: nat)
    requires 10 <= base <= 16 && 0 < e && x < Pow(10, e)
    ensures Left(x, base) < Pow(10, e - 1)
    ensures Digits(x, base) == Leading(Left(x, base), base) + [Printed(x, base)]
    ensures x > 0 ==> Left(x, base) < x
  {
    QuotientIsShorter(x, base, e);
    LastDigit(x, base);
  }

  /** `tail` is what is still to be printed when its `k` digits sit at the top of the 64-bit `cur`. */
  ghost predicate StillToPrint(tail: string, k: nat, cur: nat) {
    exists rest: nat :: k <= 16 && rest < Pow(16, k) && cur == rest * Pow(16, 16 - k) && tail == HexText(rest, k)
  }

  /** Each shift moves the first digit of what is still to be printed out of the top. */
  lemma HexStep(tail: string, k: nat, cur: nat) returns (tail': string)
    requires 1 <= k <= 16 && StillToPrint(tail, k, cur)
    ensures cur / 0x1000_0000_0000_0000 < 16
    ensures tail == [DigitChar(cur / 0x1000_0000_0000_0000)] + tail'
    ensures StillToPrint(tail', k - 1, cur * 16 % 0x1_0000_0000_0000_0000)
  {
    var rest: nat :| rest < Pow(16, k) && cur == rest * Pow(16, 16 - k) && tail == HexText(rest, k);
    LeadingHexDigit(rest, k, cur);
    var rest': nat := rest % Pow(16, k - 1);
    tail' := HexText(rest', k - 1);
  }
}
