/**
 * Positional numerals in bases 2..16, as produced by the .NET format strings
 * `{n:x4}` (lower-case hexadecimal, at least four digits) and `{n:0000}`
 * (decimal, at least four digits), and as read back by
 * `int.TryParse(s, NumberStyles.HexNumber, ...)`.
 */
module Numerals {
  import opened Wrappers

  /** Digit characters in order of value; formatting only ever emits these (lower case). */
  const Alphabet: string := "0123456789abcdef"

  /** Smallest value that no longer fits in a signed 32-bit `int`. */
  const Int32Limit: int := 0x8000_0000
  /** Number of distinct 32-bit patterns. */
  const Word32: int := 0x1_0000_0000
  /** Longest hexadecimal numeral that fits a 32-bit `int`. */
  const MaxHexDigits: nat := 8

  predicate IsBase(base: nat) {
    2 <= base <= 16
  }

  /** Value of a single digit character; both letter cases are accepted, as the parser does. */
  function CharValue(c: char): (r: Option<nat>)
    ensures r.Some? ==> r.value < 16
    ensures c in Alphabet ==> r.Some? && Alphabet[r.value] == c
    ensures r.Some? && Alphabet[r.value] != c ==> 'A' <= c <= 'F'
  {
    if '0' <= c <= '9' then Some(c as int - '0' as int)
    else if 'a' <= c <= 'f' then Some(c as int - 'a' as int + 10)
    else if 'A' <= c <= 'F' then Some(c as int - 'A' as int + 10)
    else None
  }

  predicate IsDigit(c: char, base: nat) {
    CharValue(c).Some? && CharValue(c).value < base
  }

  /** Text that `int.TryParse` with `NumberStyles.HexNumber` accepts, in this model. */
  predicate ParsesAsHex(s: string) {
    1 <= |s| <= MaxHexDigits && IsNumeral(s, 16)
  }

  /** A (possibly empty) string of digits of `base`. */
  predicate IsNumeral(s: string, base: nat) {
    forall i :: 0 <= i < |s| ==> IsDigit(s[i], base)
  }

  /** Every character is one of the lower-case digits of `base`. */
  predicate IsLowerNumeral(s: string, base: nat)
    requires base <= 16
  {
    forall i :: 0 <= i < |s| ==> s[i] in Alphabet[..base]
  }

  function DigitChar(d: nat): (c: char)
    requires d < 16
    ensures CharValue(c) == Some(d)
  {
    Alphabet[d]
  }

  function Pow(base: nat, k: nat): (p: nat)
    ensures base >= 1 ==> p >= 1
  {
    if k == 0 then 1 else base * Pow(base, k - 1)
  }

  /** Value of a numeral, most significant digit first; the empty numeral is 0. */
  function Value(s: string, base: nat): nat
    requires IsNumeral(s, base)
  {
    if |s| == 0 then 0
    else Value(s[..|s| - 1], base) * base + CharValue(s[|s| - 1]).value
  }

  /** Shortest numeral of `n`: no leading zero, and "0" for zero. */
  function Digits(n: nat, base: nat): (s: string)
    requires IsBase(base)
    ensures 1 <= |s|
    ensures IsNumeral(s, base) && IsLowerNumeral(s, base)
    ensures Value(s, base) == n
    ensures |s| == 1 || s[0] != '0'
    decreases n
  {
    if n < base then
      LowerDigit(n, base);
      [DigitChar(n)]
    else
      DivMod(n, base);
      var front := Digits(n / base, base);
      AppendDigit(front, n % base, base);
      NonZeroLead(front, base);
      front + [DigitChar(n % base)]
  }

  /** A numeral of positive value without a leading zero (beyond a lone digit) does not start with '0'. */
  lemma NonZeroLead(front: string, base: nat)
    requires IsBase(base) && IsNumeral(front, base) && 1 <= |front|
    requires |front| == 1 || front[0] != '0'
    requires Value(front, base) >= 1
    ensures front[0] != '0'
  {
    if |front| == 1 {
      assert front[..0] == "";
    }
  }

  /** Appending digit d multiplies the value by the base and adds d. */
  lemma AppendDigit(front: string, d: nat, base: nat)
    requires IsBase(base) && d < base
    requires IsNumeral(front, base) && IsLowerNumeral(front, base)
    ensures IsNumeral(front + [DigitChar(d)], base)
    ensures IsLowerNumeral(front + [DigitChar(d)], base)
    ensures Value(front + [DigitChar(d)], base) == Value(front, base) * base + d
  {
    var s := front + [DigitChar(d)];
    assert s[..|s| - 1] == front;
    LowerDigit(d, base);
    assert forall i :: 0 <= i < |front| ==> s[i] == front[i];
  }

  lemma LowerDigit(d: nat, base: nat)
    requires d < base <= 16
    ensures Alphabet[d] in Alphabet[..base]
  {
    assert Alphabet[..base][d] == Alphabet[d];
  }

  lemma DivMod(n: nat, base: nat)
    requires 2 <= base <= n
    ensures (n / base) * base + n % base == n
    ensures 0 <= n % base < base
    ensures 1 <= n / base < n
  {
  }

  function Zeros(k: nat): (z: string)
    ensures |z| == k
    ensures forall i :: 0 <= i < k ==> z[i] == '0'
  {
    if k == 0 then "" else "0" + Zeros(k - 1)
  }

  /**
   * `n` written in `base` with at least `width` digits, padded with leading
   * zeros: the behaviour of the custom format `{n:0000}` (base 10, width 4)
   * and of the standard format `{n:x4}` (base 16, width 4) for n >= 0.
   */
  function Format(n: nat, base: nat, width: nat): (s: string)
    requires IsBase(base)
    ensures IsNumeral(s, base) && IsLowerNumeral(s, base)
    ensures |s| == if |Digits(n, base)| < width then width else |Digits(n, base)|
    ensures Value(s, base) == n
  {
    var d := Digits(n, base);
    var pad := if |d| < width then width - |d| else 0;
    ZerosPrefixValue(pad, d, base);
    Zeros(pad) + d
  }

  /** Leading zeros do not change a numeral's value. */
  lemma {:induction false} ZerosPrefixValue(k: nat, s: string, base: nat)
    requires IsBase(base) && IsNumeral(s, base)
    ensures IsNumeral(Zeros(k) + s, base)
    ensures Value(Zeros(k) + s, base) == Value(s, base)
    decreases |s|
  {
    var t := Zeros(k) + s;
    assert IsNumeral(t, base) by {
      forall i | 0 <= i < |t| ensures IsDigit(t[i], base) {
        if i < k { assert t[i] == '0'; } else { assert t[i] == s[i - k]; }
      }
    }
    if |s| == 0 {
      assert t == Zeros(k);
      ZerosValue(k, base);
    } else {
      var s' := s[..|s| - 1];
      assert t[..|t| - 1] == Zeros(k) + s';
      ZerosPrefixValue(k, s', base);
    }
  }

  lemma {:induction false} ZerosValue(k: nat, base: nat)
    requires IsBase(base)
    ensures IsNumeral(Zeros(k), base)
    ensures Value(Zeros(k), base) == 0
  {
    if k > 0 {
      var z := Zeros(k);
      assert z[..k - 1] == Zeros(k - 1);
      ZerosValue(k - 1, base);
    }
  }

  /** A numeral of `k` digits denotes a value below base^k. */
  lemma {:induction false} ValueBound(s: string, base: nat)
    requires IsBase(base) && IsNumeral(s, base)
    ensures Value(s, base) < Pow(base, |s|)
    decreases |s|
  {
    if |s| > 0 {
      var s' := s[..|s| - 1];
      ValueBound(s', base);
      var d := CharValue(s[|s| - 1]).value;
      StepBound(Value(s', base), d, Pow(base, |s'|), base);
    }
  }

  /** Appending a digit to a numeral below p gives a numeral below p * base. */
  lemma StepBound(v: nat, d: nat, p: nat, base: nat)
    requires v < p && d < base
    ensures v * base + d < base * p
  {
    assert v * base <= (p - 1) * base;
  }

  /** Values below base^k need at most k digits (k >= 1). */
  lemma {:induction false} DigitsLength(n: nat, base: nat, k: nat)
    requires IsBase(base) && 1 <= k && n < Pow(base, k)
    ensures |Digits(n, base)| <= k
    decreases k
  {
    if n >= base {
      assert k >= 2;
      DivBelow(n, base, Pow(base, k - 1));
      DigitsLength(n / base, base, k - 1);
    }
  }

  lemma DivBelow(n: nat, base: nat, p: nat)
    requires 1 <= base && n < base * p
    ensures n / base < p
  {
  }

  /**
   * `int.TryParse(s, NumberStyles.HexNumber, CultureInfo.InvariantCulture, out v)`:
   * succeeds on one to eight hexadecimal digits of either case; the 32-bit
   * pattern is read as a two's-complement `int`, so eight digits with the
   * high bit set give a negative value.
   */
  function TryParseHex(s: string): (r: Option<int>)
    ensures r.Some? <==> ParsesAsHex(s)
    ensures r.Some? ==> -Int32Limit <= r.value < Int32Limit
    ensures r.Some? ==> (r.value - Value(s, 16)) % Word32 == 0
  {
    if 1 <= |s| <= MaxHexDigits && IsNumeral(s, 16) then
      ValueBound(s, 16);
      PowMonotone(16, |s|, MaxHexDigits);
      HexPowers();
      var v := Value(s, 16);
      Some(if v < Int32Limit then v else v - Word32)
    else None
  }

  lemma {:induction false} PowMonotone(base: nat, j: nat, k: nat)
    requires 1 <= base && j <= k
    ensures Pow(base, j) <= Pow(base, k)
    decreases k
  {
    if j < k {
      PowMonotone(base, j, k - 1);
      MulGrow(Pow(base, k - 1), base);
    }
  }

  lemma MulGrow(p: nat, base: nat)
    requires 1 <= base
    ensures p <= base * p
  {
  }

  /** The leading digit d of a numeral places its value in [d * base^(k-1), (d+1) * base^(k-1)). */
  lemma {:induction false} LeadingDigitBounds(s: string, base: nat)
    requires IsBase(base) && IsNumeral(s, base) && |s| >= 1
    ensures CharValue(s[0]).value * Pow(base, |s| - 1) <= Value(s, base)
    ensures Value(s, base) < (CharValue(s[0]).value + 1) * Pow(base, |s| - 1)
    decreases |s|
  {
    if |s| > 1 {
      var s' := s[..|s| - 1];
      assert s'[0] == s[0];
      LeadingDigitBounds(s', base);
      var d0 := CharValue(s[0]).value;
      var p := Pow(base, |s'| - 1);
      assert Pow(base, |s| - 1) == base * p;
      ScaleBounds(d0 * p, Value(s', base), (d0 + 1) * p, CharValue(s[|s| - 1]).value, base);
      Rearrange(d0, p, base);
      Rearrange(d0 + 1, p, base);
    }
  }

  lemma ScaleBounds(lo: nat, v: nat, hi: nat, d: nat, base: nat)
    requires lo <= v < hi && d < base
    ensures lo * base <= v * base + d < hi * base
  {
    assert lo * base <= v * base;
    assert v * base <= (hi - 1) * base;
  }

  lemma Rearrange(a: nat, p: nat, base: nat)
    ensures (a * p) * base == a * (base * p)
  {
  }

  /**
   * The parsed value is negative exactly when all eight digits are present
   * and the leading one has its high bit set.
   */
  lemma HexSign(s: string)
    requires 1 <= |s| <= MaxHexDigits && IsNumeral(s, 16)
    ensures TryParseHex(s).Some?
    ensures TryParseHex(s).value < 0 <==> |s| == MaxHexDigits && CharValue(s[0]).value >= 8
    ensures |s| < MaxHexDigits ==> TryParseHex(s).value == Value(s, 16)
  {
    HexPowers();
    if |s| < MaxHexDigits {
      ShortHexParse(s);
    } else {
      LeadingDigitBounds(s, 16);
      var d0 := CharValue(s[0]).value;
      if d0 >= 8 {
        assert d0 * Pow(16, 7) >= 8 * Pow(16, 7);
      } else {
        assert (d0 + 1) * Pow(16, 7) <= 8 * Pow(16, 7);
      }
    }
  }

  /** Parsing a hexadecimal numeral of at most seven digits gives back its value. */
  lemma ShortHexParse(s: string)
    requires 1 <= |s| < MaxHexDigits && IsNumeral(s, 16)
    ensures TryParseHex(s) == Some(Value(s, 16))
  {
    ValueBound(s, 16);
    PowMonotone(16, |s|, MaxHexDigits - 1);
    HexPowers();
  }

  lemma HexPowers()
    ensures Pow(16, 4) == 0x1_0000
    ensures Pow(16, 7) == 0x1000_0000
    ensures Pow(16, 8) == Word32
  {
    assert Pow(16, 1) == 16;
    assert Pow(16, 2) == 0x100;
    assert Pow(16, 3) == 0x1000;
    assert Pow(16, 4) == 0x1_0000;
    assert Pow(16, 5) == 0x10_0000;
    assert Pow(16, 6) == 0x100_0000;
    assert Pow(16, 7) == 0x1000_0000;
  }

  /** `{n:x4}` round-trips through the hexadecimal parser for every n below 16^4. */
  lemma HexFormatRoundTrip(n: nat)
    requires n < Pow(16, 4)
    ensures |Format(n, 16, 4)| == 4
    ensures TryParseHex(Format(n, 16, 4)) == Some(n)
  {
    DigitsLength(n, 16, 4);
    ShortHexParse(Format(n, 16, 4));
  }

  /** A single-digit value is written as zeros followed by its digit. */
  lemma FormatOneDigit(d: nat, base: nat, width: nat)
    requires IsBase(base) && d < base && 1 <= width
    ensures Format(d, base, width) == Zeros(width - 1) + [Alphabet[d]]
  {
  }

  /** `{1000:x4}` is "03e8": the largest power value needs no fifth digit. */
  lemma Thousand()
    ensures Format(1000, 16, 4) == "03e8"
  {
    assert Digits(3, 16) == "3";
    assert Digits(62, 16) == Digits(3, 16) + [Alphabet[14]];
    assert Digits(1000, 16) == Digits(62, 16) + [Alphabet[8]];
    assert Digits(1000, 16) == "3e8";
    assert Zeros(1) == "0";
  }
}
