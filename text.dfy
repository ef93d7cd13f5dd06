/** The text formatting the exports rely on: `str(n)` for counts, `:.2f`
    for percentages, the zero-padded fields of `strftime`, and Python's
    `in` on strings; each printer comes with the parser that inverts it. */
module Text {

  predicate IsDigit(c: char)
  {
    '0' <= c <= '9'
  }

  function DigitChar(d: nat): (c: char)
    requires d < 10
    ensures IsDigit(c)
  {
    (('0' as int) + d) as char
  }

  function DigitValue(c: char): nat
  {
    if IsDigit(c) then (c as int) - ('0' as int) else 0
  }

  /** `str(n)` for a non-negative integer. */
  function Decimal(n: nat): (s: string)
    ensures |s| >= 1
    ensures forall i :: 0 <= i < |s| ==> IsDigit(s[i])
  {
    if n < 10 then [DigitChar(n)] else Decimal(n / 10) + [DigitChar(n % 10)]
  }

  /** `int(s)` for a string of digits. */
  function ParseDecimal(s: string): nat
  {
    if s == [] then 0 else ParseDecimal(s[..|s| - 1]) * 10 + DigitValue(s[|s| - 1])
  }

  lemma {:induction false} DecimalRoundTrip(n: nat)
    ensures ParseDecimal(Decimal(n)) == n
  {
    if n >= 10 {
      DecimalRoundTrip(n / 10);
      var s := Decimal(n);
      assert s[..|s| - 1] == Decimal(n / 10);
    }
  }

  function Pow10(k: nat): nat
  {
    if k == 0 then 1 else 10 * Pow10(k - 1)
  }

  lemma {:induction false} DecimalLength(n: nat, k: nat)
    requires 1 <= k && n < Pow10(k)
    ensures |Decimal(n)| <= k
  {
    assert Pow10(1) == 10;
    if n >= 10 {
      DecimalLength(n / 10, k - 1);
    }
  }

  // ---------------------------------------------------------------------
  // Zero padding

  function Zeros(k: nat): (s: string)
    ensures |s| == k && forall i :: 0 <= i < k ==> s[i] == '0'
  {
    seq(k, _ => '0')
  }

  /** `n` in decimal, padded on the left with zeros to `width` characters,
      as `%Y`, `%m` and `%d` print their fields. */
  function Padded(n: nat, width: nat): string
  {
    var d := Decimal(n);
    if |d| >= width then d else Zeros(width - |d|) + d
  }

  lemma {:induction false} LeadingZeros(k: nat, d: string)
    ensures ParseDecimal(Zeros(k) + d) == ParseDecimal(d)
  {
    if d == [] {
      assert Zeros(k) + d == Zeros(k);
      ZerosParse(k);
    } else {
      var s := Zeros(k) + d;
      assert s[..|s| - 1] == Zeros(k) + d[..|d| - 1];
      LeadingZeros(k, d[..|d| - 1]);
    }
  }

  lemma {:induction false} ZerosParse(k: nat)
    ensures ParseDecimal(Zeros(k)) == 0
  {
    if k > 0 {
      assert Zeros(k)[..k - 1] == Zeros(k - 1);
      ZerosParse(k - 1);
    }
  }

  /** A value below 10^width prints in exactly `width` characters and
      parses back to itself. */
  lemma PaddedRoundTrip(n: nat, width: nat)
    requires 1 <= width && n < Pow10(width)
    ensures |Padded(n, width)| == width
    ensures forall i :: 0 <= i < width ==> IsDigit(Padded(n, width)[i])
    ensures ParseDecimal(Padded(n, width)) == n
  {
    DecimalLength(n, width);
    DecimalRoundTrip(n);
    LeadingZeros(width - |Decimal(n)|, Decimal(n));
  }

  // ---------------------------------------------------------------------
  // Two decimals

  /** The number of hundredths nearest to `x`, halves rounded up. */
  function Hundredths(x: real): (n: nat)
    requires x >= 0.0
    ensures (n as real) - 0.5 <= x * 100.0 < (n as real) + 0.5
  {
    (x * 100.0 + 0.5).Floor
  }

  /** `f"{x:.2f}"` */
  function Fixed2(x: real): string
  {
    if x < 0.0 then "-" + UnsignedFixed2(-x) else UnsignedFixed2(x)
  }

  function UnsignedFixed2(x: real): string
    requires x >= 0.0
  {
    var n := Hundredths(x);
    Decimal(n / 100) + "." + [DigitChar(n % 100 / 10), DigitChar(n % 10)]
  }

  /** `float(s)` for a string `<digits>.<digit><digit>`. */
  function ParseFixed2(s: string): real
    requires |s| >= 3
  {
    var whole := ParseDecimal(s[..|s| - 3]);
    ((whole * 100 + DigitValue(s[|s| - 2]) * 10 + DigitValue(s[|s| - 1])) as real) / 100.0
  }

  /** A non-negative value prints as `<digits>.<digit><digit>`, and parsing
      the text gives back the value rounded to the nearest hundredth. */
  lemma Fixed2RoundTrip(x: real)
    requires x >= 0.0
    ensures |Fixed2(x)| >= 4 && Fixed2(x)[|Fixed2(x)| - 3] == '.'
    ensures ParseFixed2(Fixed2(x)) * 100.0 == Hundredths(x) as real
    ensures -0.005 < ParseFixed2(Fixed2(x)) - x <= 0.005
  {
    var n := Hundredths(x);
    var s := Fixed2(x);
    assert s == Decimal(n / 100) + "." + [DigitChar(n % 100 / 10), DigitChar(n % 10)];
    assert s[..|s| - 3] == Decimal(n / 100);
    DecimalRoundTrip(n / 100);
    assert DigitValue(s[|s| - 2]) == n % 100 / 10;
    assert DigitValue(s[|s| - 1]) == n % 10;
    assert (n / 100) * 100 + (n % 100 / 10) * 10 + n % 10 == n;
  }

  // ---------------------------------------------------------------------
  // Substrings

  /** Python's `sub in s` on strings. */
  predicate Contains(s: string, sub: string)
  {
    exists i :: 0 <= i <= |s| - |sub| && OccursAt(s, sub, i)
  }

  predicate OccursAt(s: string, sub: string, i: int)
  {
    0 <= i <= |s| - |sub| && s[i..i + |sub|] == sub
  }
}
