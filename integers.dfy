/**
 * Rust's fixed-width integer types and their `Display` text: base 10, no
 * leading zeros, a leading `-` for negative numbers. This is what
 * `format!("{}", n)` and `n.to_string()` produce for every integer the query
 * builder renders (SQL values and ORDER BY row numbers).
 */
module Integers {
  import opened Optional

  type i32 = x: int | -0x8000_0000 <= x < 0x8000_0000
  type i64 = x: int | -0x8000_0000_0000_0000 <= x < 0x8000_0000_0000_0000
  type i128 = x: int | -0x8000_0000_0000_0000_0000_0000_0000_0000 <= x < 0x8000_0000_0000_0000_0000_0000_0000_0000
  type u8 = x: int | 0 <= x < 0x100
  type u32 = x: int | 0 <= x < 0x1_0000_0000
  type u64 = x: int | 0 <= x < 0x1_0000_0000_0000_0000
  type u128 = x: int | 0 <= x < 0x1_0000_0000_0000_0000_0000_0000_0000_0000

  predicate IsDigit(ch: char) {
    '0' <= ch <= '9'
  }

  predicate AllDigits(s: string) {
    forall i :: 0 <= i < |s| ==> IsDigit(s[i])
  }

  function DigitChar(d: nat): (ch: char)
    requires d < 10
    ensures IsDigit(ch)
  {
    ('0' as int + d) as char
  }

  function DigitValue(ch: char): (d: nat)
    requires IsDigit(ch)
    ensures d < 10 && DigitChar(d) == ch
  {
    ch as int - '0' as int
  }

  /** Base-10 text of a natural number: at least one digit, and no leading zero unless the number is 0. */
  function NatToDecimal(n: nat): (r: string)
    ensures |r| >= 1 && AllDigits(r)
    ensures r[0] == '0' <==> n == 0
    ensures n < 10 <==> |r| == 1
    decreases n
  {
    (if n < 10 then "" else NatToDecimal(n / 10)) + [DigitChar(n % 10)]
  }

  /** The number a string of digits denotes, read most significant digit first. */
  function DecimalValue(s: string): nat
    requires AllDigits(s)
    decreases |s|
  {
    if s == [] then 0 else 10 * DecimalValue(s[..|s| - 1]) + DigitValue(s[|s| - 1])
  }

  /**
   * The shape of Rust's integer `Display` text: an optional `-`, then at
   * least one digit, with no leading zero and no sign on zero.
   */
  predicate IsCanonicalDecimal(s: string) {
    var d := if |s| >= 1 && s[0] == '-' then s[1..] else s;
    |d| >= 1 && AllDigits(d) && (d[0] == '0' ==> |d| == 1 && d == s)
  }

  /** Base-10 text of any integer, as Rust's `Display` writes it. */
  function IntToDecimal(i: int): (r: string)
    ensures IsCanonicalDecimal(r)
    ensures r[0] == '-' <==> i < 0
    ensures var d := if i < 0 then r[1..] else r; |d| >= 1 && AllDigits(d) && (d[0] == '0' <==> i == 0)
  {
    if i < 0 then
      var n := NatToDecimal(-i);
      assert ("-" + n)[1..] == n;
      "-" + n
    else
      NatToDecimal(i)
  }

  /** Reads back an optionally signed decimal numeral; anything else is `None`. */
  function ParseInt(s: string): Option<int> {
    if |s| >= 2 && s[0] == '-' && AllDigits(s[1..]) then Some(-(DecimalValue(s[1..]) as int))
    else if |s| >= 1 && AllDigits(s) then Some(DecimalValue(s))
    else None
  }

  lemma {:induction false} NatToDecimalRoundTrip(n: nat)
    ensures DecimalValue(NatToDecimal(n)) == n
    decreases n
  {
    var r := NatToDecimal(n);
    if n >= 10 {
      NatToDecimalRoundTrip(n / 10);
      assert r[..|r| - 1] == NatToDecimal(n / 10);
    } else {
      assert r[..|r| - 1] == [];
    }
  }

  /** Rendering an integer and reading it back gives the integer: the text determines the number. */
  lemma IntToDecimalRoundTrip(i: int)
    ensures ParseInt(IntToDecimal(i)) == Some(i)
  {
    if i < 0 {
      var n := NatToDecimal(-i);
      NatToDecimalRoundTrip(-i);
      assert IntToDecimal(i) == "-" + n;
      assert ("-" + n)[1..] == n;
    } else {
      var n := NatToDecimal(i);
      NatToDecimalRoundTrip(i);
      assert IntToDecimal(i) == n;
      assert IsDigit(n[0]);
    }
  }

  /** A leading digit bounds the value of a numeral from below. */
  lemma {:induction false} LeadingDigitBound(s: string)
    requires |s| >= 1 && AllDigits(s)
    ensures DecimalValue(s) >= DigitValue(s[0])
    decreases |s|
  {
    if |s| > 1 {
      var p := s[..|s| - 1];
      assert p[0] == s[0];
      LeadingDigitBound(p);
    }
  }

  /** A numeral without leading zeros is the decimal text of its own value. */
  lemma {:induction false} NatToDecimalOfNumeral(d: string)
    requires |d| >= 1 && AllDigits(d) && (d[0] == '0' ==> |d| == 1)
    ensures NatToDecimal(DecimalValue(d)) == d
    decreases |d|
  {
    var n := DecimalValue(d);
    if |d| == 1 {
      assert d[..|d| - 1] == [];
      assert DecimalValue(d[..|d| - 1]) == 0;
      assert n == DigitValue(d[0]);
    } else {
      var p := d[..|d| - 1];
      assert p[0] == d[0];
      assert AllDigits(p);
      LeadingDigitBound(p);
      NatToDecimalOfNumeral(p);
      assert n / 10 == DecimalValue(p) && n % 10 == DigitValue(d[|d| - 1]);
      assert d == p + [d[|d| - 1]];
    }
  }

  /**
   * The canonical text of an integer is unique: any canonical numeral is the
   * `Display` text of the number it parses to, so parsing back to the value
   * and being canonical together fix the rendering.
   */
  lemma CanonicalDecimalUnique(s: string)
    requires IsCanonicalDecimal(s)
    ensures ParseInt(s).Some? && s == IntToDecimal(ParseInt(s).value)
  {
    if |s| >= 1 && s[0] == '-' {
      NegativeNumeralUnique(s);
    } else {
      NatToDecimalOfNumeral(s);
      assert IsDigit(s[0]);
    }
  }

  lemma NegativeNumeralUnique(s: string)
    requires IsCanonicalDecimal(s) && |s| >= 1 && s[0] == '-'
    ensures ParseInt(s) == Some(-(DecimalValue(s[1..]) as int))
    ensures s == IntToDecimal(-(DecimalValue(s[1..]) as int))
  {
    var d := s[1..];
    NatToDecimalOfNumeral(d);
    LeadingDigitBound(d);
    assert DecimalValue(d) != 0;
    assert s == "-" + d;
  }

  /** Two different integers never render to the same text. */
  lemma IntToDecimalInjective(i: int, j: int)
    requires IntToDecimal(i) == IntToDecimal(j)
    ensures i == j
  {
    IntToDecimalRoundTrip(i);
    IntToDecimalRoundTrip(j);
  }
}
