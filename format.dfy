/**
 * The two text renderings of integers the attribute formatter relies on:
 * `String.format("%08X", x)` and `Integer.toString(x)`. Each comes with the
 * reading that takes the text back to the number.
 */
module Format {
  import opened Jvm

  const MINUS: CodeUnit := 0x2D

  /** The code unit of a decimal digit. */
  function DigitUnit(d: nat): CodeUnit
    requires d < 10
  {
    (0x30 + d) as CodeUnit
  }

  /** The code unit of an upper-case hexadecimal digit. */
  function HexDigitUnit(d: nat): CodeUnit
    requires d < 16
  {
    if d < 10 then (0x30 + d) as CodeUnit else (0x41 + d - 10) as CodeUnit
  }

  /** The value of a decimal digit, or -1 for any other code unit. */
  function DigitValue(c: CodeUnit): int {
    if 0x30 <= c <= 0x39 then c as int - 0x30 else -1
  }

  /** The value of an upper-case hexadecimal digit, or -1 for any other code unit. */
  function HexDigitValue(c: CodeUnit): int {
    if 0x30 <= c <= 0x39 then c as int - 0x30
    else if 0x41 <= c <= 0x46 then c as int - 0x41 + 10
    else -1
  }

  predicate IsUpperHex(s: Units) {
    forall i | 0 <= i < |s| :: HexDigitValue(s[i]) >= 0
  }

  predicate IsDigits(s: Units) {
    |s| > 0 && forall i | 0 <= i < |s| :: DigitValue(s[i]) >= 0
  }

  /** The number a string of hexadecimal digits denotes, most significant first. */
  function HexValue(s: Units): int {
    if s == [] then 0 else HexValue(s[..|s| - 1]) * 16 + HexDigitValue(s[|s| - 1])
  }

  /** The number a string of decimal digits denotes, most significant first. */
  function DigitsValue(s: Units): int {
    if s == [] then 0 else DigitsValue(s[..|s| - 1]) * 10 + DigitValue(s[|s| - 1])
  }

  /** The number an optionally signed decimal numeral denotes. */
  function DecimalValue(s: Units): int {
    if |s| > 0 && s[0] == MINUS then -DigitsValue(s[1..]) else DigitsValue(s)
  }

  function Pow16(n: nat): nat {
    if n == 0 then 1 else 16 * Pow16(n - 1)
  }

  /** The `width` low hexadecimal digits of `u`, zero-padded, most significant first. */
  function HexFixed(u: nat, width: nat): (r: Units)
    ensures |r| == width
  {
    if width == 0 then [] else HexFixed(u / 16, width - 1) + [HexDigitUnit(u % 16)]
  }

  /** `String.format("%08X", x)` for a Java `int`: the unsigned bit pattern in 8 upper-case digits. */
  function Hex8(x: int): (r: Units)
    requires IsInt32(x)
    ensures |r| == 8
  {
    HexFixed(Unsigned32(x), 8)
  }

  /** The decimal digits of `n`, with no leading zero. */
  function DecimalDigits(n: nat): (r: Units)
    ensures |r| > 0
  {
    if n < 10 then [DigitUnit(n)] else DecimalDigits(n / 10) + [DigitUnit(n % 10)]
  }

  /** `Integer.toString(x)`: a minus sign for negative values, then the digits of the magnitude. */
  function Decimal(x: int): (r: Units)
    ensures |r| > 0
  {
    if x < 0 then [MINUS] + DecimalDigits(-x) else DecimalDigits(x)
  }

  lemma {:induction false} HexFixedRoundTrip(u: nat, width: nat)
    requires u < Pow16(width)
    ensures IsUpperHex(HexFixed(u, width))
    ensures HexValue(HexFixed(u, width)) == u
  {
    if width > 0 {
      HexFixedRoundTrip(u / 16, width - 1);
      var s := HexFixed(u, width);
      assert s[..|s| - 1] == HexFixed(u / 16, width - 1);
    }
  }

  /** `%08X` is read back exactly: eight upper-case digits whose value is the unsigned pattern. */
  lemma Hex8RoundTrip(x: int)
    requires IsInt32(x)
    ensures IsUpperHex(Hex8(x))
    ensures HexValue(Hex8(x)) == Unsigned32(x)
  {
    assert Pow16(8) == TWO_32;
    HexFixedRoundTrip(Unsigned32(x), 8);
  }

  lemma {:induction false} DecimalDigitsRoundTrip(n: nat)
    ensures IsDigits(DecimalDigits(n))
    ensures DigitsValue(DecimalDigits(n)) == n
    ensures n < 10 <==> |DecimalDigits(n)| == 1
    ensures |DecimalDigits(n)| > 1 ==> DigitValue(DecimalDigits(n)[0]) > 0
    ensures n > 0 ==> DigitValue(DecimalDigits(n)[0]) > 0
  {
    var s := DecimalDigits(n);
    if n < 10 {
      assert s[..|s| - 1] == [];
    } else {
      DecimalDigitsRoundTrip(n / 10);
      assert s[..|s| - 1] == DecimalDigits(n / 10);
    }
  }

  /**
   * A digit string with no leading zero (a lone "0" is allowed) is the one
   * `DecimalDigits` writes for its value; with two or more digits that value
   * is at least 10.
   */
  lemma {:induction false} DigitsUnique(d: Units)
    requires IsDigits(d)
    requires |d| > 1 ==> DigitValue(d[0]) > 0
    ensures DigitsValue(d) >= 0
    ensures |d| > 1 ==> DigitsValue(d) >= 10
    ensures d == DecimalDigits(DigitsValue(d))
  {
    var last := DigitValue(d[|d| - 1]);
    var init := d[..|d| - 1];
    if |d| == 1 {
      assert init == [];
      assert d == [DigitUnit(last)];
    } else {
      assert init[0] == d[0];
      DigitsUnique(init);
      var m := DigitsValue(init);
      assert m >= 1 by {
        if |init| == 1 {
          assert init[..0] == [];
        }
      }
      var n := m * 10 + last;
      assert n / 10 == m && n % 10 == last;
      assert d == init + [DigitUnit(last)];
    }
  }

  /**
   * `s` is the canonical decimal numeral of `x`, as `Integer.toString` writes
   * it: a minus sign exactly when `x` is negative, then digits denoting `x`
   * with no leading zero, so 0 is the single digit "0".
   */
  ghost predicate IsNumeral(s: Units, x: int) {
    && (|s| > 0 && s[0] == MINUS <==> x < 0)
    && DecimalValue(s) == x
    && var d := if x < 0 then s[1..] else s;
       IsDigits(d) && (|d| > 1 ==> DigitValue(d[0]) > 0)
  }

  /** `Integer.toString` is read back exactly, and never writes a leading zero. */
  lemma DecimalRoundTrip(x: int)
    ensures IsNumeral(Decimal(x), x)
  {
    if x < 0 {
      DecimalDigitsRoundTrip(-x);
      assert Decimal(x)[1..] == DecimalDigits(-x);
    } else {
      DecimalDigitsRoundTrip(x);
    }
  }

  /** The canonical numeral of `x` is unique: it is exactly what `Integer.toString` writes. */
  lemma NumeralUnique(s: Units, x: int)
    requires IsNumeral(s, x)
    ensures s == Decimal(x)
  {
    if x < 0 {
      DigitsUnique(s[1..]);
      assert s == [MINUS] + s[1..];
    } else {
      DigitsUnique(s);
    }
  }
}
