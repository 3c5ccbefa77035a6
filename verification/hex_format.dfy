/**
 Lower-case hexadecimal rendering of numbers: the `{:02x}` rendering of one
 byte and the `{:06x}` rendering of a row offset that the hex dump of the
 Kamen Rider gate device uses, together with the reading of such text back
 into numbers.
 */
module HexFormat {

  /** An unsigned 8-bit value (`uint8`). */
  type Byte = b: int | 0 <= b < 0x100

  /** The characters the formatter emits for digits: `0`-`9` and lower-case `a`-`f`. */
  predicate IsHexDigit(c: char) {
    '0' <= c <= '9' || 'a' <= c <= 'f'
  }

  predicate AllHexDigits(s: string) {
    forall i :: 0 <= i < |s| ==> IsHexDigit(s[i])
  }

  /** The value of one hexadecimal digit. */
  function DigitValue(c: char): (v: nat)
    requires IsHexDigit(c)
    ensures v < 16
  {
    if c <= '9' then c as int - '0' as int else c as int - 'a' as int + 10
  }

  /** The lower-case digit for a nibble; reading it back gives the nibble. */
  function HexDigit(n: nat): (c: char)
    requires n < 16
    ensures IsHexDigit(c) && DigitValue(c) == n
  {
    if n < 10 then ('0' as int + n) as char else ('a' as int + n - 10) as char
  }

  /** `{:02x}` of a byte: exactly two lower-case digits, high nibble first. */
  function HexByte(b: Byte): (s: string)
    ensures |s| == 2 && IsHexDigit(s[0]) && IsHexDigit(s[1])
    ensures 16 * DigitValue(s[0]) + DigitValue(s[1]) == b
  {
    [HexDigit(b / 16), HexDigit(b % 16)]
  }

  /** The number a string of hexadecimal digits denotes, most significant digit first. */
  function HexValue(s: string): nat
    requires AllHexDigits(s)
  {
    if s == [] then 0 else 16 * HexValue(s[..|s| - 1]) + DigitValue(s[|s| - 1])
  }

  function Pow16(k: nat): (p: nat)
    ensures p >= 1
  {
    if k == 0 then 1 else 16 * Pow16(k - 1)
  }

  /**
   `{:0<width>x}` of a number: its lower-case hexadecimal digits, left-padded
   with `0` to at least `width` digits. The text reads back as the number; it
   is exactly `width` digits long when the number fits in that many, and it
   carries no `0` beyond the padding.
   */
  function PaddedHex(n: nat, width: nat): (s: string)
    ensures AllHexDigits(s) && HexValue(s) == n
    ensures |s| >= 1 && |s| >= width
    ensures 1 <= width && n < Pow16(width) ==> |s| == width
    ensures n > 0 && |s| > width ==> s[0] != '0'
    decreases n + width
  {
    if n < 16 && width <= 1 then [HexDigit(n)]
    else PaddedHex(n / 16, if width == 0 then 0 else width - 1) + [HexDigit(n % 16)]
  }

  /**
   `{:06x}`: the offset of a row, in lower-case hex, zero-padded to at least
   six digits; an offset too large for six digits carries no leading zero.
   */
  function Offset(n: nat): (s: string)
    ensures AllHexDigits(s) && HexValue(s) == n && |s| >= 6
    ensures n < 0x100_0000 ==> |s| == 6
    ensures n >= 0x100_0000 ==> s[0] != '0'
  {
    assert Pow16(6) == 0x100_0000;
    var s := PaddedHex(n, 6);
    HexValueBound(s);
    s
  }

  /** A string of `k` hexadecimal digits denotes a number below 16^k. */
  lemma {:induction false} HexValueBound(s: string)
    requires AllHexDigits(s)
    ensures HexValue(s) < Pow16(|s|)
  {
    if s != [] {
      HexValueBound(s[..|s| - 1]);
    }
  }
}
