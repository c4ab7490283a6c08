/**
 The few Kotlin standard-library values and functions the inventory code
 relies on: the 32-bit `Int`, a `Double` carried as its bit pattern,
 `Int.toString()` on non-negative values, and the blank-string helpers.
 The number parsers `toIntOrNull`/`toDoubleOrNull` are not re-implemented:
 callers receive them as a `Parsers` value.
 */
module KotlinTypes {
  import opened Wrappers

  const MIN_VALUE: int := -0x8000_0000
  const MAX_VALUE: int := 0x7FFF_FFFF

  /** Kotlin `Int`: a two's-complement 32-bit integer. */
  newtype Int32 = x: int | -0x8000_0000 <= x <= 0x7FFF_FFFF

  /** Reduces a mathematical integer to the `Int` it wraps around to. */
  function Wrap(x: int): (r: Int32)
    ensures (r as int - x) % 0x1_0000_0000 == 0
    ensures MIN_VALUE <= x <= MAX_VALUE ==> r as int == x
  {
    ((x - MIN_VALUE) % 0x1_0000_0000 + MIN_VALUE) as Int32
  }

  /** Kotlin `a + b` on `Int` (no overflow check: it wraps). */
  function Plus(a: Int32, b: Int32): (r: Int32)
    ensures MIN_VALUE <= a as int + b as int <= MAX_VALUE ==> r as int == a as int + b as int
    ensures a as int + b as int > MAX_VALUE ==> r as int == a as int + b as int - 0x1_0000_0000
    ensures a as int + b as int < MIN_VALUE ==> r as int == a as int + b as int + 0x1_0000_0000
  {
    Wrap(a as int + b as int)
  }

  /** Kotlin `a - b` on `Int` (wraps as well). */
  function Minus(a: Int32, b: Int32): (r: Int32)
    ensures MIN_VALUE <= a as int - b as int <= MAX_VALUE ==> r as int == a as int - b as int
    ensures a as int - b as int > MAX_VALUE ==> r as int == a as int - b as int - 0x1_0000_0000
    ensures a as int - b as int < MIN_VALUE ==> r as int == a as int - b as int + 0x1_0000_0000
  {
    Wrap(a as int - b as int)
  }

  /** A Kotlin `Double`, kept as its IEEE 754 binary64 bit pattern. No
      arithmetic is done on it: the inventory only stores and compares prices. */
  newtype Bits64 = x: int | 0 <= x < 0x1_0000_0000_0000_0000

  datatype Price = Price(bits: Bits64)

  /** `0.0` */
  const ZERO_PRICE: Price := Price(0)

  /** Kotlin's `String.toIntOrNull` and `String.toDoubleOrNull`, given by the
      caller: `None` stands for `null`, the parse failure. */
  datatype Parsers = Parsers(toIntOrNull: string -> Option<Int32>, toDoubleOrNull: string -> Option<Price>)

  /** `Char.isWhitespace()` on the JVM: `Character.isWhitespace` (the
      separators other than the no-break spaces, the ASCII controls tab to
      carriage return and the four information separators) or
      `Character.isSpaceChar` (every space, line and paragraph separator). */
  predicate IsWhitespace(c: char) {
    || c == ' '
    || ('\t' <= c <= '\r')
    || ('\U{001C}' <= c <= '\U{001F}')
    || c == '\U{00A0}'
    || c == '\U{1680}'
    || ('\U{2000}' <= c <= '\U{200A}')
    || c == '\U{2028}'
    || c == '\U{2029}'
    || c == '\U{202F}'
    || c == '\U{205F}'
    || c == '\U{3000}'
  }

  /** `CharSequence.isBlank()`, a scan for the first non-whitespace
      character: true for the empty string and for whitespace only. */
  predicate IsBlank(s: string): (r: bool)
    ensures r <==> forall i :: 0 <= i < |s| ==> IsWhitespace(s[i])
    decreases |s|
  {
    s == [] || (IsWhitespace(s[0]) && IsBlank(s[1..]))
  }

  /** `CharSequence.ifBlank { default }`. */
  function IfBlank(s: string, default: string): (r: string)
    ensures !IsBlank(s) ==> r == s
    ensures IsBlank(s) ==> r == default
    ensures !IsBlank(default) ==> !IsBlank(r)
  {
    if IsBlank(s) then default else s
  }

  predicate IsDigit(c: char) {
    '0' <= c <= '9'
  }

  function DigitChar(d: nat): (c: char)
    requires d < 10
    ensures IsDigit(c)
  {
    (('0' as int) + d) as char
  }

  function DigitValue(c: char): (d: nat)
    requires IsDigit(c)
    ensures d < 10 && DigitChar(d) == c
  {
    (c as int) - ('0' as int)
  }

  /** `Int.toString()` of a non-negative value: decimal digits, no sign and
      no leading zero. */
  function DecimalString(n: nat): (s: string)
    ensures |s| > 0
    ensures forall i :: 0 <= i < |s| ==> IsDigit(s[i])
    ensures s[0] == '0' ==> s == "0"
    ensures n < 10 <==> |s| == 1
    decreases n
  {
    if n < 10 then [DigitChar(n)] else DecimalString(n / 10) + [DigitChar(n % 10)]
  }

  /** The value a string of decimal digits denotes. */
  function DecimalValue(s: string): nat
    requires forall i :: 0 <= i < |s| ==> IsDigit(s[i])
    decreases |s|
  {
    if s == [] then 0 else DecimalValue(s[..|s| - 1]) * 10 + DigitValue(s[|s| - 1])
  }

  /** Reading back the decimal string of `n` gives `n`. */
  lemma {:induction false} DecimalRoundTrip(n: nat)
    ensures DecimalValue(DecimalString(n)) == n
    decreases n
  {
    var s := DecimalString(n);
    if n < 10 {
      assert DigitValue(DigitChar(n)) == n;
    } else {
      DecimalRoundTrip(n / 10);
      assert s[..|s| - 1] == DecimalString(n / 10);
      assert DigitValue(DigitChar(n % 10)) == n % 10;
    }
  }

  /** Distinct numbers have distinct decimal strings. */
  lemma DecimalStringInjective(m: nat, n: nat)
    ensures DecimalString(m) == DecimalString(n) <==> m == n
  {
    if DecimalString(m) == DecimalString(n) {
      DecimalRoundTrip(m);
      DecimalRoundTrip(n);
    }
  }
}
