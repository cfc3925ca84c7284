/** Small shared vocabulary: optional values, bytes, and the string tests
    Kotlin's standard library provides (isBlank, startsWith). */
module Common {

  datatype Option<+T> = None | Some(value: T)

  /** A Kotlin `Byte` seen as its unsigned value. */
  newtype byte = b: int | 0 <= b < 256

  /** `Char.isWhitespace()` of Kotlin/JVM: the ASCII controls TAB..CR and
      FS..US, and the Unicode space, line and paragraph separators. */
  predicate IsWhitespace(c: char)
  {
    || c == ' ' || ('\t' <= c <= '\r') || ('\U{1C}' <= c <= '\U{1F}')
    || c == '\U{A0}' || c == '\U{1680}' || ('\U{2000}' <= c <= '\U{200A}')
    || c == '\U{2028}' || c == '\U{2029}' || c == '\U{202F}' || c == '\U{205F}' || c == '\U{3000}'
  }

  /** `String.isBlank()`: empty or whitespace only. */
  predicate IsBlank(s: string)
  {
    forall i :: 0 <= i < |s| ==> IsWhitespace(s[i])
  }

  predicate StartsWith(s: string, prefix: string)
  {
    |prefix| <= |s| && s[..|prefix|] == prefix
  }

  /** `toByteArray()` of the header strings the program writes. They hold
      only ASCII characters, whose UTF-8 encoding is one byte equal to the
      code point; the model keeps the low eight bits of each code point. */
  function AsciiBytes(s: string): (r: seq<byte>)
    ensures |r| == |s|
    ensures forall i :: 0 <= i < |s| ==> r[i] == LowByte(s[i])
  {
    if s == [] then [] else [LowByte(s[0])] + AsciiBytes(s[1..])
  }

  /** The low eight bits of a code point: the code point itself below 256. */
  function LowByte(c: char): (b: byte)
    ensures c as int < 256 ==> b as int == c as int
  {
    if c as int < 256 then c as int as byte else (c as int % 256) as byte
  }

  /** Decimal rendering of a non-negative Kotlin `Int` (string template `${n}`). */
  function Decimal(n: nat): (s: string)
    ensures |s| >= 1
    ensures forall i :: 0 <= i < |s| ==> '0' <= s[i] <= '9'
    ensures |s| > 1 ==> s[0] != '0'
    decreases n
  {
    if n < 10 then [DigitChar(n)] else Decimal(n / 10) + [DigitChar(n % 10)]
  }

  function DigitChar(d: nat): (c: char)
    requires d < 10
    ensures '0' <= c <= '9' && c as int - '0' as int == d
  {
    ('0' as int + d) as char
  }

  /** Value of a string of decimal digits, read left to right. */
  function DigitsValue(s: string): nat
    requires forall i :: 0 <= i < |s| ==> '0' <= s[i] <= '9'
  {
    if s == [] then 0
    else DigitsValue(s[..|s| - 1]) * 10 + (s[|s| - 1] as int - '0' as int)
  }

  /** Reading back a rendered number gives the number. */
  lemma {:induction false} DecimalRoundTrip(n: nat)
    ensures DigitsValue(Decimal(n)) == n
    decreases n
  {
    if n >= 10 {
      DecimalRoundTrip(n / 10);
      var s := Decimal(n);
      assert s[..|s| - 1] == Decimal(n / 10);
    }
  }

  /** Distinct numbers render differently. */
  lemma DecimalInjective(m: nat, n: nat)
    requires Decimal(m) == Decimal(n)
    ensures m == n
  {
    DecimalRoundTrip(m);
    DecimalRoundTrip(n);
  }
}
