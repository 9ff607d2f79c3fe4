/** The few Java value semantics the harvester depends on: the `(short)` cast
    applied to calendar years, primitive `double` comparison, and the decimal
    rendering of an `int` in string concatenation.
 */
module JavaValues {

  /** Smallest and largest value of Java's 16-bit `short`. */
  const ShortMin: int := -32768
  const ShortMax: int := 32767

  /** Java's narrowing conversion `(short) x` of an `int`: keeps the low 16 bits,
      read as a two's-complement number. */
  function ToShort(x: int): (r: int)
    ensures ShortMin <= r <= ShortMax
    ensures (x - r) % 65536 == 0
    ensures ShortMin <= x <= ShortMax ==> r == x
  {
    (x - ShortMin) % 65536 + ShortMin
  }

  /** A Java `double` as far as the primitive `==` can tell values apart.
      Positive and negative zero compare equal under `==` and are both `Finite(0.0)`. */
  datatype JavaDouble = Finite(r: real) | PositiveInfinity | NegativeInfinity | NaN

  /** Java's primitive `a == b` on doubles: NaN is equal to nothing, itself included. */
  predicate DoubleEquals(a: JavaDouble, b: JavaDouble)
    ensures DoubleEquals(a, b) <==> a == b && !a.NaN?
  {
    !a.NaN? && !b.NaN? && a == b
  }

  /** The character of a decimal digit. */
  function DigitChar(d: nat): (c: char)
    requires d < 10
    ensures '0' <= c <= '9'
    ensures c as int - '0' as int == d
  {
    ('0' as int + d) as char
  }

  predicate IsDigits(s: string)
  {
    forall i :: 0 <= i < |s| ==> '0' <= s[i] <= '9'
  }

  /** Decimal rendering of a non-negative `int`, as `"" + n` produces it in Java:
      at least one digit and no leading zero. */
  function NatToString(n: nat): (s: string)
    ensures |s| > 0 && IsDigits(s)
    ensures |s| > 1 ==> s[0] != '0'
    decreases n
  {
    if n < 10 then [DigitChar(n)] else NatToString(n / 10) + [DigitChar(n % 10)]
  }

  /** The number a string of decimal digits denotes; the reference reading of `NatToString`. */
  function DecimalValue(s: string): nat
    requires IsDigits(s)
  {
    if |s| == 0 then 0
    else DecimalValue(s[..|s| - 1]) * 10 + (s[|s| - 1] as int - '0' as int)
  }

  /** Reading back the decimal rendering of `n` gives `n`. */
  lemma {:induction false} DecimalRoundTrip(n: nat)
    ensures DecimalValue(NatToString(n)) == n
    decreases n
  {
    if n >= 10 {
      DecimalRoundTrip(n / 10);
      var s := NatToString(n);
      assert s[..|s| - 1] == NatToString(n / 10);
    }
  }
}
