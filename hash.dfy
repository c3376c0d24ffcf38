/**
 * The string hash that names calendar events: a Java-style `31 * h + unit`
 * fold over UTF-16 code units, kept in 32-bit two's complement, whose
 * absolute value is printed in base 36 (`Math.abs(hash).toString(36)`).
 */
module Hash {

  import opened Utf

  const TwoTo31: int := 0x8000_0000
  const TwoTo32: int := 0x1_0000_0000

  predicate IsInt32(x: int) {
    -TwoTo31 <= x < TwoTo31
  }

  /** ECMAScript ToInt32: the 32-bit two's complement value congruent to `x`. */
  function ToInt32(x: int): (r: int)
    ensures IsInt32(r)
    ensures (x - r) % TwoTo32 == 0
  {
    var m := x % TwoTo32;
    if m >= TwoTo31 then m - TwoTo32 else m
  }

  /** Congruent integers wrap to the same 32-bit value. */
  lemma ToInt32Congruent(x: int, y: int)
    requires (x - y) % TwoTo32 == 0
    ensures ToInt32(x) == ToInt32(y)
  {
    var k := (x - y) / TwoTo32;
    assert x == y + k * TwoTo32;
    ModShift(y, k);
  }

  lemma ModShift(y: int, k: int)
    ensures (y + k * TwoTo32) % TwoTo32 == y % TwoTo32
  {
  }

  /**
   * One pass of the loop body: `hash = ((hash << 5) - hash) + char` and then
   * `hash = hash & hash`. The shift works on the 32-bit value of `hash`; the
   * bitwise and wraps the sum back to 32 bits.
   */
  function Step(hash: int, unit: int): (next: int)
    ensures IsInt32(next)
  {
    ToInt32(ToInt32(hash * 32) - hash + unit)
  }

  /** The step is `31 * hash + unit`, wrapped to 32 bits. */
  lemma StepIsTimes31(hash: int, unit: int)
    ensures Step(hash, unit) == ToInt32(31 * hash + unit)
  {
    var s := ToInt32(hash * 32);
    assert (hash * 32 - s) % TwoTo32 == 0;
    ToInt32Congruent(s - hash + unit, 31 * hash + unit);
  }

  /** The accumulator after the loop has consumed `units`, starting from 0. */
  function Fold(units: seq<int>): (h: int)
    ensures IsInt32(h)
  {
    if units == [] then 0 else Step(Fold(units[..|units| - 1]), units[|units| - 1])
  }

  /** The same hash without wrap-around: the base-31 polynomial of the units. */
  function Polynomial(units: seq<int>): int {
    if units == [] then 0 else 31 * Polynomial(units[..|units| - 1]) + units[|units| - 1]
  }

  /** The loop computes the Java `String.hashCode` polynomial, reduced to 32 bits. */
  lemma {:induction false} FoldIsPolynomial(units: seq<int>)
    ensures Fold(units) == ToInt32(Polynomial(units))
  {
    if units != [] {
      var init, last := units[..|units| - 1], units[|units| - 1];
      FoldIsPolynomial(init);
      var h, p := Fold(init), Polynomial(init);
      StepIsTimes31(h, last);
      assert (p - h) % TwoTo32 == 0;
      var k := (p - h) / TwoTo32;
      assert 31 * p + last == 31 * h + last + (31 * k) * TwoTo32;
      ModShift(31 * h + last, 31 * k);
      ToInt32Congruent(31 * p + last, 31 * h + last);
    }
  }

  function Abs(x: int): nat {
    if x < 0 then -x else x
  }

  /** Lower-case base-36 digit, as `toString(36)` prints it. */
  function Digit36(d: nat): (c: char)
    requires d < 36
    ensures IsDigit36(c)
  {
    if d < 10 then ('0' as int + d) as char else ('a' as int + (d - 10)) as char
  }

  predicate IsDigit36(c: char) {
    ('0' <= c <= '9') || ('a' <= c <= 'z')
  }

  function ValueOfDigit36(c: char): (d: nat)
    requires IsDigit36(c)
    ensures d < 36
  {
    if c <= '9' then c as int - '0' as int else c as int - 'a' as int + 10
  }

  /** `n.toString(36)` for a non-negative integer: no leading zeros, "0" for zero. */
  function ToBase36(n: nat): (s: string)
    ensures s != []
    ensures forall i :: 0 <= i < |s| ==> IsDigit36(s[i])
    ensures s[0] == '0' ==> n == 0 && s == "0"
  {
    if n < 36 then [Digit36(n)] else ToBase36(n / 36) + [Digit36(n % 36)]
  }

  /** Value of a base-36 numeral. */
  function FromBase36(s: string): nat
    requires forall i :: 0 <= i < |s| ==> IsDigit36(s[i])
  {
    if s == [] then 0 else FromBase36(s[..|s| - 1]) * 36 + ValueOfDigit36(s[|s| - 1])
  }

  /** Reading the numeral back gives the number, so distinct values print differently. */
  lemma {:induction false} Base36RoundTrip(n: nat)
    ensures FromBase36(ToBase36(n)) == n
  {
    if n >= 36 {
      var s := ToBase36(n);
      Base36RoundTrip(n / 36);
      assert s[..|s| - 1] == ToBase36(n / 36);
    }
  }

  /** `hashCode(str)`: the base-36 absolute value of the 32-bit fold over the UTF-16 units. */
  function HashOf(s: string): string {
    ToBase36(Abs(Fold(Utf16(s))))
  }

  /** `hashCode`: the loop over `charCodeAt(i)` with the 32-bit accumulator. */
  method HashCode(s: string) returns (r: string)
    ensures r == HashOf(s)
  {
    var units := Utf16(s);
    var hash := 0;
    var i := 0;
    while i < |units|
      invariant 0 <= i <= |units|
      invariant hash == Fold(units[..i])
    {
      assert units[..i + 1][..i] == units[..i];
      var shifted := ToInt32(hash * 32);
      hash := ToInt32(shifted - hash + units[i]);
      i := i + 1;
    }
    assert units[..i] == units;
    r := ToBase36(Abs(hash));
  }

  /** A hash is a non-empty lower-case base-36 numeral of a value at most 2^31. */
  lemma HashShape(s: string)
    ensures HashOf(s) != []
    ensures forall i :: 0 <= i < |HashOf(s)| ==> IsDigit36(HashOf(s)[i])
    ensures FromBase36(HashOf(s)) <= TwoTo31
  {
    Base36RoundTrip(Abs(Fold(Utf16(s))));
  }

  lemma HashOfEmpty()
    ensures HashOf("") == "0"
  {
  }
}
