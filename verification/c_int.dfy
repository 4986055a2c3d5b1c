/** C integer semantics the tone engine relies on: the fixed-width types it
    stores samples and counters in, truncating integer division, and the
    float-to-integer conversion used when a sample is stored. */
module CInt {

  const Int16Min: int := -0x8000
  const Int16Max: int := 0x7FFF
  const Int32Min: int := -0x8000_0000
  const Int32Max: int := 0x7FFF_FFFF

  /** A value of C's `int16_t`. */
  newtype int16 = x: int | Int16Min <= x <= Int16Max

  /** True when `x` fits in a 32-bit `int`, i.e. computing it in `int`
      arithmetic is not signed overflow. */
  predicate FitsInt32(x: int) {
    Int32Min <= x <= Int32Max
  }

  /** C's `/` on `int`: the quotient is truncated toward zero (Dafny's own
      `/` is Euclidean and differs for a negative dividend). Only positive
      divisors occur in the engine. */
  function CDiv(a: int, b: int): (q: int)
    requires b > 0
    ensures 0 <= a ==> 0 <= q && q * b <= a < (q + 1) * b
    ensures a < 0 ==> q <= 0 && (q - 1) * b < a <= q * b
  {
    if a >= 0 then
      DivBounds(a, b);
      a / b
    else
      DivBounds(-a, b);
      NegateProducts((-a) / b, b);
      -((-a) / b)
  }

  /** Dafny's `/` on a non-negative dividend and a positive divisor is floor
      division. */
  lemma DivBounds(m: int, b: int)
    requires 0 <= m && 0 < b
    ensures 0 <= m / b && (m / b) * b <= m < (m / b + 1) * b
  {
    var d := m / b;
    assert m == d * b + m % b;
    assert (d + 1) * b == d * b + b;
  }

  lemma NegateProducts(d: int, b: int)
    ensures (-d) * b == -(d * b)
    ensures (-d - 1) * b == -((d + 1) * b)
  {
  }

  /** C's conversion of a floating value to an integer type: the fraction is
      discarded, rounding toward zero. */
  function TruncateTowardZero(x: real): (r: int)
    ensures 0.0 <= x ==> 0 <= r && r as real <= x < r as real + 1.0
    ensures x < 0.0 ==> r <= 0 && r as real - 1.0 < x <= r as real
  {
    if x >= 0.0 then x.Floor else -((-x).Floor)
  }
}
