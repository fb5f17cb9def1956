/**
 The fixed-width integer arithmetic of the sketch's C++ target.

 Every coordinate in the dashboard is stored in an `int16_t` or a `uint16_t`.
 The arithmetic itself happens in `int` after the usual promotions, and the
 store back into a 16-bit variable or parameter keeps the value modulo 2^16.
 Dafny integers are unbounded, so the conversions are written out here.
 */
module CInts {

  const MODULUS: int := 0x1_0000

  /** The least `int16_t` value; one past the greatest is `INT16_MIN + MODULUS`. */
  const INT16_MIN: int := -0x8000

  /** The values of `int16_t`. */
  type int16 = x: int | INT16_MIN <= x < INT16_MIN + MODULUS

  /** The values of `uint16_t`. */
  type uint16 = x: int | 0 <= x < MODULUS

  /** `x` fits in an `int16_t` without wrapping. */
  predicate InInt16(x: int) {
    INT16_MIN <= x < INT16_MIN + MODULUS
  }

  /** `x` fits in a `uint16_t` without wrapping. */
  predicate InUint16(x: int) {
    0 <= x < MODULUS
  }

  /** Conversion of an `int` to `int16_t`: the one `int16_t` value congruent
      to `x` modulo 2^16, which is `x` itself when `x` already fits. */
  function ToInt16(x: int): (r: int16)
    ensures InInt16(x) ==> r == x
    ensures (x - r) % MODULUS == 0
  {
    var m := (x - INT16_MIN) % MODULUS;
    assert x - (m + INT16_MIN) == MODULUS * ((x - INT16_MIN) / MODULUS);
    m + INT16_MIN
  }

  /** Conversion of an `int` to `uint16_t`: the one `uint16_t` value congruent
      to `x` modulo 2^16, which is `x` itself when `x` already fits. */
  function ToUint16(x: int): (r: uint16)
    ensures InUint16(x) ==> r == x
    ensures (x - r) % MODULUS == 0
  {
    assert x - x % MODULUS == MODULUS * (x / MODULUS);
    x % MODULUS
  }

  /** C++ `/` on `int` by a positive divisor: the quotient truncated toward
      zero, so the remainder `a - q * b` takes the sign of the dividend and is
      smaller than the divisor in magnitude. */
  function Quot(a: int, b: int): (q: int)
    requires b > 0
    ensures 0 <= a ==> 0 <= a - q * b < b
    ensures a < 0 ==> -b < a - q * b <= 0
  {
    if 0 <= a then
      a / b
    else
      var q0 := -a / b;
      assert -a == q0 * b + -a % b;
      -q0
  }

  /** `ToInt16` is the only narrowing there is: any `int16_t` value congruent
      to `x` modulo 2^16 is the one it returns. */
  lemma ToInt16Unique(x: int, r: int)
    requires InInt16(r) && (x - r) % MODULUS == 0
    ensures ToInt16(x) == r
  {
    var t := ToInt16(x);
    assert (t - r) % MODULUS == 0 by {
      assert t - r == (x - r) - (x - t);
    }
    assert -MODULUS < t - r < MODULUS;
  }

  /** Likewise for `uint16_t`. */
  lemma ToUint16Unique(x: int, r: int)
    requires InUint16(r) && (x - r) % MODULUS == 0
    ensures ToUint16(x) == r
  {
    var t := ToUint16(x);
    assert (t - r) % MODULUS == 0 by {
      assert t - r == (x - r) - (x - t);
    }
    assert -MODULUS < t - r < MODULUS;
  }

  /** The truncating quotient is determined by its remainder condition, so
      `Quot` is C++ division and nothing else; on a non-negative dividend it
      coincides with Dafny's `/`. */
  lemma QuotUnique(a: int, b: int, q: int)
    requires b > 0
    requires 0 <= a ==> 0 <= a - q * b < b
    requires a < 0 ==> -b < a - q * b <= 0
    ensures Quot(a, b) == q
    ensures 0 <= a ==> q == a / b
  {
    var t := Quot(a, b);
    var d := t - q;
    assert (a - q * b) - (a - t * b) == d * b;
  }
}
