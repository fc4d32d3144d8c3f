/**
 * Kotlin's `Int`: a 32-bit two's-complement integer whose `+` and `-`
 * wrap around on overflow.
 */
module KotlinInt {

  const INT_MIN: int := -0x8000_0000
  const INT_MAX: int := 0x7fff_ffff
  const MODULUS: int := 0x1_0000_0000

  type Int32 = x: int | INT_MIN <= x <= INT_MAX

  /** The value a Kotlin `Int` holds after an operation whose exact result is `x`. */
  function Wrap32(x: int): (r: Int32)
    ensures (x - r) % MODULUS == 0
    ensures INT_MIN <= x <= INT_MAX ==> r == x
    ensures INT_MAX < x <= INT_MAX + MODULUS ==> r == x - MODULUS
    ensures INT_MIN - MODULUS <= x < INT_MIN ==> r == x + MODULUS
  {
    (x - INT_MIN) % MODULUS + INT_MIN
  }

  function Min(a: Int32, b: Int32): (r: Int32)
    ensures r <= a && r <= b && (r == a || r == b)
  {
    if a <= b then a else b
  }

  function Max(a: Int32, b: Int32): (r: Int32)
    ensures r >= a && r >= b && (r == a || r == b)
  {
    if a >= b then a else b
  }
}
