/** The fixed-width integer arithmetic of the program (`int` is 32-bit two's complement). */
module Numeric {

  const IntMin: int := -0x8000_0000
  const IntMax: int := 0x7FFF_FFFF
  const Modulus32: int := 0x1_0000_0000

  predicate IsInt32(x: int) {
    IntMin <= x <= IntMax
  }

  /** The value an unchecked 32-bit addition or subtraction stores when the exact result is `x`. */
  function Wrap32(x: int): (r: int)
    ensures IsInt32(r)
    ensures (x - r) % Modulus32 == 0
    ensures IsInt32(x) ==> r == x
    ensures IntMax < x <= IntMax + Modulus32 ==> r == x - Modulus32
  {
    (x - IntMin) % Modulus32 + IntMin
  }

  function Min(a: int, b: int): (r: int)
    ensures r <= a && r <= b && (r == a || r == b)
  {
    if a <= b then a else b
  }

  function Max(a: int, b: int): (r: int)
    ensures r >= a && r >= b && (r == a || r == b)
  {
    if a >= b then a else b
  }

  /** `Math.Clamp(value, lo, hi)`; the library throws when `lo > hi`, which is excluded here. */
  function Clamp(value: int, lo: int, hi: int): (r: int)
    requires lo <= hi
    ensures lo <= r <= hi
    ensures lo <= value <= hi ==> r == value
    ensures value < lo ==> r == lo
    ensures hi < value ==> r == hi
  {
    if value < lo then lo else if hi < value then hi else value
  }

  /** Consecutive naturals have opposite parity. */
  lemma ParityFlips(n: nat)
    ensures ((n + 1) % 2 == 0) == (n % 2 != 0)
  {
  }
}
