/** C++ integer division and remainder, which truncate toward zero (Dafny's
    `/` and `%` are Euclidean). */
module CInt {
  /** `a / b` in C++ for a positive divisor: the quotient rounded toward
      zero, so `b * q` is the multiple of `b` nearest to `a` on zero's side. */
  function Quot(a: int, b: int): (q: int)
    requires b > 0
    ensures a >= 0 ==> 0 <= q && b * q <= a < b * q + b
    ensures a < 0 ==> q <= 0 && b * q - b < a <= b * q
  {
    if a >= 0 then a / b else -((-a) / b)
  }

  /** For a non-negative dividend C++ and Dafny agree. */
  lemma QuotNonNeg(a: int, b: int)
    requires a >= 0 && b > 0
    ensures Quot(a, b) == a / b
  {
  }

  /** `a % b` in C++ for a positive divisor: the remainder has the sign of `a`. */
  function Rem(a: int, b: int): (r: int)
    requires b > 0
    ensures a == b * Quot(a, b) + r
    ensures a >= 0 ==> 0 <= r < b
    ensures a < 0 ==> -b < r <= 0
  {
    a - b * Quot(a, b)
  }
}
