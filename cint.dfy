/** C and C++ integer semantics the model needs: truncating division and the
    32-bit `int` range. */
module CInt {

  predicate IsInt32(x: int) { -0x8000_0000 <= x <= 0x7FFF_FFFF }

  /** C++ `a / b` for a positive divisor: the quotient truncates toward zero,
      where Dafny's `/` rounds toward negative infinity. */
  function Div(a: int, b: int): (q: int)
    requires b > 0
    ensures a >= 0 ==> q == a / b
    ensures a < 0 ==> q == -((-a) / b)
  {
    if a >= 0 then a / b else -((-a) / b)
  }
}
