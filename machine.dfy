/** The C# integer semantics the viewer's arithmetic runs under: 32-bit
    unsigned shell properties, the unchecked `(int)` cast of a `uint`, and
    division and remainder that truncate toward zero. */
module Machine {

  const TwoTo31: int := 0x8000_0000
  const TwoTo32: int := 0x1_0000_0000

  /** A value of C#'s `uint`. */
  type UInt32 = n: int | 0 <= n < 0x1_0000_0000

  /** A value C#'s `int` can hold. */
  predicate IsInt32(i: int) { -TwoTo31 <= i < TwoTo31 }

  /** A value of C#'s `int`. */
  type Int32 = i: int | -0x8000_0000 <= i < 0x8000_0000

  /** The unchecked `(int)` cast of a `uint`: the same 32 bits read as two's
      complement. */
  function UncheckedInt32(u: UInt32): (i: int)
    ensures IsInt32(i)
    ensures u < TwoTo31 ==> i == u
    ensures u >= TwoTo31 ==> i == u - TwoTo32 && i < 0
  {
    if u < TwoTo31 then u else u - TwoTo32
  }

  /** C#'s integer `/`: the quotient truncated toward zero. */
  function TruncDiv(a: int, b: int): (q: int)
    requires b != 0
    ensures a >= 0 && b > 0 ==> q == a / b
  {
    var m := (if a < 0 then -a else a) / (if b < 0 then -b else b);
    if (a < 0) == (b < 0) then m else -m
  }

  /** C#'s integer `%`: the remainder that goes with `TruncDiv`, carrying the
      sign of the dividend. */
  function TruncRem(a: int, b: int): (r: int)
    requires b != 0
    ensures a >= 0 && b > 0 ==> r == a % b
  {
    a - b * TruncDiv(a, b)
  }

  /** The two truncating operations split the dividend, and the remainder is
      smaller than the divisor and never of the opposite sign to the dividend. */
  lemma TruncDivision(a: int, b: int)
    requires b != 0
    ensures a == b * TruncDiv(a, b) + TruncRem(a, b)
    ensures -(if b < 0 then -b else b) < TruncRem(a, b) < (if b < 0 then -b else b)
    ensures a >= 0 ==> TruncRem(a, b) >= 0
    ensures a <= 0 ==> TruncRem(a, b) <= 0
  {
    var ua := if a < 0 then -a else a;
    var ub := if b < 0 then -b else b;
    var m := ua / ub;
    var r := ua % ub;
    assert ua == ub * m + r && 0 <= r < ub;
    var q := TruncDiv(a, b);
    MulNeg(ub, m);
    assert q == if (a < 0) == (b < 0) then m else -m;
    assert b * q == if a < 0 then -(ub * m) else ub * m;
  }

  lemma MulNeg(x: int, y: int)
    ensures (-x) * y == -(x * y) && x * (-y) == -(x * y) && (-x) * (-y) == x * y
  {
  }
}
