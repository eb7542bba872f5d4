/** The integer operations the evaluator applies, with the semantics of the
    Rust `i32` operators it uses (without the 32-bit bound). */
module Arith {

  function Abs(x: int): (r: nat)
    ensures r == x || r == -x
  {
    if x < 0 then -x else x
  }

  /** The quotient of natural numbers, characterised by its bounds. */
  function Quotient(x: nat, y: nat): (m: nat)
    requires y > 0
    ensures y * m <= x < y * m + y
  {
    var m := x / y;
    assert x == y * m + x % y;
    m
  }

  /** `/` on Rust integers: the quotient truncated toward zero. Its magnitude
      is the largest m with |b| * m <= |a|, and its sign is the product of the
      operands' signs. */
  function TruncDiv(a: int, b: int): (q: int)
    requires b != 0
    ensures Abs(b) * Abs(q) <= Abs(a) < Abs(b) * Abs(q) + Abs(b)
    ensures q == 0 || ((q < 0) <==> ((a < 0) != (b < 0)))
  {
    var m: int := Quotient(Abs(a), Abs(b));
    if (a < 0) == (b < 0) then m else -m
  }

  /** `%` on Rust integers: the remainder of the truncating division, whose
      sign follows the dividend. */
  function TruncRem(a: int, b: int): (r: int)
    requires b != 0
    ensures a == b * TruncDiv(a, b) + r
    ensures Abs(r) < Abs(b)
    ensures r == 0 || ((r < 0) <==> (a < 0))
  {
    var q := TruncDiv(a, b);
    MulAbsSign(a, b, q);
    a - b * q
  }

  /** b * q has magnitude |b| * |q| and, when not zero, the sign of a. */
  lemma MulAbsSign(a: int, b: int, q: int)
    requires b != 0
    requires q == 0 || ((q < 0) <==> ((a < 0) != (b < 0)))
    ensures b * q == (if a < 0 then -(Abs(b) * Abs(q)) else Abs(b) * Abs(q))
  {
    if q == 0 {
    } else if b < 0 && a < 0 {
      assert b * q == -((-b) * q);
    } else if b < 0 {
      assert b * q == (-b) * (-q);
    } else if a < 0 {
      assert b * q == -(b * (-q));
    }
  }

  /** `pow` with a non-negative exponent. */
  function Pow(base: int, exp: nat): (r: int)
    ensures r == 0 <==> base == 0 && exp > 0
    ensures base >= 0 || exp % 2 == 0 ==> r >= 0
    ensures base < 0 && exp % 2 == 1 ==> r < 0
  {
    if exp == 0 then 1 else base * Pow(base, exp - 1)
  }

  lemma {:induction false} PowAdd(base: int, m: nat, n: nat)
    ensures Pow(base, m + n) == Pow(base, m) * Pow(base, n)
  {
    if n > 0 {
      PowAdd(base, m, n - 1);
      assert Pow(base, m + n) == base * (Pow(base, m) * Pow(base, n - 1));
      MulSwapsInside(base, Pow(base, m), Pow(base, n - 1));
    }
  }

  /** Raising a power again multiplies the exponents: the evaluator's
      left-leaning `^` therefore computes `a^b^c` as `a^(b*c)`. */
  lemma {:induction false} PowPow(base: int, m: nat, n: nat)
    ensures Pow(Pow(base, m), n) == Pow(base, m * n)
  {
    if n > 0 {
      PowPow(base, m, n - 1);
      PowAdd(base, m, m * (n - 1));
      assert m * n == m + m * (n - 1);
    }
  }

  /** The integer square root: the largest r with r * r <= n. */
  function FloorSqrt(n: nat): (r: nat)
    ensures r * r <= n < (r + 1) * (r + 1)
  {
    if n == 0 then 0
    else
      var s := FloorSqrt(n - 1);
      if (s + 1) * (s + 1) <= n then
        assert n == (s + 1) * (s + 1);
        assert (s + 2) * (s + 2) == (s + 1) * (s + 1) + 2 * s + 3;
        s + 1
      else s
  }

  /** `sqrt` of the evaluator: the square root taken in floating point and
      converted back, which is 0 for a negative operand (the root is NaN). */
  function SqrtToInt(x: int): (r: nat)
    ensures x < 0 ==> r == 0
    ensures x >= 0 ==> r * r <= x < (r + 1) * (r + 1)
  {
    if x < 0 then 0 else FloorSqrt(x)
  }

  /** The product of the inclusive range lo..=hi; 1 when the range is empty. */
  function RangeProduct(lo: int, hi: int): (r: int)
    ensures lo > hi ==> r == 1
    ensures lo >= 1 ==> r >= 1
    ensures lo <= 0 <= hi ==> r == 0
    decreases hi - lo
  {
    if lo > hi then 1 else lo * RangeProduct(lo + 1, hi)
  }

  /** The factorial by its textbook recurrence, as an independent reference. */
  function Factorial(n: nat): (r: nat)
    ensures r >= 1
  {
    if n == 0 then 1 else n * Factorial(n - 1)
  }

  lemma {:induction false} RangeProductSplit(lo: int, hi: int)
    requires lo <= hi
    ensures RangeProduct(lo, hi) == RangeProduct(lo, hi - 1) * hi
    decreases hi - lo
  {
    if lo < hi {
      RangeProductSplit(lo + 1, hi);
      var p := RangeProduct(lo + 1, hi - 1);
      assert RangeProduct(lo, hi) == lo * (p * hi);
      assert RangeProduct(lo, hi - 1) == lo * p;
      MulAssociates(lo, p, hi);
    }
  }

  lemma MulSwapsInside(a: int, b: int, c: int)
    ensures a * (b * c) == b * (a * c)
  {
  }

  lemma MulAssociates(a: int, b: int, c: int)
    ensures a * (b * c) == (a * b) * c
  {
  }

  /** `fac`: the product of 2..=n is n! for n >= 0 and 1 for a negative n. */
  lemma {:induction false} FacIsFactorial(n: int)
    ensures n >= 0 ==> RangeProduct(2, n) == Factorial(n)
    ensures n < 0 ==> RangeProduct(2, n) == 1
  {
    if n >= 2 {
      FacIsFactorial(n - 1);
      RangeProductSplit(2, n);
    }
  }
}
