/**
 * Signed 64-bit machine integers, Rust's `i64`, modelled as mathematical
 * integers restricted to the representable range, together with the
 * truncating quotient that Rust's `/` computes. Dafny's own `/` on `int` is
 * Euclidean and differs for negative operands, so it is never used directly
 * on signed values.
 */
module Int64 {

  /** `i64::MIN`, that is -2^63. */
  const MIN: int := -0x8000_0000_0000_0000
  /** `i64::MAX`, that is 2^63 - 1. */
  const MAX: int := 0x7FFF_FFFF_FFFF_FFFF

  predicate InRange(x: int) {
    MIN <= x <= MAX
  }

  /** The values an `i64` can hold. */
  type I64 = x: int | InRange(x)

  function Abs(x: int): nat {
    if x < 0 then -x else x
  }

  /**
   * The quotient of `a` by `b` rounded toward zero: the magnitude is the
   * quotient of the magnitudes, the sign is negative exactly when the signs
   * of the operands differ.
   */
  function TruncDiv(a: int, b: int): int
    requires b != 0
  {
    var q := Abs(a) / Abs(b);
    if (a < 0) == (b < 0) then q else -q
  }

  /** The remainder `a - TruncDiv(a, b) * b`, which Rust's `%` returns. */
  function TruncRem(a: int, b: int): int
    requires b != 0
  {
    a - TruncDiv(a, b) * b
  }

  /**
   * TruncDiv rounds toward zero: the remainder it leaves is smaller than
   * the divisor in magnitude and never has a sign opposite to the dividend.
   */
  lemma TruncDivRemainder(a: int, b: int)
    requires b != 0
    ensures Abs(TruncRem(a, b)) < Abs(b)
    ensures a >= 0 ==> TruncRem(a, b) >= 0
    ensures a <= 0 ==> TruncRem(a, b) <= 0
  {
    var q, m := Abs(a) / Abs(b), Abs(a) % Abs(b);
    assert Abs(a) == q * Abs(b) + m && 0 <= m < Abs(b);
    if b > 0 {
      assert Abs(b) == b;
      if a >= 0 {
        assert TruncRem(a, b) == m;
      } else {
        assert TruncDiv(a, b) * b == -(q * b);
        assert TruncRem(a, b) == -m;
      }
    } else {
      assert Abs(b) == -b;
      assert q * b == -(q * Abs(b));
      if a >= 0 {
        assert TruncDiv(a, b) * b == -(q * b);
        assert TruncRem(a, b) == m;
      } else {
        assert TruncRem(a, b) == -m;
      }
    }
  }

  /** The magnitude of a product is the product of the magnitudes. */
  lemma AbsOfProduct(k: int, b: int)
    ensures Abs(k * b) == Abs(k) * Abs(b)
  {
    if k < 0 && b < 0 {
      assert k * b == (-k) * (-b);
    } else if k < 0 {
      assert k * b == -((-k) * b);
    } else if b < 0 {
      assert k * b == -(k * (-b));
    }
  }

  /** A positive multiple of a natural number is at least that number. */
  lemma NatMultiple(n: nat, m: nat)
    requires n >= 1
    ensures n * m >= m
  {
    var e: nat := n - 1;
    assert n * m == e * m + m;
    assert e * m >= 0;
  }

  /** A non-zero multiple of `b` is at least as large as `b` in magnitude. */
  lemma MultipleMagnitude(k: int, b: int)
    requires k != 0
    ensures Abs(k * b) >= Abs(b)
  {
    AbsOfProduct(k, b);
    NatMultiple(Abs(k), Abs(b));
  }

  /** Two multiples of `b` differ by a multiple of `b`. */
  lemma MultipleDifference(q: int, q0: int, b: int)
    ensures q * b - q0 * b == (q - q0) * b
  {
  }

  /**
   * Rounding toward zero determines the quotient: any `q` whose remainder
   * has the properties of TruncDivRemainder is TruncDiv(a, b).
   */
  lemma TruncDivUnique(a: int, b: int, q: int)
    requires b != 0
    requires Abs(a - q * b) < Abs(b)
    requires a >= 0 ==> a - q * b >= 0
    requires a <= 0 ==> a - q * b <= 0
    ensures q == TruncDiv(a, b)
  {
    var q0 := TruncDiv(a, b);
    TruncDivRemainder(a, b);
    var p, p0 := q * b, q0 * b;
    assert Abs(p - p0) < Abs(b);
    MultipleDifference(q, q0, b);
    if q != q0 {
      MultipleMagnitude(q - q0, b);
      assert false;
    }
  }

  /** Dividing by at least two at least halves a natural number. */
  lemma QuotientHalves(n: nat, d: nat)
    requires d >= 2
    ensures n / d * 2 <= n
  {
    var q, m := n / d, n % d;
    assert n == q * d + m && m >= 0;
    var e: nat := d - 2;
    assert q * d == q * 2 + q * e;
    assert q * e >= 0;
  }

  /**
   * The quotient of an `i64` by a non-zero divisor is again an `i64`,
   * except for `i64::MIN / -1`, whose quotient 2^63 is one past `i64::MAX`.
   */
  lemma TruncDivInRange(a: int, b: int)
    requires InRange(a) && b != 0
    ensures InRange(TruncDiv(a, b)) <==> !(a == MIN && b == -1)
  {
    if Abs(b) == 1 {
      assert Abs(a) / Abs(b) == Abs(a);
    } else {
      QuotientHalves(Abs(a), Abs(b));
    }
  }
}
