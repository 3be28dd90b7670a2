/** Facts about integer division the puzzle modules share: Dafny's `/` and
    `%` by a positive divisor agree with Python's `//` and `%`. */
module Arithmetic {

  /** Division is determined by a quotient and a remainder in range. */
  lemma DivUnique(a: int, n: int, d: int, r: int)
    requires n >= 1 && 0 <= r < n && a == n * d + r
    ensures a / n == d && a % n == r
  {
    var d', r' := a / n, a % n;
    assert a == n * d' + r' && 0 <= r' < n;
    assert n * (d - d') == r' - r by {
      assert n * (d - d') == n * d - n * d';
    }
    if d - d' >= 1 {
      MulAtLeast(n, d - d');
    } else if d - d' <= -1 {
      assert n * (d' - d) == -(n * (d - d'));
      MulAtLeast(n, d' - d);
    }
  }

  lemma MulAtLeast(n: int, m: int)
    requires n >= 1 && m >= 1
    ensures n * m >= n
  {
    assert n * m == n * (m - 1) + n;
    assert n * (m - 1) >= 0;
  }

  /** Multiplying by a non-negative factor keeps the order. */
  lemma MulMonotone(a: int, b: int, c: int)
    requires 0 <= a <= b && c >= 0
    ensures 0 <= a * c <= b * c
  {
    assert b * c - a * c == (b - a) * c;
  }

  /** A whole number of divisors fits in the dividend. */
  lemma QuotientFits(length: nat, size: int)
    requires size > 0
    ensures 0 <= (length / size) * size <= length
  {
    assert length == (length / size) * size + length % size;
  }

  /** What a whole number of divisors leaves over is less than one divisor. */
  lemma QuotientLeaves(length: nat, size: int)
    requires size > 0
    ensures 0 <= length - (length / size) * size < size
  {
    assert length == (length / size) * size + length % size;
  }

  lemma Distribute(a: int, b: int, c: int)
    ensures a * (b + c) == a * b + a * c
  {
  }
}
