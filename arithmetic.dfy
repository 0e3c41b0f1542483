/** Small facts of integer arithmetic that the solver does not find unaided. */
module Arithmetic {

  /** Quotient and remainder of a Euclidean division are unique. */
  lemma DivModUnique(a: int, n: int, q: int, r: int)
    requires n > 0 && 0 <= r < n && a == q * n + r
    ensures a / n == q && a % n == r
  {
    var q', r' := a / n, a % n;
    DivModSplit(a, n);
    var d := q - q';
    MulDistributes(q, q', n);
    assert d * n == r' - r;
    if d > 0 {
      MulAtLeast(d, n);
    } else if d < 0 {
      MulAtLeast(-d, n);
    }
  }

  /** Euclidean division splits a number into quotient and remainder. */
  lemma DivModSplit(a: int, n: int)
    requires n > 0
    ensures a == (a / n) * n + a % n && 0 <= a % n < n
  {
  }

  /** Multiplication distributes over subtraction. */
  lemma MulDistributes(x: int, y: int, n: int)
    ensures (x - y) * n == x * n - y * n
  {
  }

  /** A positive multiple of `n` is at least `n`. */
  lemma MulAtLeast(d: int, n: int)
    requires d > 0 && n > 0
    ensures d * n >= n
  {
    assert d * n == (d - 1) * n + n;
  }

  /**
   * `count` blocks of `len` laid end to end, by repeated addition. Proofs about
   * positions in row-major layouts work with this rather than with `count * len`,
   * which keeps them linear.
   */
  function Offset(count: nat, len: nat): nat
  {
    if count == 0 then 0 else Offset(count - 1, len) + len
  }

  /** Repeated addition is multiplication. */
  lemma {:induction false} OffsetIsProduct(count: nat, len: nat)
    ensures Offset(count, len) == count * len
  {
    if count > 0 {
      OffsetIsProduct(count - 1, len);
      MulDistributes(count, 1, len);
    }
  }

  /** The blocks before block `y` and block `y` itself end no later than `n` blocks. */
  lemma {:induction false} OffsetMonotone(y: nat, n: nat, len: nat)
    requires y < n
    ensures Offset(y, len) + len <= Offset(n, len)
  {
    if y + 1 < n {
      OffsetMonotone(y, n - 1, len);
    }
  }
}
